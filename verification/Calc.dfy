/** include/utils/calc.h: how a file is cut into chunks, with the C integer widths written out. */
module Calc {
  import opened Types

  /** A C conversion to an unsigned 32-bit integer. */
  function Low32(x: int): u32 { x % POW32 }

  /** The bytes after `val` whole chunks: a 64-bit difference, cut to 16 bits. */
  function Partial(size: u64, val: u32, chsize: u64): u16 { ((size - val * chsize) % POW64) % POW16 }

  /** Chunk count (32 bits) and size of the last, partial chunk (16 bits). */
  function ChunkCount(size: u64, chsize: u64): (u32, u16)
    requires chsize != 0
  {
    var val := Low32(size / chsize);
    (Low32(val + 1), Partial(size, val, chsize))
  }

  /** The file size the receiver derives from the three numbers of a SEND packet, in 64-bit arithmetic. */
  function FileSize(count: u32, chsize: u16, partial: u16): u64 {
    (((count - 1) % POW64) * chsize + partial) % POW64
  }

  /** Small sizes stay whole; others get the largest of four powers of two below them, and so at least half of them. */
  function SegmentSize(size: nat): (r: nat)
    ensures size <= 1024 ==> r == size
    ensures size > 1024 ==> r in {1024, 2048, 4096, 8192} && r < size && (size <= 2 * r || r == 8192)
  {
    if size > 8192 then 8192
    else if size > 4096 then 4096
    else if size > 2048 then 2048
    else if size > 1024 then 1024
    else size
  }

  /** The size of the segment that starts `off` bytes into a chunk of `len` bytes. */
  function SegmentAt(segsize: nat, len: nat, off: nat): nat { if off < len then Min(segsize, len - off) else 0 }

  /** The number of segments of a chunk: the length divided by the segment size, rounded up. */
  function SegmentCount(len: nat, segsize: nat): nat
    requires segsize > 0
  {
    (len + segsize - 1) / segsize
  }

  /** Start of chunk `sequence`: the product is taken in 32 bits. */
  function Offset(sequence: u32, chsize: u16): u32 {
    Low32(Low32(sequence - 1) * chsize)
  }

  function ChunkLen(sequence: u32, chcount: u32, chsize: u16, pchsize: u16): u16 {
    if sequence == chcount then pchsize else chsize
  }

  // ---------- the count and the file size are inverse ----------

  lemma DivMod(size: nat, ch: nat)
    requires ch > 0
    ensures size == (size / ch) * ch + size % ch
    ensures 0 <= size % ch < ch
  {
  }

  lemma SmallMultipleIsZero(x: int, m: int)
    requires m > 0 && -m < x * m < m
    ensures x == 0
  {
    if x >= 1 {
      MulMonotone(1, x, m);
      assert false;
    } else if x <= -1 {
      MulMonotone(x, -1, m);
      assert false;
    }
  }

  lemma MulMonotone(x: int, y: int, m: int)
    requires x <= y && 0 <= m
    ensures x * m <= y * m
  {
    assert (y - x) * m >= 0;
  }

  lemma SmallMod(a: nat, m: nat)
    requires a < m
    ensures a % m == a
  {
  }

  lemma DivMonotone(a: nat, b: nat, m: nat)
    requires a <= b && m > 0
    ensures a / m <= b / m
  {
    if b / m + 1 <= a / m {
      MulMonotone(b / m + 1, a / m, m);
      assert false;
    }
  }

  lemma ModUnique(a: int, m: int, k: int, r: int)
    requires m > 0 && a == k * m + r && 0 <= r < m
    ensures a % m == r && a / m == k
  {
    var k' := a / m;
    var r' := a % m;
    assert (k - k') * m == r' - r;
    SmallMultipleIsZero(k - k', m);
  }

  /** Cutting off one segment leaves one fewer. */
  lemma OneSegment(len: nat, segsize: nat)
    requires segsize > 0
    ensures SegmentCount(0, segsize) == 0
    ensures len > 0 ==> SegmentCount(len, segsize) == 1 + SegmentCount(len - Min(segsize, len), segsize)
  {
    ModUnique(segsize - 1, segsize, 0, segsize - 1);
    var a: nat := len + segsize - 1;
    DivMod(a, segsize);
    if len > segsize {
      assert (a / segsize - 1) * segsize == (a / segsize) * segsize - segsize;
      ModUnique(a - segsize, segsize, a / segsize - 1, a % segsize);
    } else if len > 0 {
      ModUnique(a, segsize, 1, len - 1);
    }
  }

  /** A count cut to 32 bits leaves the remainder and a multiple of 2^32. */
  lemma CutCount(k: nat, val: nat, ch: nat, r: nat)
    ensures (k * POW32 + val) * ch + r - val * ch == (k * ch * POW16) * POW16 + r
    ensures 0 <= k * ch && 0 <= val * ch
  {
    assert (k * POW32 + val) * ch == (k * POW32) * ch + val * ch;
    assert (k * POW32) * ch == (k * ch) * POW32;
  }

  lemma CutTwice(t: nat, r: u16)
    requires t * POW16 + r < POW64
    ensures ((t * POW16 + r) % POW64) % POW16 == r
  {
  }

  lemma CutRemainder(size: u64, k: nat, val: u32, ch: u16, r: nat)
    requires size == (k * POW32 + val) * ch + r && r < ch
    ensures Partial(size, val, ch) == r
  {
    CutCount(k, val, ch, r);
    CutTwice(k * ch * POW16, r);
  }

  lemma LowStep(q: nat)
    ensures q == (q / POW32) * POW32 + Low32(q)
    ensures Low32(Low32(q) + 1) == (q + 1) % POW32
  {
  }

  /** No cast in `calc_chunk_count` loses the remainder: it is the true remainder even when the count wraps. */
  lemma PartialExact(size: u64, chsize: u16)
    requires chsize != 0
    ensures ChunkCount(size, chsize).1 == size % chsize < chsize
    ensures ChunkCount(size, chsize).0 == (size / chsize + 1) % POW32
  {
    hide Low32, Partial;
    var q := size / chsize;
    DivMod(size, chsize);
    LowStep(q);
    CutRemainder(size, q / POW32, Low32(q), chsize, size % chsize);
  }

  lemma FileSizeOfWrappedCount(size: u64, chsize: u16)
    requires chsize != 0 && (size / chsize) % POW32 == POW32 - 1
    ensures FileSize(0, chsize, size % chsize) == size <==> (size / chsize + 1) * chsize == POW64
    ensures (size / chsize + 1) % POW32 == 0
  {
    var q, r := size / chsize, size % chsize;
    DivMod(size, chsize);
    ModUnique(q + 1, POW32, q / POW32 + 1, 0);
    ModUnique(-1, POW64, -1, POW64 - 1);
    var wrapped := (POW64 - 1) * chsize + r;
    assert wrapped == (chsize - 1) * POW64 + (POW64 - chsize + r);
    ModUnique(wrapped, POW64, chsize - 1, POW64 - chsize + r);
    assert (q + 1) * chsize == q * chsize + chsize;
  }

  /** Without overflow `calc_file_size` is the plain product and sum. */
  lemma FileSizeExact(val: nat, chsize: u16, partial: u16)
    requires val < POW32 - 1
    ensures val * chsize + partial < POW64
    ensures FileSize(val + 1, chsize, partial) == val * chsize + partial
  {
    MulMonotone(val, POW32, chsize);
    MulMonotone(0, val, chsize);
    ModUnique(val * chsize + partial, POW64, 0, val * chsize + partial);
  }

  lemma SameMultiple(x: int, y: int, m: int)
    requires m > 0 && x * m == y * m
    ensures x == y
  {
    assert (x - y) * m == 0;
    SmallMultipleIsZero(x - y, m);
  }

  lemma CountOfSmall(q: nat)
    requires q % POW32 < POW32 - 1
    ensures (q + 1) % POW32 == q % POW32 + 1
    ensures q < POW32 - 1 <==> q % POW32 == q
  {
  }

  lemma SumsOfMultiples(x: nat, y: nat, m: nat, r: nat)
    requires m > 0
    ensures x * m + r == y * m + r <==> x == y
  {
    if x * m == y * m { SameMultiple(x, y, m); }
  }

  lemma FileSizeOfParts(q: nat, ch: u16, r: u16)
    requires ch != 0 && q % POW32 < POW32 - 1
    ensures FileSize(q % POW32 + 1, ch, r) == q * ch + r <==> q < POW32 - 1
  {
    hide FileSize;
    CountOfSmall(q);
    FileSizeExact(q % POW32, ch, r);
    SumsOfMultiples(q % POW32, q, ch, r);
  }

  lemma FileSizeOfCount(size: u64, chsize: u16, val: nat)
    requires chsize != 0 && val == (size / chsize) % POW32 < POW32 - 1
    ensures FileSize(val + 1, chsize, size % chsize) == size <==> size / chsize < POW32 - 1
    ensures (size / chsize + 1) % POW32 == val + 1
  {
    hide FileSize;
    DivMod(size, chsize);
    CountOfSmall(size / chsize);
    FileSizeOfParts(size / chsize, chsize, size % chsize);
  }

  /**
   * `calc_file_size` undoes `calc_chunk_count` exactly when the count does not wrap; the one other
   * case is a count wrapped to 0 whose 64-bit size wraps back by the same amount.
   */
  lemma FileSizeInverse(size: u64, chsize: u16)
    requires chsize != 0
    ensures FileSize(ChunkCount(size, chsize).0, chsize, ChunkCount(size, chsize).1) == size <==>
            (size / chsize < POW32 - 1
             || ((size / chsize + 1) % POW32 == 0 && (size / chsize + 1) * chsize == POW64))
  {
    hide ChunkCount, FileSize;
    var q := size / chsize;
    var val := q % POW32;
    PartialExact(size, chsize);
    if val == POW32 - 1 {
      FileSizeOfWrappedCount(size, chsize);
      assert !(q < POW32 - 1);
    } else {
      FileSizeOfCount(size, chsize, val);
    }
  }

  // ---------- the chunks tile the file ----------

  /** The sizes on which neither the chunk count nor a chunk offset wraps. */
  predicate Fits(size: nat, chsize: u16) {
    chsize != 0 && size / chsize < POW32 - 1 && (size / chsize) * chsize < POW32
  }

  function LastChunk(size: nat, chsize: u16): (n: u32)
    requires Fits(size, chsize)
  {
    size / chsize + 1
  }

  lemma CountExact(size: nat, chsize: u16)
    requires Fits(size, chsize) && size < POW64
    ensures ChunkCount(size, chsize) == (LastChunk(size, chsize), size % chsize)
  {
    hide ChunkCount;
    PartialExact(size, chsize);
    ModUnique(size / chsize + 1, POW32, 0, size / chsize + 1);
  }

  /** Every file below 2^32 bytes that is not an exact multiple of the chunk size fits. */
  lemma SmallUnevenFits(size: nat, chsize: u16)
    requires chsize != 0 && size < POW32 && size % chsize != 0
    ensures Fits(size, chsize) && size > 0
  {
    DivMod(size, chsize);
    var q := size / chsize;
    assert chsize > 1;
    MulMonotone(2, chsize, q);
    assert 2 * q <= q * chsize;
  }

  /** First byte and length of chunk `c`, as both ends compute them. */
  function Start(size: nat, chsize: u16, c: u32): nat
    requires Fits(size, chsize)
  {
    Offset(c, chsize)
  }

  function Len(size: nat, chsize: u16, c: u32): nat
    requires Fits(size, chsize)
  {
    ChunkLen(c, LastChunk(size, chsize), chsize, size % chsize)
  }

  lemma Low32Keeps(x: nat)
    requires x < POW32
    ensures Low32(x) == x
  {
  }

  lemma OffsetExact(c: u32, chsize: u16)
    requires c > 0 && (c - 1) * chsize < POW32
    ensures Offset(c, chsize) == (c - 1) * chsize
  {
    hide Low32;
    assert 0 <= (c - 1) * chsize;
    Low32Keeps(c - 1);
    Low32Keeps((c - 1) * chsize);
  }

  /** The 32-bit product is the true offset of every chunk exactly when the last offset is below 2^32. */
  lemma OffsetsExact(count: u32, chsize: u16)
    requires count > 0
    ensures (forall c: u32 | 1 <= c <= count :: Offset(c, chsize) == (c - 1) * chsize)
            <==> (count - 1) * chsize < POW32
  {
    hide Offset;
    if (count - 1) * chsize < POW32 {
      forall c: u32 | 1 <= c <= count
        ensures Offset(c, chsize) == (c - 1) * chsize
      {
        MulMonotone(c - 1, count - 1, chsize);
        OffsetExact(c, chsize);
      }
    } else {
      assert Offset(count, chsize) < POW32;
    }
  }

  lemma StartExact(size: nat, chsize: u16, c: u32)
    requires Fits(size, chsize) && 1 <= c <= LastChunk(size, chsize)
    ensures Start(size, chsize, c) == (c - 1) * chsize
  {
    OffsetsExact(LastChunk(size, chsize), chsize);
  }

  /** Chunks are consecutive, start at 0 and end at the end of the file. */
  lemma ChunksAreConsecutive(size: nat, chsize: u16, c: u32)
    requires Fits(size, chsize) && 1 <= c <= LastChunk(size, chsize)
    ensures Start(size, chsize, 1) == 0
    ensures Start(size, chsize, c) + Len(size, chsize, c) ==
            if c < LastChunk(size, chsize) then Start(size, chsize, c + 1) else size
    ensures Start(size, chsize, c) + Len(size, chsize, c) <= size
    ensures Start(size, chsize, c) == size ==> c == LastChunk(size, chsize) && size % chsize == 0
    ensures Len(size, chsize, c) == 0 <==> c == LastChunk(size, chsize) && size % chsize == 0
    ensures Len(size, chsize, c) == 0 ==> Start(size, chsize, c) == size
  {
    var n := LastChunk(size, chsize);
    StartExact(size, chsize, c);
    StartExact(size, chsize, 1);
    DivMod(size, chsize);
    if c < n {
      StartExact(size, chsize, c + 1);
      assert c * chsize == (c - 1) * chsize + chsize;
      MulMonotone(c, n - 1, chsize);
    }
  }

  /** A chunk ends before any later chunk starts. */
  lemma ChunksAreDisjoint(size: nat, chsize: u16, c: u32, d: u32)
    requires Fits(size, chsize) && 1 <= c < d <= LastChunk(size, chsize)
    ensures Start(size, chsize, c) + Len(size, chsize, c) <= Start(size, chsize, d)
  {
    StartExact(size, chsize, c);
    StartExact(size, chsize, d);
    MulMonotone(c, d - 1, chsize);
    assert c * chsize == (c - 1) * chsize + chsize;
  }

  ghost predicate Holds(size: nat, chsize: u16, c: u32, i: nat)
    requires Fits(size, chsize)
  {
    1 <= c <= LastChunk(size, chsize)
    && Start(size, chsize, c) <= i < Start(size, chsize, c) + Len(size, chsize, c)
  }

  /** Every byte of the file lies in exactly one chunk, and no chunk reaches outside the file. */
  lemma EveryByteInOneChunk(size: nat, chsize: u16, i: nat)
    requires Fits(size, chsize)
    ensures i < size <==> exists c: u32 :: Holds(size, chsize, c, i)
    ensures forall c: u32, d: u32 | Holds(size, chsize, c, i) && Holds(size, chsize, d, i) :: c == d
  {
    forall c: u32, d: u32 | Holds(size, chsize, c, i) && Holds(size, chsize, d, i)
      ensures c == d
    {
      if c < d { ChunksAreDisjoint(size, chsize, c, d); }
      if d < c { ChunksAreDisjoint(size, chsize, d, c); }
    }
    if i < size {
      DivMod(size, chsize);
      DivMod(i, chsize);
      DivMonotone(i, size, chsize);
      var c: u32 := i / chsize + 1;
      ChunksAreConsecutive(size, chsize, c);
      StartExact(size, chsize, c);
      assert Holds(size, chsize, c, i);
    } else {
      forall c: u32 | Holds(size, chsize, c, i)
        ensures false
      {
        ChunksAreConsecutive(size, chsize, c);
      }
    }
  }

  /** A chunk whose start is inside the file is never number 2^32 - 1, so counting past it does not wrap. */
  lemma NextChunkDoesNotWrap(size: nat, chsize: u16, c: u32)
    requires Fits(size, chsize) && 1 <= c <= LastChunk(size, chsize) && Start(size, chsize, c) < size
    ensures c + 1 < POW32
  {
    ChunksAreConsecutive(size, chsize, c);
    StartExact(size, chsize, c);
    if c == POW32 - 1 && chsize >= 2 {
      MulMonotone(2, chsize, c - 1);
      assert false;
    }
  }
}
