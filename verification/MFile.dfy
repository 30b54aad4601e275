/** source/mfile.c: a cursor over a memory-mapped file of fixed size. */
module MFiles {
  import opened Types

  /**
   * `mfseek` answers 0 when it refuses, so a caller that compares the answer with the wanted position
   * sees a refusal everywhere except at 0. A stream that is not open behaves as one of size 0.
   */
  predicate SeekAccepted(size: nat, pos: nat) { pos == 0 || pos < size }

  /** `file` with `data` written over it from `pos` on, clipped at the end of the file as `mfwrite` clips. */
  function WriteAt(file: seq<byte>, pos: nat, data: seq<byte>): (r: seq<byte>)
    ensures |r| == |file|
  {
    seq(|file|, k requires 0 <= k < |file| => if pos <= k < pos + |data| then data[k - pos] else file[k])
  }

  /** Writing changes nothing outside its range, and inside the file the range becomes the data. */
  lemma WriteAtFrame(file: seq<byte>, pos: nat, data: seq<byte>)
    ensures forall k | 0 <= k < |file| && !(pos <= k < pos + |data|) :: WriteAt(file, pos, data)[k] == file[k]
    ensures pos + |data| <= |file| ==>
              WriteAt(file, pos, data) == file[..pos] + data + file[pos + |data|..]
    ensures pos + |data| <= |file| ==> WriteAt(file, pos, data)[pos..pos + |data|] == data
  {
  }

  /** Past the end there is nothing to write to, wherever the cursor would be. */
  lemma WriteAtEnd(file: seq<byte>, pos: nat, data: seq<byte>)
    requires pos >= |file|
    ensures WriteAt(file, pos, data) == file == WriteAt(file, |file|, data)
  {
  }

  /** Two adjacent writes are one. */
  lemma WriteAtTwice(file: seq<byte>, pos: nat, first: seq<byte>, second: seq<byte>)
    ensures WriteAt(WriteAt(file, pos, first), pos + |first|, second) == WriteAt(file, pos, first + second)
  {
  }

  class MFile {
    const buf: array<byte>
    var open: bool
    var pos: nat
    /** The mapped bytes; nothing can be read or written through a stream that is not open. */
    ghost var contents: seq<byte>

    ghost predicate Valid()
      reads this, buf
    {
      && pos <= buf.Length
      && |contents| == (if open then buf.Length else 0)
      && forall k | 0 <= k < |contents| :: contents[k] == buf[k]
    }

    /** A mapping of a file, or the closed stream a failed `mfopen` leaves. */
    constructor (mapped: seq<byte>, ok: bool)
      ensures Valid() && open == ok && pos == 0 && fresh(buf)
      ensures contents == if ok then mapped else []
    {
      buf := new byte[|mapped|](i requires 0 <= i < |mapped| => mapped[i]);
      open, pos := ok, 0;
      contents := if ok then mapped else [];
      new;
      assert buf[..] == mapped;
    }

    method MFRead(ptr: array<byte>, size: nat) returns (value: nat)
      requires Valid() && size <= ptr.Length && ptr != buf
      modifies this`pos, ptr
      ensures Valid()
      ensures value == if open then Min(size, |contents| - old(pos)) else 0
      ensures open ==> ptr[..value] == contents[old(pos)..old(pos) + value]
      ensures ptr[value..] == old(ptr[value..])
      ensures pos == old(pos) + value
    {
      if !open { return 0; }
      value := Min(size, buf.Length - pos);
      forall k | 0 <= k < value {
        ptr[k] := buf[pos + k];
      }
      pos := pos + value;
    }

    method MFWrite(ptr: array<byte>, size: nat) returns (value: nat)
      requires Valid() && size <= ptr.Length && ptr != buf
      modifies this`pos, this`contents, buf
      ensures Valid()
      ensures value == if open then Min(size, |contents| - old(pos)) else 0
      ensures contents == WriteAt(old(contents), old(pos), ptr[..size])
      ensures pos == old(pos) + value
    {
      if !open { return 0; }
      value := Min(size, buf.Length - pos);
      forall k | 0 <= k < value {
        buf[pos + k] := ptr[k];
      }
      contents := WriteAt(contents, pos, ptr[..size]);
      pos := pos + value;
    }

    method MFSeek(to: nat) returns (value: nat)
      requires Valid()
      modifies this`pos
      ensures Valid()
      ensures value == to <==> SeekAccepted(|contents|, to)
      ensures value == if to < |contents| then to else 0
      ensures pos == if to < |contents| then to else old(pos)
    {
      if open && to < buf.Length {
        pos := to;
        return to;
      }
      return 0;
    }

    method MFTell() returns (value: nat)
      ensures value == if open then pos else 0
    {
      return if open then pos else 0;
    }
  }
}
