/** C strings in byte buffers, and include/utils/sstr.h. */
module Text {
  import opened Types

  const NUL: byte := 0

  /** The string a buffer holds: its bytes before the first NUL, or all of them. */
  function CStr(b: seq<byte>): (s: seq<byte>)
    ensures |s| <= |b| && s == b[..|s|]
    ensures NUL !in s
    ensures |s| < |b| ==> b[|s|] == NUL
  {
    if b == [] || b[0] == NUL then [] else [b[0]] + CStr(b[1..])
  }

  function Trunc(s: seq<byte>, n: nat): seq<byte> { s[..Min(|s|, n)] }

  /** A buffer whose first NUL is at `n` holds its first `n` bytes. */
  lemma {:induction false} CStrIs(b: seq<byte>, n: nat)
    requires n < |b| && b[n] == NUL && NUL !in b[..n]
    ensures CStr(b) == b[..n]
  {
    if n > 0 {
      assert b[0] in b[..n];
      assert b[1..][..n - 1] == b[..n][1..];
      CStrIs(b[1..], n - 1);
    }
  }

  /**
   * `sstrncpy`: copies at most `dsize` bytes and always terminates inside `dsize`; a source of `dsize`
   * bytes or more loses its byte at `dsize - 1`. The source must be readable up to its NUL or `dsize`.
   */
  method SStrNCpy(dst: array<byte>, src: array<byte>, dsize: nat)
    requires 0 < dsize <= dst.Length && dst != src
    requires |CStr(src[..])| < src.Length || dsize <= src.Length
    modifies dst
    ensures CStr(dst[..]) == Trunc(CStr(src[..]), dsize - 1)
    ensures dst[dsize..] == old(dst[dsize..]) && unchanged(src)
  {
    hide CStr;
    ghost var s := CStr(src[..]);
    var dlen := 0;
    while dlen < dsize && src[dlen] != NUL
      invariant 0 <= dlen <= dsize && dlen <= |s|
      invariant dlen < dsize ==> dlen < src.Length
    {
      assert src[..][dlen] != NUL;
      dlen := dlen + 1;
    }
    assert dlen < |s| ==> s[dlen] == src[..][dlen] && s[dlen] in s;
    forall i | 0 <= i < dlen {
      dst[i] := src[i];
    }
    var last := if dsize == dlen then dsize - 1 else dlen;
    dst[last] := NUL;
    assert dst[..][..last] == s[..last];
    CStrIs(dst[..], last);
    assert src[..] == old(src[..]);
  }
}
