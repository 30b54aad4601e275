/** Fixed-width integers and status codes shared by every part of the model. */
module Types {

  const POW16: nat := 0x1_0000
  const POW32: nat := 0x1_0000_0000
  const POW64: nat := 0x1_0000_0000_0000_0000

  type byte = x: int | 0 <= x < 0x100
  type u16 = x: int | 0 <= x < 0x1_0000
  type u32 = x: int | 0 <= x < 0x1_0000_0000
  type u64 = x: int | 0 <= x < 0x1_0000_0000_0000_0000

  datatype Option<+T> = None | Some(value: T)

  /** The members of `status_t` that the modelled functions can return. */
  datatype Status =
    | SUCCESS | FAILURE | TIMEOUT | LOWSIZE | EXPTRY0 | EXPTRY1 | ZEROACK | FAILSET
    | FAILCRC | BADFLOW | BADARGS | BADTYPE | BADIPV4 | BADPORT
    | ERRBIND | ERRCONN | ERRRECV | ERRSEND | ERRPOLL | EMFSEEK | EMFSYNC | EMALLOC
    | ETHREAD | INVSOCK

  /** The statuses a failing operating-system call leads to: all those the protocol does not decide itself. */
  predicate IsIoFault(st: Status) {
    && !st.SUCCESS? && !st.EXPTRY0? && !st.EXPTRY1? && !st.ZEROACK?
    && !st.FAILCRC? && !st.BADFLOW? && !st.BADTYPE? && !st.EMFSEEK?
  }

  function Min(a: int, b: int): int { if a < b then a else b }

  /** The bytes a C program reads at `start`; an empty result stands for a read outside the buffer. */
  function Slice(b: seq<byte>, start: nat, len: nat): (r: seq<byte>)
    ensures start + len <= |b| ==> |r| == len
  {
    if start + len <= |b| then b[start..start + len] else []
  }
}
