/** The two halves of the handshake on the byte stream: what the puller makes of the pusher's SEND message. */
module Handshake {
  import opened Types
  import opened Text
  import opened InfoStr
  import opened Wire
  import opened Cntl
  import Calc

  const MAXFILENAMESIZE: nat := 256
  const MAXNAMESIZE: nat := 32
  const MAXIPV4SIZE: nat := 16

  // ---------- the SEND message and what is taken from it ----------

  /** Copied field by field into the header, each cut to its buffer. */
  function Copied(i: Info): (c: Info)
    ensures IsText(i) ==> IsText(c)
  {
    Info(Trunc(i.filename, MAXFILENAMESIZE - 1), Trunc(i.name, MAXNAMESIZE - 1), Trunc(i.ip, MAXIPV4SIZE - 1), i.port)
  }

  function Hello(i: Info, size: u64, chsize: u16): Message
    requires chsize != 0
  {
    var (chcount, pchsize) := Calc.ChunkCount(size, chsize);
    Message(Send(chsize, chcount, pchsize, 0), PackText(Copied(i)))
  }

  /** What `pull_handshake` knows afterwards; the address is the remote one. */
  datatype Peer = Peer(chsize: u16, pchsize: u16, chcount: u32, size: u64, info: Info)

  /** The header record is not initialised, so `prev` is what its fields happen to hold. */
  function Adopt(m: Message, prev: Info): Peer
    requires m.packet.Send?
  {
    Peer(m.packet.chsize, m.packet.pchsize, m.packet.chcount,
         Calc.FileSize(m.packet.chcount, m.packet.chsize, m.packet.pchsize), Copied(UnpackText(m.text, prev)))
  }

  /** What the pusher wants it to know. */
  function Meant(i: Info, size: u64, chsize: u16): Peer
    requires chsize != 0
  {
    var (chcount, pchsize) := Calc.ChunkCount(size, chsize);
    Peer(chsize, pchsize, chcount, size, i)
  }

  // ---------- the calls ----------

  /** `sstrncpy` from one char array to another, on the strings they hold. */
  method CopyText(s: seq<byte>, dsize: nat) returns (t: seq<byte>)
    requires dsize > 0 && NUL !in s
    ensures t == Trunc(s, dsize - 1)
  {
    var src := new byte[|s| + 1](i requires 0 <= i < |s| + 1 => if i < |s| then s[i] else NUL);
    assert src[..][..|s|] == s;
    CStrIs(src[..], |s|);
    var dst := new byte[dsize](_ => NUL);
    SStrNCpy(dst, src, dsize);
    t := CStr(dst[..]);
  }

  /** The first half of `push_handshake`. */
  method PushHello(s: Stream, h: Host, addrs: CntlAddrs, size: u64, chsize: u16, poll: Status, accepted: int)
    returns (st: Status, chcount: u32, pchsize: u16)
    requires chsize != 0 && IsText(addrs.Printed())
    requires PollResult(poll) && -1 <= accepted <= SizeOf(SEND) + INFOSTRSIZE
    modifies s
    ensures (chcount, pchsize) == Calc.ChunkCount(size, chsize)
    ensures WellFormed(Hello(addrs.Printed(), size, chsize))
    ensures st == SUCCESS <==> poll == SUCCESS && accepted == SizeOf(SEND) + INFOSTRSIZE
    ensures st == SUCCESS ==> s.bytes == old(s.bytes) + Bytes(h, Hello(addrs.Printed(), size, chsize))
    ensures |Bytes(h, Hello(addrs.Printed(), size, chsize))| == SizeOf(SEND) + INFOSTRSIZE
    ensures poll != SUCCESS ==> st == poll && s.bytes == old(s.bytes)
    ensures poll == SUCCESS && accepted == -1 ==> st == ERRSEND && s.bytes == old(s.bytes)
    ensures poll == SUCCESS && 0 <= accepted < SizeOf(SEND) + INFOSTRSIZE ==>
              st == LOWSIZE && s.bytes == old(s.bytes) + Bytes(h, Hello(addrs.Printed(), size, chsize))[..accepted]
  {
    var pair := Calc.ChunkCount(size, chsize);
    chcount, pchsize := pair.0, pair.1;
    var info := new CntlAddrs();
    info.filename := CopyText(addrs.filename, MAXFILENAMESIZE);
    info.name := CopyText(addrs.name, MAXNAMESIZE);
    info.localIp := CopyText(addrs.localIp, MAXIPV4SIZE);
    info.localPort := addrs.localPort;
    assert info.Printed() == Copied(addrs.Printed());
    st := PushInfoHeader(s, h, Send(chsize, chcount, pchsize, 0), info, poll, accepted);
  }

  lemma AddressKeepsText(text: seq<byte>, prev: Info)
    requires NUL !in text && IsText(prev)
    ensures IsText(UnpackAddress(text, prev))
  {
    hide Span, ScanPort;
  }

  lemma NameKeepsText(text: seq<byte>, prev: Info)
    requires NUL !in text && IsText(prev)
    ensures IsText(UnpackName(text, prev))
  {
    hide Span, UnpackAddress;
    var n := Span(text, AT, 31);
    if n > 0 && n < |text| {
      AddressKeepsText(text[n..][1..], prev.(name := text[..n]));
    }
  }

  lemma UnpackKeepsText(text: seq<byte>, prev: Info)
    requires NUL !in text && IsText(prev)
    ensures IsText(UnpackText(text, prev))
  {
    hide Span, UnpackName;
    var n := Span(text, COLON, 255);
    if n > 0 && n < |text| {
      NameKeepsText(text[n..][1..], prev.(filename := text[..n]));
    }
  }

  lemma PulledText(h: Host, s: seq<byte>)
    ensures var r := PullBytes(h, SEND, s);
            r.st == SUCCESS <==> r.message.Some?
    ensures var r := PullBytes(h, SEND, s);
            r.message.Some? ==> r.message.value.packet.Send? && NUL !in r.message.value.text
  {
  }

  /** The first half of `pull_handshake`, up to opening the file; `header` is its record. */
  method PullHello(s: Stream, h: Host, header: CntlAddrs, addrs: CntlAddrs, poll: Status)
    returns (st: Status, chsize: u16, pchsize: u16, chcount: u32, size: u64, remoteName: seq<byte>)
    requires PollResult(poll) && header != addrs && IsText(header.Scanned())
    modifies s, header, addrs`filename, addrs`remoteIp, addrs`remotePort
    ensures poll != SUCCESS ==> st == poll && s.bytes == old(s.bytes)
    ensures st != SUCCESS ==> addrs.Printed() == old(addrs.Printed()) && addrs.Scanned() == old(addrs.Scanned())
    ensures poll == SUCCESS ==>
              var r := PullBytes(h, SEND, old(s.bytes));
              && st == r.st && s.bytes == r.rest
              && (st == SUCCESS ==>
                    Peer(chsize, pchsize, chcount, size,
                         Info(addrs.filename, remoteName, addrs.remoteIp, addrs.remotePort))
                    == Adopt(r.message.value, old(header.Scanned())))
  {
    chsize, pchsize, chcount, size, remoteName := 0, 0, 0, 0, [];
    hide PullBytes, UnpackText;
    ghost var prev := header.Scanned();
    ghost var r := PullBytes(h, SEND, s.bytes);
    var packet;
    st, packet := PullInfoHeader(s, h, SEND, header, poll);
    if st != SUCCESS { return; }
    PulledText(h, old(s.bytes));
    UnpackKeepsText(r.message.value.text, prev);
    chsize, pchsize, chcount := packet.chsize, packet.pchsize, packet.chcount;
    addrs.filename := CopyText(header.filename, MAXFILENAMESIZE);
    remoteName := CopyText(header.name, MAXNAMESIZE);
    addrs.remoteIp := CopyText(header.remoteIp, MAXIPV4SIZE);
    addrs.remotePort := header.remotePort;
    size := Calc.FileSize(chcount, chsize, pchsize);
  }

  // ---------- the two ends agree ----------

  /** Strings that the pusher's own char arrays can hold. */
  predicate InBuffers(i: Info) {
    IsText(i) && |i.filename| <= 255 && |i.name| <= 31 && |i.ip| <= 15
  }

  lemma CopiedWhole(i: Info)
    requires InBuffers(i)
    ensures Copied(i) == i
  {
  }

  lemma UnpackStaysInBuffers(text: seq<byte>, prev: Info)
    requires NUL !in text && InBuffers(prev)
    ensures InBuffers(UnpackText(text, prev))
  {
    UnpackKeepsText(text, prev);
  }

  /** What the record could hold before to make a lost field visible. */
  function Telltale(i: Info): (prev: Info)
    ensures InBuffers(prev)
    ensures !Field(i.filename, COLON, 255) ==> forall t: seq<byte> :: UnpackText(t, prev).filename != i.filename
    ensures !Field(i.name, AT, 31) ==> forall t: seq<byte> :: UnpackText(t, prev).name != i.name
    ensures !Field(i.ip, COLON, 15) ==> forall t: seq<byte> :: UnpackText(t, prev).ip != i.ip
  {
    Info(if |i.filename| == 0 then [ZERO] else [], if |i.name| == 0 then [ZERO] else [],
         if |i.ip| == 0 then [ZERO] else [], 0)
  }

  /** The strings survive the trip for every earlier content of the record exactly when they are transportable. */
  lemma InfoSurvivesExactly(i: Info)
    requires InBuffers(i)
    ensures (forall prev | InBuffers(prev) :: Copied(UnpackText(PackText(Copied(i)), prev)) == i) <==> Transportable(i)
  {
    hide UnpackText, PackText;
    CopiedWhole(i);
    PackTextFits(i);
    forall prev | InBuffers(prev)
      ensures Copied(UnpackText(PackText(Copied(i)), prev)) == UnpackText(PackText(i), prev)
    {
      UnpackStaysInBuffers(PackText(i), prev);
      CopiedWhole(UnpackText(PackText(i), prev));
    }
    if Transportable(i) {
      forall prev
        ensures UnpackText(PackText(i), prev) == i
      {
        RoundTrip(i, prev);
      }
    } else {
      assert UnpackText(PackText(i), Telltale(i)) != i;
    }
  }

  /**
   * The puller ends up with what the pusher meant, whatever its record held before, exactly when the strings survive
   * the text and the file size survives the chunk count.
   */
  lemma EndsAgreeExactly(sender: Host, receiver: Host, i: Info, size: u64, chsize: u16, rest: seq<byte>)
    requires chsize != 0 && InBuffers(i)
    ensures WellFormed(Hello(i, size, chsize)) && Hello(i, size, chsize).packet.crc == 0
    ensures PullBytes(receiver, SEND, Bytes(sender, Hello(i, size, chsize)) + rest)
         == Pulled(SUCCESS, Some(Hello(i, size, chsize)), rest)
    ensures (forall prev | InBuffers(prev) :: Adopt(Hello(i, size, chsize), prev) == Meant(i, size, chsize))
            <==> Transportable(i)
                 && (size / chsize < POW32 - 1
                     || ((size / chsize + 1) % POW32 == 0 && (size / chsize + 1) * chsize == POW64))
  {
    hide UnpackText, PackText, PullBytes, Bytes, Copied, Calc.ChunkCount, Calc.FileSize;
    PackTextFits(Copied(i));
    PullsWhatWasPushed(sender, receiver, Hello(i, size, chsize), rest);
    InfoSurvivesExactly(i);
    Calc.FileSizeInverse(size, chsize);
    assert InBuffers(Telltale(i));
  }
}
