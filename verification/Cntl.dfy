/** source/cntl.c and the TCP half of source/net_stream.c: control messages on an ordered byte stream. */
module Cntl {
  import opened Types
  import opened Text
  import opened InfoStr
  import opened Wire

  /** One direction of the control connection: the bytes written and not yet read. */
  class Stream {
    var bytes: seq<byte>

    constructor ()
      ensures bytes == []
    {
      bytes := [];
    }

    /** `push_tcp_data` when `send` reports `accepted` bytes, or -1. */
    method PushTcpData(buf: array<byte>, accepted: int) returns (st: Status)
      requires -1 <= accepted <= buf.Length
      modifies this
      ensures st == if accepted == -1 then ERRSEND else if accepted < buf.Length then LOWSIZE else SUCCESS
      ensures bytes == old(bytes) + if accepted == -1 then [] else buf[..accepted]
    {
      if accepted == -1 { return ERRSEND; }
      bytes := bytes + buf[..accepted];
      if accepted < buf.Length { return LOWSIZE; }
      return SUCCESS;
    }

    /** `pull_tcp_data`: `recv` hands over what is there, up to `buf.Length` bytes; a peek consumes nothing. */
    method PullTcpData(buf: array<byte>, peek: bool) returns (st: Status)
      modifies this, buf
      ensures st == if |old(bytes)| < buf.Length then LOWSIZE else SUCCESS
      ensures st == SUCCESS ==> buf[..] == old(bytes)[..buf.Length]
      ensures bytes == if peek then old(bytes) else old(bytes)[Min(|old(bytes)|, buf.Length)..]
    {
      var n := Min(|bytes|, buf.Length);
      forall k | 0 <= k < n {
        buf[k] := bytes[k];
      }
      if !peek { bytes := bytes[n..]; }
      if n < buf.Length { return LOWSIZE; }
      return SUCCESS;
    }
  }

  // ---------- messages as values ----------

  predicate CarriesInfo(t: byte) { t == CAST || t == SEND }

  /** A packet and, for CAST and SEND, the text that follows it. */
  datatype Message = Message(packet: Packet, text: seq<byte>)

  predicate WellFormed(m: Message) {
    if CarriesInfo(TypeOf(m.packet)) then |m.text| < INFOSTRSIZE && NUL !in m.text else m.text == []
  }

  function Padded(text: seq<byte>): (b: seq<byte>)
    requires |text| < INFOSTRSIZE
    ensures |b| == INFOSTRSIZE
  {
    text + seq(INFOSTRSIZE - |text|, _ => NUL)
  }

  lemma ZerosPad(text: seq<byte>, zeros: seq<byte>)
    requires |text| < INFOSTRSIZE == |zeros| && forall k | 0 <= k < INFOSTRSIZE :: zeros[k] == NUL
    ensures text + [NUL] + zeros[|text| + 1..] == Padded(text)
  {
  }

  function Bytes(h: Host, m: Message): seq<byte>
    requires WellFormed(m)
  {
    Encode(h, m.packet) + if CarriesInfo(TypeOf(m.packet)) then Padded(m.text) else []
  }

  /** The outcome of one `pull_*_header` call and the bytes it leaves. */
  datatype Pulled = Pulled(st: Status, message: Option<Message>, rest: seq<byte>)

  /** What `pull_*_header` for type `t` makes of a stream; a type that differs is only peeked at. */
  function PullBytes(h: Host, t: byte, s: seq<byte>): Pulled
    requires KnownType(t)
  {
    if s == [] then Pulled(LOWSIZE, None, [])
    else if s[0] != t then Pulled(BADTYPE, None, s)
    else if |s| < SizeOf(t) then Pulled(LOWSIZE, None, [])
    else
      var packet := Decode(h, t, s[..SizeOf(t)]);
      var tail := s[SizeOf(t)..];
      if !CarriesInfo(t) then Pulled(SUCCESS, Some(Message(packet, [])), tail)
      else if |tail| < INFOSTRSIZE then Pulled(LOWSIZE, None, [])
      else Pulled(SUCCESS, Some(Message(packet, CStr(tail[..INFOSTRSIZE]))), tail[INFOSTRSIZE..])
  }

  // ---------- the calls ----------

  /** The result of `poll` before a call: ready, or the status the call returns at once. */
  predicate PollResult(st: Status) { st in {SUCCESS, FAILURE, TIMEOUT, ERRPOLL} }

  /** What a push returns: the status of `poll`, ERRSEND for -1, or LOWSIZE for fewer bytes than there are. */
  function PushStatus(poll: Status, accepted: int, size: nat): Status {
    if poll != SUCCESS then poll else if accepted == -1 then ERRSEND else if accepted < size then LOWSIZE else SUCCESS
  }

  /** How many bytes it leaves on the stream. */
  function PushCount(poll: Status, accepted: int): nat { if poll != SUCCESS || accepted < 0 then 0 else accepted }

  /** What the `push_*_header` functions do with the buffer they have filled: wait until it can be sent, and send it. */
  method PushImage(s: Stream, image: seq<byte>, poll: Status, accepted: int) returns (st: Status)
    requires PollResult(poll) && -1 <= accepted <= |image| && |image| > 0
    modifies s
    ensures st == PushStatus(poll, accepted, |image|)
    ensures s.bytes == old(s.bytes) + image[..PushCount(poll, accepted)]
    ensures st == SUCCESS ==> s.bytes == old(s.bytes) + image
  {
    var buf := new byte[|image|](i requires 0 <= i < |image| => image[i]);
    assert buf[..] == image;
    if poll != SUCCESS {
      assert s.bytes == old(s.bytes) + image[..0];
      return poll;
    }
    st := s.PushTcpData(buf, accepted);
    var n := if accepted == -1 then 0 else accepted;
    assert s.bytes == old(s.bytes) + image[..n];
    assert image[..|image|] == image;
  }

  /** `push_FLOW_header` and `push_RECV_header`. */
  method PushHeader(s: Stream, h: Host, packet: Packet, poll: Status, accepted: int) returns (st: Status)
    requires !CarriesInfo(TypeOf(packet)) && PollResult(poll) && -1 <= accepted <= SizeOf(TypeOf(packet))
    modifies s
    ensures st == SUCCESS <==> poll == SUCCESS && accepted == SizeOf(TypeOf(packet))
    ensures st == SUCCESS ==> s.bytes == old(s.bytes) + Bytes(h, Message(packet, []))
    ensures |Bytes(h, Message(packet, []))| == SizeOf(TypeOf(packet))
    ensures poll != SUCCESS ==> st == poll && s.bytes == old(s.bytes)
    ensures poll == SUCCESS && accepted == -1 ==> st == ERRSEND && s.bytes == old(s.bytes)
    ensures poll == SUCCESS && 0 <= accepted < SizeOf(TypeOf(packet)) ==>
              st == LOWSIZE && s.bytes == old(s.bytes) + Bytes(h, Message(packet, []))[..accepted]
  {
    var image := Encode(h, packet);
    assert Bytes(h, Message(packet, [])) == image;
    st := PushImage(s, image, poll, accepted);
  }

  /** `push_CAST_header` and `push_SEND_header`: the packet and the 320-byte text go out in one send. */
  method PushInfoHeader(s: Stream, h: Host, packet: Packet, info: CntlAddrs, poll: Status, accepted: int)
    returns (st: Status)
    requires CarriesInfo(TypeOf(packet)) && IsText(info.Printed())
    requires PollResult(poll) && -1 <= accepted <= SizeOf(TypeOf(packet)) + INFOSTRSIZE
    modifies s
    ensures WellFormed(Message(packet, PackText(info.Printed())))
    ensures st == SUCCESS <==> poll == SUCCESS && accepted == SizeOf(TypeOf(packet)) + INFOSTRSIZE
    ensures st == SUCCESS ==> s.bytes == old(s.bytes) + Bytes(h, Message(packet, PackText(info.Printed())))
    ensures |Bytes(h, Message(packet, PackText(info.Printed())))| == SizeOf(TypeOf(packet)) + INFOSTRSIZE
    ensures poll != SUCCESS ==> st == poll && s.bytes == old(s.bytes)
    ensures poll == SUCCESS && accepted == -1 ==> st == ERRSEND && s.bytes == old(s.bytes)
    ensures poll == SUCCESS && 0 <= accepted < SizeOf(TypeOf(packet)) + INFOSTRSIZE ==>
              st == LOWSIZE && s.bytes == old(s.bytes) + Bytes(h, Message(packet, PackText(info.Printed())))[..accepted]
  {
    hide PackText, Encode, IsText;
    var infostr := new byte[INFOSTRSIZE](_ => NUL);
    ghost var zeros := infostr[..];
    PackIntoInfostring(infostr, info);
    PackTextFits(info.Printed());
    ZerosPad(PackText(info.Printed()), zeros);
    var image := Encode(h, packet) + infostr[..];
    assert Bytes(h, Message(packet, PackText(info.Printed()))) == image;
    st := PushImage(s, image, poll, accepted);
  }

  /** `pull_FLOW_header` and `pull_RECV_header`. */
  method PullHeader(s: Stream, h: Host, t: byte, poll: Status) returns (st: Status, packet: Packet)
    requires t in {FLOW, RECV} && PollResult(poll)
    modifies s
    ensures poll != SUCCESS ==> st == poll && s.bytes == old(s.bytes)
    ensures poll == SUCCESS ==>
              var r := PullBytes(h, t, old(s.bytes));
              st == r.st && s.bytes == r.rest && (r.message.Some? ==> packet == r.message.value.packet)
  {
    packet := Recv(0, 0, 0);
    if poll != SUCCESS { return poll, packet; }
    ghost var all := s.bytes;
    var kind := new byte[1];
    st := s.PullTcpData(kind, true);
    if st != SUCCESS { return; }
    assert kind[..] == all[..1];
    if kind[0] != t { return BADTYPE, packet; }
    var buf := new byte[SizeOf(t)];
    st := s.PullTcpData(buf, false);
    if st != SUCCESS { return; }
    packet := Decode(h, t, buf[..]);
  }

  /** `pull_CAST_header` and `pull_SEND_header`. */
  method PullInfoHeader(s: Stream, h: Host, t: byte, info: CntlAddrs, poll: Status)
    returns (st: Status, packet: Packet)
    requires t in {CAST, SEND} && PollResult(poll)
    modifies s, info`filename, info`name, info`remoteIp, info`remotePort
    ensures poll != SUCCESS ==> st == poll && s.bytes == old(s.bytes) && info.Scanned() == old(info.Scanned())
    ensures poll == SUCCESS ==>
              var r := PullBytes(h, t, old(s.bytes));
              && st == r.st && s.bytes == r.rest
              && (r.message.Some? ==> packet == r.message.value.packet)
              && info.Scanned() == (if r.message.Some? then UnpackText(r.message.value.text, old(info.Scanned()))
                                    else old(info.Scanned()))
  {
    hide Decode, UnpackText, CStr;
    packet := Cast(0);
    if poll != SUCCESS { return poll, packet; }
    ghost var all := s.bytes;
    var kind := new byte[1];
    st := s.PullTcpData(kind, true);
    if st != SUCCESS { return; }
    assert kind[..] == all[..1];
    if kind[0] != t { return BADTYPE, packet; }
    var buf := new byte[SizeOf(t)];
    st := s.PullTcpData(buf, false);
    if st != SUCCESS { return; }
    var infostr := new byte[INFOSTRSIZE](_ => NUL);
    st := s.PullTcpData(infostr, false);
    if st != SUCCESS { return; }
    packet := Decode(h, t, buf[..]);
    UnpackFromInfostring(infostr, info);
  }

  // ---------- what a pull makes of any stream ----------

  /** The bytes of a message of type `t`. */
  function MessageSize(t: byte): nat {
    if t == 0x11 then 324 else if t == 0x33 then 332 else if t == 0x22 then 12 else 8
  }

  lemma MessageSizes(h: Host, m: Message)
    requires WellFormed(m)
    ensures |Bytes(h, m)| == MessageSize(TypeOf(m.packet))
  {
  }

  /**
   * A pull of type `t` finds another type and leaves it, finds too little and takes it all, or takes one message;
   * which one depends on the first byte and the length only.
   */
  lemma PullOutcomes(h: Host, t: byte, s: seq<byte>)
    requires t in {0x11, 0x22, 0x33, 0x44}
    ensures PullBytes(h, t, s).st == BADTYPE <==> |s| > 0 && s[0] != t
    ensures PullBytes(h, t, s).st == LOWSIZE <==> |s| == 0 || (s[0] == t && |s| < MessageSize(t))
    ensures PullBytes(h, t, s).st == SUCCESS <==> |s| >= MessageSize(t) && s[0] == t
    ensures PullBytes(h, t, s).message.Some? <==> PullBytes(h, t, s).st == SUCCESS
    ensures match PullBytes(h, t, s).st
            case BADTYPE => PullBytes(h, t, s).rest == s
            case LOWSIZE => PullBytes(h, t, s).rest == []
            case _ => PullBytes(h, t, s).rest == s[MessageSize(t)..]
  {
    hide Decode, CStr;
  }

  // ---------- a stream is read back as it was written ----------

  lemma PaddedText(text: seq<byte>)
    requires |text| < INFOSTRSIZE && NUL !in text
    ensures CStr(Padded(text)) == text
  {
    assert Padded(text)[..|text|] == text;
    CStrIs(Padded(text), |text|);
  }

  /** Pulling by the right type takes exactly the first message, whatever follows it and whichever hosts talk. */
  lemma PullsWhatWasPushed(sender: Host, receiver: Host, m: Message, rest: seq<byte>)
    requires WellFormed(m)
    ensures PullBytes(receiver, TypeOf(m.packet), Bytes(sender, m) + rest) == Pulled(SUCCESS, Some(m), rest)
  {
    var t := TypeOf(m.packet);
    var image := Encode(sender, m.packet);
    var s := Bytes(sender, m) + rest;
    assert s[0] == image[0];
    assert s[..SizeOf(t)] == image;
    PacketRoundTrip(sender, receiver, m.packet);
    if CarriesInfo(t) {
      PaddedText(m.text);
      assert s[SizeOf(t)..][..INFOSTRSIZE] == Padded(m.text);
      assert s[SizeOf(t)..][INFOSTRSIZE..] == rest;
    } else {
      assert s[SizeOf(t)..] == rest;
    }
  }

  /** Pulling by any other type fails with BADTYPE and leaves the whole stream for the next call. */
  lemma WrongTypeLeavesStream(sender: Host, receiver: Host, m: Message, rest: seq<byte>, t: byte)
    requires WellFormed(m) && KnownType(t) && t != TypeOf(m.packet)
    ensures PullBytes(receiver, t, Bytes(sender, m) + rest) == Pulled(BADTYPE, None, Bytes(sender, m) + rest)
  {
    assert (Bytes(sender, m) + rest)[0] == Encode(sender, m.packet)[0];
  }

  /** The bytes of a queue of messages, written back to back. */
  function StreamOf(h: Host, ms: seq<Message>): seq<byte>
    requires forall m | m in ms :: WellFormed(m)
  {
    if ms == [] then [] else Bytes(h, ms[0]) + StreamOf(h, ms[1..])
  }

  /** Reads one message per type in `ts`, stopping at the first failure. */
  function PullAll(h: Host, ts: seq<byte>, s: seq<byte>): (seq<Message>, seq<byte>)
    requires forall k | 0 <= k < |ts| :: KnownType(ts[k])
  {
    if ts == [] then ([], s)
    else
      var r := PullBytes(h, ts[0], s);
      if r.message.None? then ([], r.rest)
      else
        var (ms, rest) := PullAll(h, ts[1..], r.rest);
        ([r.message.value] + ms, rest)
  }

  function TypesOf(ms: seq<Message>): (ts: seq<byte>)
    ensures |ts| == |ms|
    ensures forall k | 0 <= k < |ms| :: ts[k] == TypeOf(ms[k].packet)
    ensures forall k | 0 <= k < |ts| :: KnownType(ts[k])
  {
    if ms == [] then [] else [TypeOf(ms[0].packet)] + TypesOf(ms[1..])
  }

  /** Pulling by the types of the messages at the front takes exactly those and leaves the bytes of the others. */
  lemma {:induction false} StreamPrefix(sender: Host, receiver: Host, ms: seq<Message>, more: seq<Message>)
    requires forall m | m in ms + more :: WellFormed(m)
    ensures PullAll(receiver, TypesOf(ms), StreamOf(sender, ms + more)) == (ms, StreamOf(sender, more))
  {
    if ms == [] {
      assert ms + more == more;
    } else {
      var all := ms + more;
      assert all[0] == ms[0] && all[1..] == ms[1..] + more;
      PullsWhatWasPushed(sender, receiver, ms[0], StreamOf(sender, all[1..]));
      assert TypesOf(ms)[1..] == TypesOf(ms[1..]);
      StreamPrefix(sender, receiver, ms[1..], more);
      assert [ms[0]] + ms[1..] == ms;
    }
  }

  /** Any messages written back to back come out as the same messages, with nothing left over. */
  lemma StreamRoundTrip(sender: Host, receiver: Host, ms: seq<Message>)
    requires forall m | m in ms :: WellFormed(m)
    ensures PullAll(receiver, TypesOf(ms), StreamOf(sender, ms)) == (ms, [])
  {
    assert ms + [] == ms;
    StreamPrefix(sender, receiver, ms, []);
  }

  /**
   * The byte stream is a FIFO of messages: pushing appends at the back, and pulling by type takes the head,
   * or reports BADTYPE and takes nothing. The joint protocol model works on such queues.
   */
  lemma StreamIsFifo(sender: Host, receiver: Host, ms: seq<Message>, m: Message, t: byte)
    requires WellFormed(m) && (forall x | x in ms :: WellFormed(x)) && KnownType(t)
    ensures StreamOf(sender, ms + [m]) == StreamOf(sender, ms) + Bytes(sender, m)
    ensures ms != [] && TypeOf(ms[0].packet) == t ==>
              PullBytes(receiver, t, StreamOf(sender, ms)) == Pulled(SUCCESS, Some(ms[0]), StreamOf(sender, ms[1..]))
    ensures ms != [] && TypeOf(ms[0].packet) != t ==>
              PullBytes(receiver, t, StreamOf(sender, ms)) == Pulled(BADTYPE, None, StreamOf(sender, ms))
  {
    StreamAppend(sender, ms, m);
    if ms != [] {
      var rest := StreamOf(sender, ms[1..]);
      if TypeOf(ms[0].packet) == t {
        PullsWhatWasPushed(sender, receiver, ms[0], rest);
      } else {
        WrongTypeLeavesStream(sender, receiver, ms[0], rest, t);
      }
    }
  }

  lemma {:induction false} StreamAppend(h: Host, ms: seq<Message>, m: Message)
    requires WellFormed(m) && forall x | x in ms :: WellFormed(x)
    ensures StreamOf(h, ms + [m]) == StreamOf(h, ms) + Bytes(h, m)
  {
    if ms == [] {
      assert (ms + [m])[1..] == [];
    } else {
      assert (ms + [m])[1..] == ms[1..] + [m];
      StreamAppend(h, ms[1..], m);
    }
  }
}
