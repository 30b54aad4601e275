/**
 * What each end says and concludes against any peer and network at all: every script of call outcomes, not only those
 * two ends running this code can produce.
 */
module Conduct {
  import opened Types
  import opened Wire
  import opened Io
  import opened Runs
  import opened MFiles
  import opened Joint
  import Calc
  import Local
  import P = PusherMachine
  import Q = PullerMachine

  // ---------- counting answers ----------

  /** The answers with ack 1. */
  function Ones(answers: seq<Packet>): nat {
    if |answers| == 0 then 0
    else Ones(answers[..|answers| - 1]) + (if IsOne(answers[|answers| - 1]) then 1 else 0)
  }

  /** The answers at the end that are anything else. */
  function Others(answers: seq<Packet>): nat {
    if |answers| == 0 || IsOne(answers[|answers| - 1]) then 0 else 1 + Others(answers[..|answers| - 1])
  }

  predicate IsOne(p: Packet) { p.Recv? && p.ack == 1 }

  lemma OneMore(answers: seq<Packet>, p: Packet)
    ensures Ones(answers + [p]) == Ones(answers) + (if IsOne(p) then 1 else 0)
    ensures Others(answers + [p]) == if IsOne(p) then 0 else Others(answers) + 1
    ensures Ones([]) == Others([]) == 0
  {
    assert (answers + [p])[..|answers|] == answers;
  }

  /** All packets but the first. */
  function Rest(packets: seq<Packet>): seq<Packet> { if |packets| == 0 then [] else packets[1..] }

  lemma RestGrows(packets: seq<Packet>, p: Packet)
    ensures |packets| > 0 ==> Rest(packets + [p]) == Rest(packets) + [p]
    ensures packets + [] == packets
  {
  }

  // ---------- the pusher ----------

  /** A FLOW packet that offers a chunk of the file. */
  ghost predicate Offers(c: P.Conf, p: Packet) {
    && p.Flow? && 1 <= p.sequence <= c.chcount
    && p.chunkSize == (if p.sequence < c.chcount then c.chsize else c.pchsize)
    && 0 <= (p.sequence - 1) * c.chsize
    && p.crc32 == c.crc32(Slice(c.file, (p.sequence - 1) * c.chsize, p.chunkSize))
  }

  /** The sizes with no checksum, then offers, then once `closed` the sizes with the CRC16 of the file. */
  ghost predicate Said(c: P.Conf, told: seq<Packet>, closed: bool) {
    && |told| >= (if closed then 2 else 1)
    && told[0] == Send(c.chsize, c.chcount, c.pchsize, 0)
    && (closed ==> told[|told| - 1] == Send(c.chsize, c.chcount, c.pchsize, c.crc16(c.file)))
    && forall k | 1 <= k < (if closed then |told| - 1 else |told|) :: Offers(c, told[k])
  }

  /** The handshake was answered with some ack but 0. */
  predicate Welcome(heard: seq<Packet>) { |heard| > 0 && heard[0].Recv? && heard[0].ack != 0 }

  /** On a chunk of this number with its start and length. */
  ghost predicate OnChunk(c: P.Conf, s: P.State) {
    1 <= s.sequence <= c.chcount && s.start == P.Start(c, s.sequence) && s.len == P.Len(c, s.sequence)
  }

  /** What the pusher has said and heard by the time it stands at `s`. */
  ghost predicate PusherStory(c: P.Conf, s: P.State, told: seq<Packet>, heard: seq<Packet>) {
    match s.pc
    case HsSend => told == [] && heard == []
    case HsRecv => Said(c, told, false) && heard == []
    case FlowSend =>
      && Said(c, told, false) && Welcome(heard) && OnChunk(c, s) && 0 < s.tries == c.tries - Others(Rest(heard))
      && Ones(Rest(heard)) == 2 * (s.sequence - 1)
    case FlowRecv =>
      && Said(c, told, false) && Welcome(heard) && OnChunk(c, s) && 0 < s.tries == c.tries - Others(Rest(heard))
      && Ones(Rest(heard)) == 2 * (s.sequence - 1)
    case DataSend(_) =>
      && Said(c, told, false) && Welcome(heard) && OnChunk(c, s) && 0 < s.tries == c.tries - Others(Rest(heard))
      && Ones(Rest(heard)) == 2 * s.sequence - 1 && s.len > 0
    case DataRecv =>
      && Said(c, told, false) && Welcome(heard) && OnChunk(c, s) && 0 < s.tries == c.tries - Others(Rest(heard))
      && Ones(Rest(heard)) == 2 * s.sequence - 1 && s.len > 0
    case VfSend => Said(c, told, false) && Welcome(heard) && Ones(Rest(heard)) == 2 * c.chcount
    case VfRecv => Said(c, told, true) && Welcome(heard) && Ones(Rest(heard)) == 2 * c.chcount
    case Done(st) => PusherEnd(c, st, told, heard)
  }

  /** What every status of the pusher's own means. */
  ghost predicate PusherEnd(c: P.Conf, st: Status, told: seq<Packet>, heard: seq<Packet>) {
    match st
    case SUCCESS =>
      && Said(c, told, true) && Welcome(heard) && |heard| >= 2
      && heard[|heard| - 1].Recv? && heard[|heard| - 1].ack != 0
      && Ones(heard[1..|heard| - 1]) == 2 * c.chcount
    case ZEROACK =>
      && |heard| > 0 && heard[|heard| - 1].Recv? && heard[|heard| - 1].ack == 0
      && if |heard| == 1 then Said(c, told, false)
         else Said(c, told, true) && Welcome(heard) && Ones(heard[1..|heard| - 1]) == 2 * c.chcount
    case EXPTRY0 =>
      && Said(c, told, false) && Welcome(heard) && Others(Rest(heard)) == c.tries
      && Ones(Rest(heard)) % 2 == 0 && Ones(Rest(heard)) < 2 * c.chcount
    case EXPTRY1 =>
      && Said(c, told, false) && Welcome(heard) && Others(Rest(heard)) == c.tries
      && Ones(Rest(heard)) % 2 == 1 && Ones(Rest(heard)) < 2 * c.chcount
    case EMFSEEK => Said(c, told, false) && Welcome(heard) && Ones(Rest(heard)) == 2 * c.chcount - 1 && c.pchsize == 0
    case BADTYPE => Said(c, told, false) || Said(c, told, true)
    case _ => false
  }

  function PusherHears(s: P.State, e: Event): seq<Packet> {
    if P.Pulls(s.pc) && e.Ok? && e.packet.Recv? then [e.packet] else []
  }

  function PusherTells(c: P.Conf, s: P.State, e: Event): seq<Packet> { if e.Ok? then Controls(P.Emit(c, s)) else [] }

  lemma OffersItsChunk(c: P.Conf, s: P.State)
    requires c.Valid() && OnChunk(c, s)
    ensures Offers(c, P.Offer(c, s))
  {
    hide Calc.Offset;
    c.Derived();
    Calc.StartExact(|c.file|, c.chsize, s.sequence);
  }

  lemma PusherSends(c: P.Conf, s: P.State, told: seq<Packet>, heard: seq<Packet>)
    requires c.Valid() && PusherStory(c, s, told, heard) && !P.Halted(s) && !P.Pulls(s.pc)
    ensures PusherStory(c, P.Proceed(c, s), told + Controls(P.Emit(c, s)), heard)
  {
    hide Calc.Offset, P.Conf.Valid, Ones, Others, Offers;
    if s.pc.FlowSend? { OffersItsChunk(c, s); }
  }

  lemma HandshakeHeard(c: P.Conf, s: P.State, told: seq<Packet>, p: Packet)
    requires c.Valid() && PusherStory(c, s, told, []) && s.pc.HsRecv? && p.Recv?
    ensures PusherStory(c, P.Answered(c, s, p.ack), told, [p])
  {
    hide Calc.Offset, P.Conf.Valid, Ones, Others, Said;
    c.Positive();
    OneMore([], p);
    assert Rest([p]) == [];
  }

  lemma ChunkHeard(c: P.Conf, s: P.State, told: seq<Packet>, heard: seq<Packet>, p: Packet)
    requires c.Valid() && PusherStory(c, s, told, heard) && (s.pc.FlowRecv? || s.pc.DataRecv?) && p.Recv?
    ensures PusherStory(c, P.Answered(c, s, p.ack), told, heard + [p])
  {
    hide Calc.Offset, P.Conf.Valid, Ones, Others, Said, Rest;
    c.Positive();
    OneMore(Rest(heard), p);
    RestGrows(heard, p);
    c.Geometry(s.sequence);
    assert Welcome(heard + [p]);
  }

  lemma VerificationHeard(c: P.Conf, s: P.State, told: seq<Packet>, heard: seq<Packet>, p: Packet)
    requires PusherStory(c, s, told, heard) && s.pc.VfRecv? && p.Recv?
    ensures PusherStory(c, P.Answered(c, s, p.ack), told, heard + [p])
  {
    hide Ones, Others, Said;
    var more := heard + [p];
    assert more[1..|more| - 1] == Rest(heard) && more[|more| - 1] == p && Welcome(more);
  }

  lemma PusherReads(c: P.Conf, s: P.State, told: seq<Packet>, heard: seq<Packet>, p: Packet)
    requires c.Valid() && PusherStory(c, s, told, heard) && P.Pulls(s.pc) && p.Recv?
    ensures PusherStory(c, P.Answered(c, s, p.ack), told, heard + [p])
  {
    hide P.Conf.Valid, P.Answered, Ones, Others, Said;
    if s.pc.HsRecv? {
      assert heard + [p] == [p];
      HandshakeHeard(c, s, told, p);
    } else if s.pc.VfRecv? {
      VerificationHeard(c, s, told, heard, p);
    } else {
      ChunkHeard(c, s, told, heard, p);
    }
  }

  lemma PusherSteps(c: P.Conf, s: P.State, told: seq<Packet>, heard: seq<Packet>, e: Event)
    requires c.Valid() && PusherStory(c, s, told, heard) && !P.Halted(s)
    ensures PusherStory(c, P.Step(c, s, e), told + PusherTells(c, s, e), heard + PusherHears(s, e))
  {
    hide P.Conf.Valid, Said, Ones, Others, P.Proceed, P.Answered;
    assert told + [] == told && heard + [] == heard;
    if e.Ok? {
      if !P.Pulls(s.pc) {
        PusherSends(c, s, told, heard);
      } else {
        assert PusherTells(c, s, e) == [];
        if e.packet.Recv? { PusherReads(c, s, told, heard, e.packet); }
      }
    }
  }

  lemma {:induction false} PacketsAppend(log: seq<Out>, out: seq<Out>)
    requires |out| <= 1
    ensures Local.Packets(log + out) == Local.Packets(log) + Controls(out)
  {
    if |log| == 0 {
      assert log + out == out + [];
      Local.LogSplits(out, []);
    } else {
      assert log + out == log[..1] + (log[1..] + out) && log == log[..1] + log[1..];
      Local.LogSplits(log[..1], log[1..] + out);
      Local.LogSplits(log[..1], log[1..]);
      PacketsAppend(log[1..], out);
    }
  }

  lemma PusherTellsMore(c: P.Conf, r: Run<P.State>, e: Event)
    ensures Local.Packets(P.After(c, r, e).log) == Local.Packets(r.log) + PusherTells(c, r.s, e)
  {
    PacketsAppend(r.log, if e.Ok? then P.Emit(c, r.s) else []);
    assert r.log + [] == r.log;
  }

  lemma {:induction false} PusherStoryAlong(c: P.Conf, r: Run<P.State>, heard: seq<Packet>, script: seq<Event>, at: nat)
    requires c.Valid() && PusherStory(c, r.s, Local.Packets(r.log), heard)
    ensures var last := Exec(P.Sender(c), r, script, at);
            PusherStory(c, last.s, Local.Packets(last.log), heard + Local.PusherPulled(c, r.s, script, at))
    decreases |script| - at
  {
    hide P.Conf.Valid, PusherStory, P.Step, Exec, Local.Packets, P.Emit;
    ExecUnfolds(P.Sender(c), r, script, at);
    var e := EventAt(script, at);
    if P.Halted(r.s) {
      assert heard + [] == heard;
    } else {
      PusherSteps(c, r.s, Local.Packets(r.log), heard, e);
      PusherTellsMore(c, r, e);
      if at < |script| {
        PusherStoryAlong(c, P.After(c, r, e), heard + PusherHears(r.s, e), script, at + 1);
        assert heard + (PusherHears(r.s, e) + Local.PusherPulled(c, P.Step(c, r.s, e), script, at + 1))
               == (heard + PusherHears(r.s, e)) + Local.PusherPulled(c, P.Step(c, r.s, e), script, at + 1);
      } else {
        assert PusherHears(r.s, e) == [];
      }
    }
  }

  /** The run of the pusher's loops against a script, and the answers they pull in it. */
  function PusherRun(c: P.Conf, script: seq<Event>): Run<P.State> {
    Exec(P.Sender(c), Run(P.Init(c), []), script, 0)
  }

  function PusherHeard(c: P.Conf, script: seq<Event>): seq<Packet> { Local.PusherPulled(c, P.Init(c), script, 0) }

  lemma PusherConduct(c: P.Conf, script: seq<Event>)
    requires c.Valid()
    ensures PusherStory(c, PusherRun(c, script).s, Local.Packets(PusherRun(c, script).log), PusherHeard(c, script))
  {
    hide P.Conf.Valid, Exec;
    PusherStoryAlong(c, Run(P.Init(c), []), [], script, 0);
    assert [] + PusherHeard(c, script) == PusherHeard(c, script);
  }

  /** Against any peer: which answers each status of the pusher's own has been given for. */
  lemma PusherStatuses(c: P.Conf, script: seq<Event>)
    requires c.Valid() && PusherRun(c, script).s.fault.None?
    ensures PusherRun(c, script).s.pc.Done?
    ensures var run := PusherRun(c, script);
            PusherEnd(c, run.s.pc.st, Local.Packets(run.log), PusherHeard(c, script))
  {
    hide P.Conf.Valid, Exec, PusherEnd;
    PusherConduct(c, script);
    P.SenderStops(c);
  }

  /**
   * Against any peer: every SEND packet of the pusher carries its sizes, with no checksum in the first packet of the
   * run, and with the CRC16 of the file in the last; everything between offers a chunk.
   */
  lemma PusherPackets(c: P.Conf, script: seq<Event>)
    requires c.Valid()
    ensures var told := Local.Packets(PusherRun(c, script).log);
            && (forall k | 0 <= k < |told| && told[k].Send? ::
                  && told[k].chsize == c.chsize && told[k].chcount == c.chcount && told[k].pchsize == c.pchsize
                  && told[k].crc == (if k == 0 then 0 else c.crc16(c.file)) && (k == 0 || k == |told| - 1))
            && (forall k | 0 <= k < |told| && !told[k].Send? :: k > 0 && Offers(c, told[k]))
  {
    hide P.Conf.Valid, Exec, Ones, Others, Slice;
    PusherConduct(c, script);
    var run := PusherRun(c, script);
    SaidShape(c, run.s, Local.Packets(run.log), PusherHeard(c, script));
  }

  lemma SaidShape(c: P.Conf, s: P.State, told: seq<Packet>, heard: seq<Packet>)
    requires PusherStory(c, s, told, heard)
    ensures told == [] || Said(c, told, false) || Said(c, told, true)
  {
    hide Said, Ones, Others;
  }
}
