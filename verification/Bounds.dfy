/** Every run is finite, with an explicit bound on its length and on the datagrams sent. */
module Bounds {
  import opened Types
  import opened Io
  import opened MFiles
  import opened Joint
  import opened Lockstep
  import Calc
  import P = PusherMachine
  import Q = PullerMachine

  // ---------- segments ----------

  /** Segments from byte `off` of a chunk to its end. */
  function SegmentsLeft(segsize: nat, len: nat, off: nat): nat
    requires segsize > 0
  {
    Calc.SegmentCount(if off < len then len - off else 0, segsize)
  }

  /** Datagrams in one attempt at chunk `k`. */
  function Segments(c: Params, k: u32): nat
    requires c.push.segsize > 0
  {
    Calc.SegmentCount(P.Len(c.push, k), c.push.segsize)
  }

  lemma OneSegmentLess(segsize: nat, len: nat, off: nat)
    requires segsize > 0
    ensures off < len ==>
              SegmentsLeft(segsize, len, off) == 1 + SegmentsLeft(segsize, len, off + Calc.SegmentAt(segsize, len, off))
    ensures off >= len ==> SegmentsLeft(segsize, len, off) == 0
  {
    hide Calc.SegmentCount;
    Calc.OneSegment(if off < len then len - off else 0, segsize);
  }

  /** Cost of `tries` attempts. */
  function Attempts(tries: nat, cost: nat): nat { tries * cost }

  lemma OneAttempt(tries: nat, cost: nat)
    requires tries > 0
    ensures Attempts(tries, cost) == cost + Attempts(tries - 1, cost)
  {
  }

  /** From chunk `k` to the last: a fixed cost per chunk and per attempt beside the segments, and one at the end. */
  function Work(c: Params, k: nat, tries: nat, perChunk: nat, perAttempt: nat, atEnd: nat): nat
    requires c.push.segsize > 0
    decreases POW32 - k
  {
    if k > c.push.chcount then atEnd
    else perChunk + Attempts(tries, Segments(c, k) + perAttempt) + Work(c, k + 1, tries, perChunk, perAttempt, atEnd)
  }

  /** What is left after the segments from `off` on of the current attempt. */
  function Later(c: Params, sequence: u32, left: int, tries: nat, perChunk: nat, perAttempt: nat, atEnd: nat): nat
    requires c.push.segsize > 0
  {
    (if left > 1 then Attempts(left - 1, Segments(c, sequence) + perAttempt) else 0)
    + Work(c, sequence + 1, tries, perChunk, perAttempt, atEnd)
  }

  // ---------- calls left ----------

  function PusherWork(c: Params, k: nat): nat requires c.push.segsize > 0 { Work(c, k, c.push.tries, 2, 1, 2) }

  function PusherLater(c: Params, p: P.State): nat requires c.push.segsize > 0 {
    Later(c, p.sequence, p.tries, c.push.tries, 2, 1, 2)
  }

  /** At most this many calls are left to the pusher. */
  function PusherCalls(c: Params, p: P.State): nat
    requires c.push.segsize > 0
  {
    if p.fault.Some? then 0
    else
      match p.pc
      case HsSend => 2 + PusherWork(c, 1)
      case HsRecv => 1 + PusherWork(c, 1)
      case FlowSend => 2 + Attempts(c.push.tries, Segments(c, p.sequence) + 1) + PusherWork(c, p.sequence + 1)
      case FlowRecv => 1 + Attempts(c.push.tries, Segments(c, p.sequence) + 1) + PusherWork(c, p.sequence + 1)
      case DataSend(off) => SegmentsLeft(c.push.segsize, p.len, off) + 1 + PusherLater(c, p)
      case DataRecv => 1 + PusherLater(c, p)
      case VfSend => 2
      case VfRecv => 1
      case Done(_) => 0
  }

  function PullerWork(c: Params, k: nat): nat requires c.push.segsize > 0 { Work(c, k, c.pull.tries, 2, 3, 2) }

  function PullerLater(c: Params, q: Q.State): nat requires c.push.segsize > 0 {
    Later(c, q.sequence, q.tries, c.pull.tries, 2, 3, 2)
  }

  /** At most this many calls are left to the puller. */
  function PullerCalls(c: Params, q: Q.State): nat
    requires c.push.segsize > 0
  {
    if q.fault.Some? then 0
    else
      match q.pc
      case HsWait => 2 + PullerWork(c, 1)
      case HsReply => 1 + PullerWork(c, 1)
      case FlowWait => 2 + Attempts(c.pull.tries, Segments(c, q.sequence) + 3) + PullerWork(c, q.sequence + 1)
      case FlowAck => 1 + Attempts(c.pull.tries, Segments(c, q.sequence) + 3) + PullerWork(c, q.sequence + 1)
      case BadFlow => 1
      case Prep => Segments(c, q.sequence) + 3 + PullerLater(c, q)
      case DataPull(off) => SegmentsLeft(c.push.segsize, q.len, off) + 2 + PullerLater(c, q)
      case Sync => 2 + PullerLater(c, q)
      case Verdict => 1 + PullerLater(c, q)
      case VfWait => 2
      case VfReply(_) => 1
      case Done(_) => 0
  }

  lemma FirstSegment(c: Params, k: u32)
    requires c.Valid() && 1 <= k <= c.push.chcount
    ensures c.push.segsize > 0 && Segments(c, k) == SegmentsLeft(c.push.segsize, P.Len(c.push, k), 0)
  {
    hide Calc.SegmentCount;
    c.push.Positive();
    Calc.OneSegment(0, c.push.segsize);
  }

  lemma PusherSendsProgress(c: Params, p: P.State)
    requires c.Valid() && PusherOk(c, p) && !P.Halted(p) && !P.Pulls(p.pc)
    ensures c.push.segsize > 0 && PusherCalls(c, P.Proceed(c.push, p)) < PusherCalls(c, p)
  {
    hide Calc.Offset, P.Conf.Valid, Attempts, Segments, SegmentsLeft, Work;
    c.push.Positive();
    if p.pc.DataSend? { OneSegmentLess(c.push.segsize, p.len, p.pc.off); }
  }

  lemma DataAnswerProgress(c: Params, p: P.State, ack: byte)
    requires c.Valid() && PusherOk(c, p) && !P.Halted(p) && p.pc.DataRecv?
    ensures c.push.segsize > 0 && PusherCalls(c, P.Answered(c.push, p, ack)) < PusherCalls(c, p)
  {
    hide Calc.Offset, Calc.ChunkLen, P.Conf.Valid, P.Start, P.Len, Attempts, Segments, SegmentsLeft;
    FirstSegment(c, p.sequence);
    c.push.Geometry(p.sequence);
    if p.tries > 1 {
      OneAttempt(p.tries - 1, Segments(c, p.sequence) + 1);
    }
  }

  lemma AnswersProgress(c: Params, p: P.State, ack: byte)
    requires c.Valid() && PusherOk(c, p) && !P.Halted(p) && P.Pulls(p.pc)
    requires p.pc.FlowRecv? ==> ack == 1
    ensures c.push.segsize > 0 && PusherCalls(c, P.Answered(c.push, p, ack)) < PusherCalls(c, p)
  {
    hide Calc.Offset, Calc.ChunkLen, P.Conf.Valid, P.Start, P.Len, Attempts, Segments, SegmentsLeft;
    c.push.Positive();
    if p.pc.DataRecv? {
      DataAnswerProgress(c, p, ack);
    } else if p.pc.FlowRecv? {
      FirstSegment(c, p.sequence);
      OneAttempt(c.push.tries, Segments(c, p.sequence) + 1);
    }
  }

  /** The answer to a FLOW packet is never a NACK, so no FLOW packet is repeated. */
  lemma PusherReadsProgress(c: Params, s: State)
    requires c.Valid() && Inv(c, s) && Enabled(s, PusherGo) && P.Pulls(s.p.pc)
    ensures c.push.segsize > 0 && PusherCalls(c, PusherNext(c, s).p) < PusherCalls(c, s.p)
  {
    hide Calc.Offset, P.Conf.Valid, PusherOk, PullerOk, Accepted, PusherCalls;
    AnswersProgress(c, s.p, s.up[0].ack);
  }

  /** Every successful call of the pusher leaves fewer to come. */
  lemma PusherProgress(c: Params, s: State)
    requires c.Valid() && Inv(c, s) && Enabled(s, PusherGo)
    ensures c.push.segsize > 0 && PusherCalls(c, PusherNext(c, s).p) < PusherCalls(c, s.p)
  {
    hide Calc.Offset, P.Conf.Valid, PullerOk, Accepted, PusherCalls, Together;
    if P.Pulls(s.p.pc) { PusherReadsProgress(c, s); } else { PusherSendsProgress(c, s.p); }
  }

  lemma VerdictProgress(c: Params, q: Q.State)
    requires c.Valid() && PullerOk(c, q) && !Q.Halted(q) && q.pc.Verdict?
    ensures c.push.segsize > 0 && PullerCalls(c, Q.Proceed(c.pull, q)) < PullerCalls(c, q)
  {
    hide Calc.Offset, P.Conf.Valid, Attempts, Segments, SegmentsLeft;
    FirstSegment(c, q.sequence);
    c.push.Geometry(q.sequence);
    if q.tries > 1 {
      OneAttempt(q.tries - 1, Segments(c, q.sequence) + 3);
    }
  }

  lemma PullerWorksProgress(c: Params, q: Q.State)
    requires c.Valid() && PullerOk(c, q) && !Q.Halted(q) && !Q.Pulls(q.pc) && !q.pc.DataPull? && !q.pc.Verdict?
    ensures c.push.segsize > 0 && PullerCalls(c, Q.Proceed(c.pull, q)) < PullerCalls(c, q)
  {
    hide Calc.Offset, P.Conf.Valid, Attempts, Segments, SegmentsLeft;
    c.push.Positive();
    if q.pc.FlowAck? || q.pc.Prep? {
      FirstSegment(c, q.sequence);
      OneAttempt(c.pull.tries, Segments(c, q.sequence) + 3);
    }
  }

  lemma PullerReadsProgress(c: Params, s: State, created: bool)
    requires c.Valid() && PullerOk(c, s.q) && Enabled(s, PullerGo(created)) && Q.Pulls(s.q.pc)
    ensures c.push.segsize > 0 && PullerCalls(c, PullerNext(c, s, created).q) < PullerCalls(c, s.q)
  {
    hide Calc.Offset, P.Conf.Valid, Attempts, Segments, Work;
    c.push.Positive();
  }

  lemma PullerReceivesProgress(c: Params, s: State, dgram: seq<byte>)
    requires c.Valid() && PullerOk(c, s.q) && Enabled(s, PullerGets(dgram))
    ensures c.push.segsize > 0 && PullerCalls(c, PullerReceives(c, s, dgram).q) < PullerCalls(c, s.q)
  {
    hide Calc.Offset, P.Conf.Valid, Attempts, Segments, SegmentsLeft, Work;
    c.push.Positive();
    OneSegmentLess(c.push.segsize, s.q.len, s.q.pc.off);
    assert Q.SegSize(s.q) == c.push.segsize;
  }

  /** At most this many calls are left to the two ends together. */
  function CallsLeft(c: Params, s: State): nat
    requires c.push.segsize > 0
  {
    PusherCalls(c, s.p) + PullerCalls(c, s.q)
  }

  lemma EveryActionCounts(c: Params, s: State, a: Action)
    requires c.Valid() && Inv(c, s) && Enabled(s, a)
    ensures c.push.segsize > 0 && CallsLeft(c, Next(c, s, a)) < CallsLeft(c, s)
  {
    hide Calc.Offset, P.Conf.Valid, PusherOk, Accepted, Together, PusherCalls, PullerCalls;
    c.push.Positive();
    match a
    case PusherGo => PusherProgress(c, s);
    case PullerGo(created) =>
      if Q.Pulls(s.q.pc) { PullerReadsProgress(c, s, created); }
      else if s.q.pc.Verdict? { VerdictProgress(c, s.q); }
      else { PullerWorksProgress(c, s.q); }
    case PullerGets(dgram) => PullerReceivesProgress(c, s, dgram);
    case PullerTakes => PullerReceivesProgress(c, s, s.net[0]);
    case PusherFails(st) => PusherFailureCounts(c, s.p, st);
    case PullerFails(st) => PullerFailureCounts(c, s.q, st);
  }

  lemma PusherFailureCounts(c: Params, p: P.State, st: IoStatus)
    requires c.push.segsize > 0 && !P.Halted(p)
    ensures PusherCalls(c, P.Step(c.push, p, Fault(st))) < PusherCalls(c, p)
  {
    hide Segments, Work, Attempts;
  }

  lemma PullerFailureCounts(c: Params, q: Q.State, st: IoStatus)
    requires c.push.segsize > 0 && !Q.Halted(q)
    ensures PullerCalls(c, Q.Step(c.pull, q, Fault(st))) < PullerCalls(c, q)
  {
    hide Segments, Work, Attempts;
  }

  /** No run is longer than the two calls before and after the chunks and the calls they can take. */
  lemma {:induction false} RunsAreFinite(c: Params, s: State, actions: seq<Action>)
    requires c.Valid() && Inv(c, s) && IsRun(c, s, actions)
    ensures c.push.segsize > 0 && |actions| + CallsLeft(c, Final(c, s, actions)) <= CallsLeft(c, s)
    decreases |actions|
  {
    hide Calc.Offset, P.Conf.Valid, Inv, CallsLeft;
    c.push.Positive();
    if |actions| > 0 {
      EveryActionCounts(c, s, actions[0]);
      InvKept(c, s, actions[0]);
      RunsAreFinite(c, Next(c, s, actions[0]), actions[1..]);
    }
  }

  // ---------- datagrams ----------

  /** Datagrams that carry each chunk from `k` on once. */
  function TotalSegments(c: Params, k: nat): nat
    requires c.push.segsize > 0
    decreases POW32 - k
  {
    if k > c.push.chcount then 0 else Segments(c, k) + TotalSegments(c, k + 1)
  }

  lemma {:induction false} WorkIsProduct(c: Params, k: nat, tries: nat)
    requires c.push.segsize > 0
    ensures Work(c, k, tries, 0, 0, 0) == tries * TotalSegments(c, k)
    decreases POW32 - k
  {
    hide Segments;
    if k <= c.push.chcount {
      WorkIsProduct(c, k + 1, tries);
      var later := TotalSegments(c, k + 1);
      assert tries * (Segments(c, k) + later) == tries * Segments(c, k) + tries * later;
    }
  }

  function DatagramsLater(c: Params, sequence: u32, left: int): nat requires c.push.segsize > 0 {
    Later(c, sequence, left, c.push.tries, 0, 0, 0)
  }

  /** At most this many datagrams are left to send. */
  function DatagramsLeft(c: Params, p: P.State): nat
    requires c.push.segsize > 0
  {
    match p.pc
    case HsSend => Work(c, 1, c.push.tries, 0, 0, 0)
    case HsRecv => Work(c, 1, c.push.tries, 0, 0, 0)
    case FlowSend => Attempts(c.push.tries, Segments(c, p.sequence)) + Work(c, p.sequence + 1, c.push.tries, 0, 0, 0)
    case FlowRecv => Attempts(c.push.tries, Segments(c, p.sequence)) + Work(c, p.sequence + 1, c.push.tries, 0, 0, 0)
    case DataSend(off) => SegmentsLeft(c.push.segsize, p.len, off) + DatagramsLater(c, p.sequence, p.tries)
    case DataRecv => DatagramsLater(c, p.sequence, p.tries)
    case _ => 0
  }

  lemma ReadingCostsNoDatagram(c: Params, p: P.State, ack: byte)
    requires c.Valid() && PusherOk(c, p) && P.Pulls(p.pc)
    requires (p.pc.FlowRecv? ==> p.len > 0 || !SeekAccepted(|c.push.file|, p.start))
    ensures c.push.segsize > 0 && DatagramsLeft(c, P.Answered(c.push, p, ack)) <= DatagramsLeft(c, p)
  {
    hide Calc.Offset, P.Conf.Valid, P.Start, P.Len, Attempts, Segments, SegmentsLeft;
    c.push.Positive();
    if 1 <= p.sequence <= c.push.chcount {
      FirstSegment(c, p.sequence);
      c.push.Geometry(p.sequence);
    }
    OneAttempt(c.push.tries, Segments(c, p.sequence));
    if p.tries > 1 {
      OneAttempt(p.tries - 1, Segments(c, p.sequence));
    }
  }

  lemma SendingCostsOneDatagram(c: Params, p: P.State)
    requires c.Valid() && PusherOk(c, p) && !P.Pulls(p.pc)
    ensures c.push.segsize > 0
    ensures |Joint.Datagrams(P.Emit(c.push, p))| + DatagramsLeft(c, P.Proceed(c.push, p)) <= DatagramsLeft(c, p)
  {
    hide Calc.Offset, P.Conf.Valid, Attempts, Segments, SegmentsLeft, Work;
    c.push.Positive();
    if p.pc.DataSend? { OneSegmentLess(c.push.segsize, p.len, p.pc.off); }
  }

  lemma ActionsKeepDatagramBound(c: Params, s: State, a: Action)
    requires c.Valid() && Inv(c, s) && Enabled(s, a)
    ensures c.push.segsize > 0
    ensures Next(c, s, a).sent + DatagramsLeft(c, Next(c, s, a).p) <= s.sent + DatagramsLeft(c, s.p)
  {
    hide Calc.Offset, P.Conf.Valid, PullerOk, Accepted, Together;
    c.push.Positive();
    if a.PusherGo? {
      if P.Pulls(s.p.pc) {
        if s.p.pc.FlowRecv? { c.push.Geometry(s.p.sequence); }
        if s.up[0].Recv? { ReadingCostsNoDatagram(c, s.p, s.up[0].ack); }
      } else {
        SendingCostsOneDatagram(c, s.p);
      }
    }
  }

  lemma {:induction false} DatagramsBoundedAlong(c: Params, s: State, actions: seq<Action>)
    requires c.Valid() && Inv(c, s) && IsRun(c, s, actions)
    ensures c.push.segsize > 0
    ensures Final(c, s, actions).sent + DatagramsLeft(c, Final(c, s, actions).p) <= s.sent + DatagramsLeft(c, s.p)
    decreases |actions|
  {
    hide Calc.Offset, P.Conf.Valid, Inv, DatagramsLeft;
    c.push.Positive();
    if |actions| > 0 {
      ActionsKeepDatagramBound(c, s, actions[0]);
      InvKept(c, s, actions[0]);
      DatagramsBoundedAlong(c, Next(c, s, actions[0]), actions[1..]);
    }
  }

  /** The pusher sends each chunk at most as often as it has tries, whatever happens. */
  lemma DatagramsBounded(c: Params, s: State)
    requires c.Valid() && Reachable(c, s)
    ensures c.push.segsize > 0 && s.sent <= c.push.tries * TotalSegments(c, 1)
  {
    hide Calc.Offset, P.Conf.Valid, Inv, Work, TotalSegments;
    InvInit(c);
    c.push.Positive();
    var actions: seq<Action> :| IsRun(c, Init(c), actions) && Final(c, Init(c), actions) == s;
    DatagramsBoundedAlong(c, Init(c), actions);
    WorkIsProduct(c, 1, c.push.tries);
  }

  /** Every run from the start ends within a number of calls that depends on the configuration only. */
  lemma EveryRunEnds(c: Params, actions: seq<Action>)
    requires c.Valid() && IsRun(c, Init(c), actions)
    ensures c.push.segsize > 0 && |actions| <= 4 + PusherWork(c, 1) + PullerWork(c, 1)
  {
    hide Calc.Offset, P.Conf.Valid, Inv, Work;
    InvInit(c);
    RunsAreFinite(c, Init(c), actions);
  }
}
