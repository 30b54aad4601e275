/** Runs over a network that loses nothing, with no failing call: both ends always finish, with the same file. */
module Faithful {
  import opened Types
  import opened MFiles
  import opened Joint
  import opened Lockstep
  import opened Endings
  import Bounds
  import Calc
  import Safety
  import P = PusherMachine
  import Q = PullerMachine

  /** The calls that succeed, with the oldest datagram in flight as the next one to arrive. */
  predicate FaithfulAction(a: Action) { a == PusherGo || a == PullerGo(true) || a == PullerTakes }

  ghost predicate FaithfulRun(c: Params, s: State, actions: seq<Action>) {
    IsRun(c, s, actions) && forall k | 0 <= k < |actions| :: FaithfulAction(actions[k])
  }

  // ---------- the datagrams in flight ----------

  /** The datagram that carries byte `off` of a chunk and what follows it. */
  function Segment(c: Params, start: nat, len: nat, off: nat): seq<byte> {
    Slice(c.push.file, start + off, Calc.SegmentAt(c.push.segsize, len, off))
  }

  /** `net` holds the datagrams of a chunk from byte `from` up to byte `to`, in order. */
  ghost predicate Flight(c: Params, start: nat, len: nat, net: seq<seq<byte>>, from: nat, to: nat)
    decreases |net|
  {
    if |net| == 0 then from == to
    else
      && from < to && from < len && net[0] == Segment(c, start, len, from)
      && Flight(c, start, len, net[1..], from + Calc.SegmentAt(c.push.segsize, len, from), to)
  }

  lemma {:induction false} FlightAppend(c: Params, start: nat, len: nat, net: seq<seq<byte>>, from: nat, to: nat)
    requires Flight(c, start, len, net, from, to) && to < len && c.push.segsize > 0
    ensures Flight(c, start, len, net + [Segment(c, start, len, to)], from,
                   to + Calc.SegmentAt(c.push.segsize, len, to))
    decreases |net|
  {
    var more := net + [Segment(c, start, len, to)];
    if |net| == 0 {
      assert more[1..] == [];
    } else {
      FlightAppend(c, start, len, net[1..], from + Calc.SegmentAt(c.push.segsize, len, from), to);
      assert more[1..] == net[1..] + [Segment(c, start, len, to)];
    }
  }

  lemma {:induction false} FlightOrdered(c: Params, start: nat, len: nat, net: seq<seq<byte>>, from: nat, to: nat)
    requires Flight(c, start, len, net, from, to)
    ensures from <= to && (from == to <==> |net| == 0)
  {
  }

  // ---------- the invariant ----------

  /** How much of its chunk the puller has written. */
  function Written(q: Q.State): nat {
    match q.pc
    case DataPull(off) => off
    case Sync => q.len
    case Verdict => q.len
    case _ => 0
  }

  /** How much of its file the puller has. */
  function Received(c: Params, q: Q.State): nat {
    if InData(q.pc) then q.start + Written(q) else Safety.Before(c, q.sequence)
  }

  /** Everything the pusher has sent of the current chunk is in the puller's file or on its way. */
  ghost predicate InTransit(c: Params, s: State) {
    match s.p.pc
    case FlowRecv => s.net == [] && Written(s.q) == 0 && s.q.sequence == s.p.sequence
    case DataSend(off) =>
      InData(s.q.pc) && s.q.sequence == s.p.sequence && Flight(c, s.p.start, s.p.len, s.net, Written(s.q), off)
    case DataRecv =>
      if s.q.sequence == s.p.sequence then Flight(c, s.p.start, s.p.len, s.net, Written(s.q), s.p.len)
      else s.net == [] && s.up == [Ack(s.p.sequence)]
    case _ => s.net == []
  }

  ghost predicate NoneFailed(c: Params, s: State) {
    && s.p.fault.None? && s.q.fault.None?
    && (s.p.pc.DataSend? || s.p.pc.DataRecv? ==> s.p.tries == c.push.tries)
    && (InData(s.q.pc) ==> s.q.tries == c.pull.tries)
    && s.q.pc != Q.Done(EXPTRY0) && s.p.pc != P.Done(EXPTRY1) && s.p.pc != P.Done(ZEROACK)
    && (!s.q.pc.HsWait? ==> |s.q.file| > 0 && Safety.Agrees(c, s.q.file, Received(c, s.q)))
  }

  ghost predicate Lossless(c: Params, s: State) { Inv(c, s) && InTransit(c, s) && NoneFailed(c, s) }

  lemma LosslessInit(c: Params)
    requires c.Valid()
    ensures Lossless(c, Init(c))
  {
    InvInit(c);
  }

  // ---------- every step keeps it ----------

  lemma PusherSendsLossless(c: Params, s: State)
    requires c.Valid() && Lossless(c, s) && Enabled(s, PusherGo) && !P.Pulls(s.p.pc)
    ensures InTransit(c, PusherNext(c, s)) && NoneFailed(c, PusherNext(c, s))
  {
    hide Calc.Offset, P.Conf.Valid, Accepted, Safety.Before, Safety.Agrees, PullerOk;
    c.push.Positive();
    if s.p.pc.DataSend? {
      FlightAppend(c, s.p.start, s.p.len, s.net, Written(s.q), s.p.pc.off);
    }
  }

  /** After the last chunk the two files are the same. */
  lemma WholeFile(c: Params, s: State)
    requires c.Valid() && Lossless(c, s) && (s.q.pc.VfWait? || s.q.pc.VfReply? || s.q.pc == Q.Done(SUCCESS))
    ensures s.q.file == c.push.file
  {
    hide Calc.Offset, Accepted, Together, PusherOk;
    c.push.Positive();
    assert s.q.file[..|c.push.file|] == s.q.file;
  }

  lemma PusherReadsLossless(c: Params, s: State)
    requires c.Valid() && Lossless(c, s) && Enabled(s, PusherGo) && P.Pulls(s.p.pc)
    ensures InTransit(c, PusherNext(c, s)) && NoneFailed(c, PusherNext(c, s))
  {
    hide Calc.Offset, P.Conf.Valid, Accepted, Safety.Before, Safety.Agrees;
    c.push.Positive();
    if s.p.pc.FlowRecv? {
      c.push.Geometry(s.p.sequence);
    } else if s.p.pc.VfRecv? && s.q.pc == Q.Done(SUCCESS) {
      WholeFile(c, s);
    }
  }

  lemma PullerGreetsLossless(c: Params, s: State)
    requires c.Valid() && Lossless(c, s) && Enabled(s, PullerGo(true)) && (s.q.pc.HsWait? || s.q.pc.HsReply?)
    ensures InTransit(c, PullerNext(c, s, true)) && NoneFailed(c, PullerNext(c, s, true))
  {
    hide Calc.Offset, P.Conf.Valid, Accepted, Safety.Before, PusherOk;
    c.push.Positive();
    Safety.BeforeMonotone(c, 0, 1);
    if s.q.pc.HsWait? {
      FileIsMade(c, s);
    }
  }

  /** The size computed from the SEND packet is the size of the pusher's file. */
  lemma FileIsMade(c: Params, s: State)
    requires c.Valid() && Inv(c, s) && Enabled(s, PullerGo(true)) && s.q.pc.HsWait?
    ensures |PullerNext(c, s, true).q.file| == |c.push.file|
  {
    hide Calc.Offset, Accepted;
    c.push.Derived();
    Calc.FileSizeInverse(|c.push.file|, c.push.chsize);
  }

  lemma PullerMovesLossless(c: Params, s: State)
    requires c.Valid() && Lossless(c, s) && Enabled(s, PullerGo(true))
    requires !s.q.pc.HsWait? && !s.q.pc.HsReply? && !s.q.pc.FlowAck? && !s.q.pc.Verdict?
    ensures InTransit(c, PullerNext(c, s, true)) && NoneFailed(c, PullerNext(c, s, true))
  {
    hide Calc.Offset, P.Conf.Valid, Accepted, Safety.Before, Safety.Agrees, PusherOk, Flight, Slice;
    c.push.Positive();
  }

  lemma PullerStartsLossless(c: Params, s: State)
    requires c.Valid() && Lossless(c, s) && Enabled(s, PullerGo(true)) && s.q.pc.FlowAck?
    ensures InTransit(c, PullerNext(c, s, true)) && NoneFailed(c, PullerNext(c, s, true))
  {
    hide Calc.Offset, P.Conf.Valid, Accepted, Safety.Before, Safety.Agrees;
    c.push.Geometry(s.q.sequence);
    Safety.BeforeIsStart(c, s.q.sequence);
  }

  /** The chunk is complete and correct when the puller checks it. */
  lemma VerdictLossless(c: Params, s: State)
    requires c.Valid() && Lossless(c, s) && Enabled(s, PullerGo(true)) && s.q.pc.Verdict?
    ensures InTransit(c, PullerNext(c, s, true)) && NoneFailed(c, PullerNext(c, s, true))
  {
    hide Calc.Offset, P.Conf.Valid, Accepted, Safety.Before, Safety.Agrees;
    c.push.Geometry(s.q.sequence);
    Safety.BeforeStep(c, s.q.sequence);
    Safety.AgreesFurther(c, s.q.file, s.q.start + s.q.len, s.q.start, s.q.len);
    assert Q.ChunkMatches(c.pull, s.q);
    if s.p.pc.DataRecv? {
      FlightOrdered(c, s.p.start, s.p.len, s.net, s.q.len, s.p.len);
    }
  }

  /** The next datagram is the next segment of the chunk. */
  lemma TakingInTransit(c: Params, s: State)
    requires c.Valid() && Lossless(c, s) && Enabled(s, PullerTakes)
    ensures InTransit(c, Next(c, s, PullerTakes))
    ensures s.net[0] == Segment(c, s.q.start, s.q.len, Written(s.q))
  {
    hide Calc.Offset, P.Conf.Valid, Accepted, Safety.Before, Safety.Agrees;
    c.push.Geometry(s.q.sequence);
    c.push.Positive();
  }

  /** Writing the right bytes where the agreement ends makes it reach further. */
  lemma WriteAgrees(c: Params, file: seq<byte>, at: nat, data: seq<byte>)
    requires Safety.Agrees(c, file, at) && |file| == |c.push.file| && at + |data| <= |file|
    requires data == c.push.file[at..at + |data|]
    ensures Safety.Agrees(c, WriteAt(file, at, data), at + |data|)
  {
    var n := at + |data|;
    assert forall i | 0 <= i < at :: file[..at][i] == c.push.file[..at][i];
    assert forall i | 0 <= i < n :: WriteAt(file, at, data)[i] == c.push.file[i];
  }

  lemma TakingLossless(c: Params, s: State)
    requires c.Valid() && Lossless(c, s) && Enabled(s, PullerTakes)
    ensures InTransit(c, Next(c, s, PullerTakes)) && NoneFailed(c, Next(c, s, PullerTakes))
  {
    hide Calc.Offset, P.Conf.Valid, Accepted, Safety.Before, Safety.Agrees, InTransit, Together;
    TakingInTransit(c, s);
    c.push.Geometry(s.q.sequence);
    c.push.Positive();
    WriteAgrees(c, s.q.file, s.q.start + Written(s.q), s.net[0]);
    var n := Calc.SegmentAt(Q.SegSize(s.q), s.q.len, s.q.pc.off);
    assert s.net[0][..n] == s.net[0];
  }

  lemma LosslessKept(c: Params, s: State, a: Action)
    requires c.Valid() && Lossless(c, s) && Enabled(s, a) && FaithfulAction(a)
    ensures Lossless(c, Next(c, s, a))
  {
    hide Calc.Offset, P.Conf.Valid, Inv, InTransit, NoneFailed;
    InvKept(c, s, a);
    if a.PullerTakes? { TakingLossless(c, s); }
    else if a.PusherGo? {
      if P.Pulls(s.p.pc) { PusherReadsLossless(c, s); } else { PusherSendsLossless(c, s); }
    }
    else if s.q.pc.HsWait? || s.q.pc.HsReply? { PullerGreetsLossless(c, s); }
    else if s.q.pc.FlowAck? { PullerStartsLossless(c, s); }
    else if s.q.pc.Verdict? { VerdictLossless(c, s); }
    else { PullerMovesLossless(c, s); }
  }

  lemma {:induction false} LosslessAlong(c: Params, s: State, actions: seq<Action>)
    requires c.Valid() && Lossless(c, s) && FaithfulRun(c, s, actions)
    ensures Lossless(c, Final(c, s, actions))
    decreases |actions|
  {
    hide Calc.Offset, P.Conf.Valid, Lossless;
    if |actions| > 0 {
      LosslessKept(c, s, actions[0]);
      LosslessAlong(c, Next(c, s, actions[0]), actions[1..]);
    }
  }

  // ---------- how such runs end ----------

  /** No end can make a call that succeeds. */
  ghost predicate Stuck(s: State) { forall a: Action :: FaithfulAction(a) ==> !Enabled(s, a) }

  /** Both ends are done: with SUCCESS and the same file, or refusing an empty last chunk. */
  ghost predicate Delivered(c: Params, s: State)
    requires c.push.chsize != 0
  {
    if |c.push.file| % c.push.chsize != 0 then Ended(s, SUCCESS, SUCCESS) && s.q.file == c.push.file
    else Ended(s, EMFSEEK, EMFSEEK)
  }

  /** There is no deadlock: as long as an end is not done, one of them can make a call that succeeds. */
  lemma StuckIsDone(c: Params, s: State)
    requires c.Valid() && Lossless(c, s) && Stuck(s)
    ensures Ended(s, SUCCESS, SUCCESS) || Ended(s, EMFSEEK, EMFSEEK)
  {
    hide Calc.Offset, P.Conf.Valid, Accepted;
    assert !Enabled(s, PusherGo) && !Enabled(s, PullerGo(true)) && !Enabled(s, PullerTakes);
    if InData(s.q.pc) && s.p.pc.DataRecv? {
      FlightOrdered(c, s.p.start, s.p.len, s.net, Written(s.q), s.p.len);
    }
  }

  lemma StuckIsDelivered(c: Params, s: State)
    requires c.Valid() && Lossless(c, s) && Stuck(s)
    ensures c.push.chsize != 0 && Delivered(c, s)
  {
    hide Calc.Offset, Accepted, InTransit, NoneFailed, Stuck;
    StuckIsDone(c, s);
    c.push.Derived();
    if Ended(s, SUCCESS, SUCCESS) {
      WholeFile(c, s);
    } else {
      c.push.Geometry(s.p.sequence);
    }
  }

  /**
   * Every faithful run is finite, and one that cannot go on has delivered the file, whatever the order in which
   * the ends took their turns and whatever the checksums are.
   */
  lemma FaithfulRunsDeliver(c: Params, actions: seq<Action>)
    requires c.Valid() && FaithfulRun(c, Init(c), actions)
    ensures c.push.segsize > 0 && |actions| <= 4 + Bounds.PusherWork(c, 1) + Bounds.PullerWork(c, 1)
    ensures Stuck(Final(c, Init(c), actions)) ==> c.push.chsize != 0 && Delivered(c, Final(c, Init(c), actions))
  {
    hide Calc.Offset, P.Conf.Valid, Lossless, Stuck;
    Bounds.EveryRunEnds(c, actions);
    LosslessInit(c);
    LosslessAlong(c, Init(c), actions);
    if Stuck(Final(c, Init(c), actions)) {
      StuckIsDelivered(c, Final(c, Init(c), actions));
    }
  }

  /** Any faithful run can be continued until the file is delivered. */
  lemma {:induction false} DeliveryIsReached(c: Params, s: State) returns (actions: seq<Action>)
    requires c.Valid() && Lossless(c, s) && c.push.segsize > 0
    ensures FaithfulRun(c, s, actions) && c.push.chsize != 0 && Delivered(c, Final(c, s, actions))
    decreases Bounds.CallsLeft(c, s)
  {
    hide Calc.Offset, P.Conf.Valid, InTransit, NoneFailed, Inv, Delivered;
    if Stuck(s) {
      StuckIsDelivered(c, s);
      actions := [];
    } else {
      var a: Action :| FaithfulAction(a) && Enabled(s, a);
      LosslessKept(c, s, a);
      Bounds.EveryActionCounts(c, s, a);
      var rest := DeliveryIsReached(c, Next(c, s, a));
      actions := [a] + rest;
      assert actions[1..] == rest;
    }
  }
}
