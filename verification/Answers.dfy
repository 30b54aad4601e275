/** How many NACKs a chunk gets: over whole runs, both ends' try counters count the NACKs sent and read. */
module Answers {
  import opened Types
  import opened Wire
  import opened Joint
  import opened Lockstep
  import Calc
  import Endings
  import Local
  import P = PusherMachine
  import Q = PullerMachine

  /** The attempts at chunk `k` that an end has seen fail. */
  function Refused(c: Params, q: Q.State, k: u32): int { if q.sequence == k then c.pull.tries - q.tries else 0 }

  function Retried(c: Params, p: P.State, k: u32): int { if p.sequence == k then c.push.tries - p.tries else 0 }

  /** The NACKs of chunk `k` among some packets. */
  function Nacks(packets: seq<Packet>, k: u32): nat { multiset(packets)[Nack(k)] }

  lemma NacksSplit(first: seq<Packet>, rest: seq<Packet>, k: u32)
    ensures Nacks(first + rest, k) == Nacks(first, k) + Nacks(rest, k)
  {
  }

  lemma NacksInOne(x: Packet, k: u32)
    ensures Nacks([], k) == 0 && Nacks([x], k) == if x == Nack(k) then 1 else 0
  {
  }

  lemma VerdictCounts(c: Params, q: Q.State, k: u32)
    requires c.Valid() && PullerOk(c, q) && q.pc.Verdict? && 1 <= k <= c.push.chcount
    ensures var next := Q.Proceed(c.pull, q);
            && q.sequence <= next.sequence
            && (next.sequence <= k ==>
                  Refused(c, q, k) + Nacks(Controls(Q.Emit(c.pull, q)), k) == Refused(c, next, k))
  {
    hide Calc.Offset, P.Conf.Valid, Nacks, Q.ChunkMatches;
    c.push.Geometry(q.sequence);
    NacksInOne(Q.Emit(c.pull, q)[0].packet, k);
  }

  lemma OtherCallsCount(c: Params, s: State, created: bool, k: u32)
    requires c.Valid() && PullerOk(c, s.q) && Enabled(s, PullerGo(created)) && !s.q.pc.Verdict?
    requires 1 <= k <= c.push.chcount
    ensures var next := PullerNext(c, s, created).q;
            && s.q.sequence <= next.sequence
            && (next.sequence <= k ==>
                  Refused(c, s.q, k) + Nacks(Controls(Q.Emit(c.pull, s.q)), k) == Refused(c, next, k))
  {
    hide Calc.Offset, P.Conf.Valid, Nacks;
    c.push.Positive();
    var sent := Controls(Q.Emit(c.pull, s.q));
    NacksInOne(if |sent| > 0 then sent[0] else Ack(0), k);
  }

  /** Each NACK the puller sends for a chunk is one try less. */
  lemma PullerStep(c: Params, s: State, a: Action, k: u32)
    requires c.Valid() && Inv(c, s) && Enabled(s, a) && 1 <= k <= c.push.chcount
    ensures s.q.sequence <= Next(c, s, a).q.sequence
    ensures Next(c, s, a).q.sequence <= k ==>
              Refused(c, s.q, k) + Nacks(Controls(Local.PullerOut(c, s, a)), k) == Refused(c, Next(c, s, a).q, k)
  {
    hide Calc.Offset, P.Conf.Valid, Accepted, PusherOk, PullerOk, Together, Nacks;
    NacksInOne(Ack(0), k);
    if a.PullerGo? {
      if s.q.pc.Verdict? { VerdictCounts(c, s.q, k); } else { OtherCallsCount(c, s, a.created, k); }
    }
  }

  lemma ReadingCounts(c: Params, s: State, k: u32)
    requires c.Valid() && Inv(c, s) && Enabled(s, PusherGo) && P.Pulls(s.p.pc) && 1 <= k <= c.push.chcount
    ensures var next := PusherNext(c, s).p;
            && s.p.sequence <= next.sequence
            && (next.sequence <= k ==> Retried(c, s.p, k) + Nacks([s.up[0]], k) == Retried(c, next, k))
    ensures s.up[0].Recv?
  {
    hide Calc.Offset, P.Conf.Valid, Accepted, Nacks;
    NacksInOne(s.up[0], k);
    if s.p.pc.DataRecv? || s.p.pc.FlowRecv? { c.push.Geometry(s.p.sequence); }
  }

  /** Each NACK the pusher reads for a chunk is one try less. */
  lemma PusherStep(c: Params, s: State, a: Action, k: u32)
    requires c.Valid() && Inv(c, s) && Enabled(s, a) && 1 <= k <= c.push.chcount
    ensures s.p.sequence <= Next(c, s, a).p.sequence
    ensures Next(c, s, a).p.sequence <= k ==>
              Retried(c, s.p, k) + Nacks(Local.PusherPicks(s, a), k) == Retried(c, Next(c, s, a).p, k)
  {
    hide Calc.Offset, P.Conf.Valid, PullerOk, Accepted, Together, Nacks;
    NacksInOne(Ack(0), k);
    if a.PusherGo? && P.Pulls(s.p.pc) {
      ReadingCounts(c, s, k);
    }
  }

  // ---------- whole runs ----------

  lemma {:induction false} NacksAlong(c: Params, s: State, actions: seq<Action>, k: u32)
    requires c.Valid() && Inv(c, s) && IsRun(c, s, actions) && 1 <= k <= c.push.chcount
    ensures s.q.sequence <= Final(c, s, actions).q.sequence && s.p.sequence <= Final(c, s, actions).p.sequence
    ensures Final(c, s, actions).q.sequence <= k ==>
              Refused(c, s.q, k) + Nacks(Local.Packets(Local.PullerSent(c, s, actions)), k)
              == Refused(c, Final(c, s, actions).q, k)
    ensures Final(c, s, actions).p.sequence <= k ==>
              Retried(c, s.p, k) + Nacks(Local.PusherTaken(c, s, actions), k) == Retried(c, Final(c, s, actions).p, k)
    decreases |actions|
  {
    hide Params.Valid, Inv, Nacks, Refused, Retried, Local.PullerOut, Local.PusherPicks, Controls, Next, Enabled;
    if |actions| == 0 {
      NacksInOne(Ack(0), k);
    } else {
      var a, rest := actions[0], actions[1..];
      var next := Next(c, s, a);
      PullerStep(c, s, a, k);
      PusherStep(c, s, a, k);
      InvKept(c, s, a);
      NacksAlong(c, next, rest, k);
      Local.StepQueues(c, s, a);
      Local.LogSplits(Local.PullerOut(c, s, a), Local.PullerSent(c, next, rest));
      NacksSplit(Controls(Local.PullerOut(c, s, a)), Local.Packets(Local.PullerSent(c, next, rest)), k);
      NacksSplit(Local.PusherPicks(s, a), Local.PusherTaken(c, next, rest), k);
    }
  }

  /** In any run, the tries an end has used on its chunk are the NACKs it has sent, or read, for it. */
  lemma TriesCountNacks(c: Params, actions: seq<Action>)
    requires c.Valid() && IsRun(c, Init(c), actions)
    ensures var q := Final(c, Init(c), actions).q;
            1 <= q.sequence <= c.push.chcount ==>
              Nacks(Local.Packets(Local.PullerSent(c, Init(c), actions)), q.sequence) == c.pull.tries - q.tries
    ensures var p := Final(c, Init(c), actions).p;
            1 <= p.sequence <= c.push.chcount ==>
              Nacks(Local.PusherTaken(c, Init(c), actions), p.sequence) == c.push.tries - p.tries
  {
    hide P.Conf.Valid, Inv, Nacks;
    InvInit(c);
    var s := Final(c, Init(c), actions);
    if 1 <= s.q.sequence <= c.push.chcount { NacksAlong(c, Init(c), actions, s.q.sequence); }
    if 1 <= s.p.sequence <= c.push.chcount { NacksAlong(c, Init(c), actions, s.p.sequence); }
  }

  /**
   * A puller that ends with EXPTRY0 has sent exactly its try count of NACKs for the chunk, and a pusher that ends with
   * EXPTRY1 has read exactly its own; without failures and with equal counts they are the same NACKs.
   */
  lemma ExhaustionTakesAllTries(c: Params, actions: seq<Action>)
    requires c.Valid() && IsRun(c, Init(c), actions)
    ensures var s := Final(c, Init(c), actions);
            s.q.pc == Q.Done(EXPTRY0) ==>
              Nacks(Local.Packets(Local.PullerSent(c, Init(c), actions)), s.q.sequence) == c.pull.tries
    ensures var s := Final(c, Init(c), actions);
            s.p.pc == P.Done(EXPTRY1) ==> Nacks(Local.PusherTaken(c, Init(c), actions), s.p.sequence) == c.push.tries
    ensures var s := Final(c, Init(c), actions);
            Endings.Quiescent(s) && c.push.tries == c.pull.tries && s.q.pc == Q.Done(EXPTRY0) ==>
              s.p.pc == P.Done(EXPTRY1) && s.p.sequence == s.q.sequence && s.up == []
  {
    hide Calc.Offset, P.Conf.Valid, Accepted, Together, Nacks, Endings.Quiescent;
    var s := Final(c, Init(c), actions);
    assert Reachable(c, s);
    InvReachable(c, s);
    TriesCountNacks(c, actions);
    if Endings.Quiescent(s) && c.push.tries == c.pull.tries {
      Endings.EqualTries(c, s);
    }
  }
}
