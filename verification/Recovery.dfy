/**
 * What the retries are for: a transfer whose chunks each get their right bytes in time completes, whatever loss or
 * damage there was in all other attempts.
 */
module Recovery {
  import opened Types
  import opened Joint
  import opened Lockstep
  import opened Endings
  import Calc
  import Safety
  import P = PusherMachine
  import Q = PullerMachine

  /** The attempts a chunk has before either end runs out of tries. */
  function Allowed(c: Params): nat { Min(c.push.tries, c.pull.tries) }

  /** The puller is about to judge the last attempt allowed. */
  predicate LastAllowed(c: Params, q: Q.State) { q.pc.Verdict? && c.pull.tries - q.tries + 1 == Allowed(c) }

  /** Whenever the puller judges the last attempt allowed, the checksum agrees. */
  ghost predicate RightInTime(c: Params, s: State, actions: seq<Action>)
    requires IsRun(c, s, actions)
    decreases |actions|
  {
    |actions| == 0
    || ((actions[0].PullerGo? && LastAllowed(c, s.q) ==> Q.ChunkMatches(c.pull, s.q))
        && RightInTime(c, Next(c, s, actions[0]), actions[1..]))
  }

  // ---------- in time ----------

  /** Fewer attempts have failed than are allowed. */
  ghost predicate InTime(c: Params, s: State) {
    && s.q.pc != Q.Done(EXPTRY0) && s.p.pc != P.Done(EXPTRY1)
    && (InData(s.q.pc) ==> c.pull.tries - s.q.tries < Allowed(c))
    && (s.q.sequence == s.p.sequence + 1 ==>
          && (s.p.pc.FlowRecv? ==> |s.up| - 2 < Allowed(c))
          && (s.p.pc.DataSend? || s.p.pc.DataRecv? ==> |s.up| - 1 + c.push.tries - s.p.tries < Allowed(c)))
  }

  lemma PusherStaysInTime(c: Params, s: State)
    requires c.Valid() && Inv(c, s) && InTime(c, s) && Enabled(s, PusherGo)
    ensures InTime(c, PusherNext(c, s))
  {
    hide Calc.Offset, P.Conf.Valid, Accepted;
  }

  lemma PullerStaysInTime(c: Params, s: State, created: bool)
    requires c.Valid() && Inv(c, s) && InTime(c, s) && Enabled(s, PullerGo(created))
    requires LastAllowed(c, s.q) ==> Q.ChunkMatches(c.pull, s.q)
    ensures InTime(c, PullerNext(c, s, created))
  {
    hide Calc.Offset, P.Conf.Valid, Accepted, Slice;
    c.push.Positive();
  }

  lemma StepInTime(c: Params, s: State, a: Action)
    requires c.Valid() && Inv(c, s) && InTime(c, s) && Enabled(s, a)
    requires a.PullerGo? && LastAllowed(c, s.q) ==> Q.ChunkMatches(c.pull, s.q)
    ensures InTime(c, Next(c, s, a))
  {
    hide Calc.Offset, P.Conf.Valid, Accepted, Together, Q.ChunkMatches;
    match a
    case PusherGo => PusherStaysInTime(c, s);
    case PullerGo(created) => PullerStaysInTime(c, s, created);
    case _ =>
  }

  // ---------- too late ----------

  /** As many attempts at a chunk have failed as are allowed, and neither end has got past it. */
  ghost predicate TooLate(c: Params, s: State) {
    || s.q.pc == Q.Done(EXPTRY0) || s.p.pc == P.Done(EXPTRY1)
    || ((s.p.pc.FlowRecv? || s.p.pc.DataSend? || s.p.pc.DataRecv?)
        && if s.q.sequence == s.p.sequence then InData(s.q.pc) && c.pull.tries - s.q.tries >= Allowed(c)
           else (if s.p.pc.FlowRecv? then |s.up| - 2 else |s.up| - 1 + c.push.tries - s.p.tries) >= Allowed(c))
  }

  lemma PusherStaysLate(c: Params, s: State)
    requires c.Valid() && Inv(c, s) && TooLate(c, s) && Enabled(s, PusherGo)
    ensures TooLate(c, PusherNext(c, s))
  {
    hide Calc.Offset, P.Conf.Valid, Accepted;
    c.push.Positive();
    if s.p.pc.FlowRecv? { c.push.Geometry(s.p.sequence); }
  }

  lemma PullerStaysLate(c: Params, s: State, created: bool)
    requires c.Valid() && Inv(c, s) && Enabled(s, PullerGo(created))
    requires TooLate(c, s) || (LastAllowed(c, s.q) && !Q.ChunkMatches(c.pull, s.q))
    ensures TooLate(c, PullerNext(c, s, created))
  {
    hide Calc.Offset, P.Conf.Valid, Accepted, Slice;
    c.push.Positive();
    if s.q.pc.Verdict? { c.push.Geometry(s.q.sequence); }
  }

  lemma StepStaysLate(c: Params, s: State, a: Action)
    requires c.Valid() && Inv(c, s) && Enabled(s, a)
    requires TooLate(c, s) || (a.PullerGo? && LastAllowed(c, s.q) && !Q.ChunkMatches(c.pull, s.q))
    ensures TooLate(c, Next(c, s, a))
  {
    hide Calc.Offset, P.Conf.Valid, Accepted, Together, Q.ChunkMatches;
    match a
    case PusherGo => PusherStaysLate(c, s);
    case PullerGo(created) => PullerStaysLate(c, s, created);
    case _ =>
  }

  // ---------- whole runs ----------

  lemma {:induction false} StaysLate(c: Params, s: State, actions: seq<Action>)
    requires c.Valid() && Inv(c, s) && TooLate(c, s) && IsRun(c, s, actions)
    ensures TooLate(c, Final(c, s, actions))
    decreases |actions|
  {
    hide Params.Valid, Inv, TooLate;
    if |actions| > 0 {
      StepStaysLate(c, s, actions[0]);
      InvKept(c, s, actions[0]);
      StaysLate(c, Next(c, s, actions[0]), actions[1..]);
    }
  }

  /** A run is in time to its end, or there is a chunk that it never gets past. */
  lemma {:induction false} InTimeOrLate(c: Params, s: State, actions: seq<Action>)
    requires c.Valid() && Inv(c, s) && InTime(c, s) && IsRun(c, s, actions)
    ensures if RightInTime(c, s, actions) then InTime(c, Final(c, s, actions)) else TooLate(c, Final(c, s, actions))
    decreases |actions|
  {
    hide Params.Valid, Inv, InTime, TooLate, Q.ChunkMatches;
    if |actions| > 0 {
      var a, next := actions[0], Next(c, s, actions[0]);
      InvKept(c, s, a);
      if a.PullerGo? && LastAllowed(c, s.q) && !Q.ChunkMatches(c.pull, s.q) {
        StepStaysLate(c, s, a);
        StaysLate(c, next, actions[1..]);
      } else {
        StepInTime(c, s, a);
        InTimeOrLate(c, next, actions[1..]);
      }
    }
  }

  /**
   * Without failing calls and with a file that could be made, a run of a file with a remainder ends in the verification
   * exactly when every chunk is accepted by its last allowed attempt, whatever the other attempts delivered.
   */
  lemma VerifiedExactly(c: Params, actions: seq<Action>)
    requires c.Valid() && c.push.pchsize > 0 && IsRun(c, Init(c), actions)
    ensures var s := Final(c, Init(c), actions);
            Quiescent(s) && |s.q.file| > 0 ==> (Verified(c, s) <==> RightInTime(c, Init(c), actions))
  {
    hide Calc.Offset, P.Conf.Valid, Inv, RightInTime, Quiescent;
    InvInit(c);
    InTimeOrLate(c, Init(c), actions);
    var s := Final(c, Init(c), actions);
    assert Reachable(c, s);
    if Quiescent(s) && |s.q.file| > 0 {
      QuiescentStates(c, s);
      c.push.Derived();
    }
  }

  /** Then both ends report SUCCESS and the files are equal, unless an accepted chunk is a CRC32 collision. */
  lemma TransferRecovers(c: Params, actions: seq<Action>)
    requires c.Valid() && c.push.pchsize > 0 && IsRun(c, Init(c), actions) && RightInTime(c, Init(c), actions)
    ensures var s := Final(c, Init(c), actions);
            && Quiescent(s) && |s.q.file| > 0
            && (forall k: u32 | 1 <= k <= c.push.chcount :: !Safety.Collides(c, s, k)) ==>
              Ended(s, SUCCESS, SUCCESS) && s.q.file == c.push.file
  {
    hide Calc.Offset, P.Conf.Valid, Inv, RightInTime, Safety.Collides;
    var s := Final(c, Init(c), actions);
    assert Reachable(c, s);
    VerifiedExactly(c, actions);
    if Quiescent(s) && |s.q.file| > 0 {
      Safety.SuccessMeansSameFile(c, s);
    }
  }
}
