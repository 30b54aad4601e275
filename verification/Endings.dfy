/** How a run can end when no call fails: the retry budgets of the two ends, and every state with nothing left to do. */
module Endings {
  import opened Types
  import opened Joint
  import opened Lockstep
  import Calc
  import P = PusherMachine
  import Q = PullerMachine

  // ---------- the two retry counters ----------

  /** Between the first data of a chunk and the end of its data phase. */
  predicate InDataPhase(pc: P.Pc) { pc.DataSend? || pc.DataRecv? || pc == P.Done(EXPTRY1) }

  /**
   * Until the puller accepts the pusher's chunk, the tries the pusher has used, the NACKs in flight and the tries
   * the puller has left add up to the puller's try count; with equal counts the pusher's tries left are the
   * puller's plus the NACKs in flight.
   */
  lemma RetryBudget(c: Params, s: State)
    requires c.Valid() && Reachable(c, s) && InDataPhase(s.p.pc) && s.q.sequence == s.p.sequence
    ensures AllNacks(s.up, |s.up|, s.p.sequence)
    ensures (c.push.tries - s.p.tries) + |s.up| + s.q.tries == c.pull.tries
    ensures c.push.tries == c.pull.tries ==> s.p.tries == s.q.tries + |s.up|
  {
    hide Calc.Offset, P.Conf.Valid, Accepted;
    InvReachable(c, s);
  }

  // ---------- nothing left to do ----------

  /** No call has failed, and none of the pending calls can succeed. */
  ghost predicate Quiescent(s: State) {
    && s.p.fault.None? && s.q.fault.None?
    && forall a: Action :: Enabled(s, a) ==> a.PusherFails? || a.PullerFails?
  }

  /** Both ends have finished, and with which statuses. */
  predicate Ended(s: State, p: Status, q: Status) { s.p.pc == P.Done(p) && s.q.pc == Q.Done(q) }

  /** The two ends disagree about nothing but the CRC16, which the puller does not report. */
  ghost predicate Verified(c: Params, s: State) {
    if c.push.crc16(s.q.file) == c.push.crc16(c.push.file) then Ended(s, SUCCESS, SUCCESS)
    else Ended(s, ZEROACK, SUCCESS)
  }

  /** The puller could not create the file: the pusher leaves, and the puller waits for a first chunk. */
  predicate Abandoned(s: State) {
    s.p.pc == P.Done(ZEROACK) && s.q.pc.FlowWait? && s.q.sequence == 1 && |s.q.file| == 0
  }

  /** The last chunk is empty, and both ends refuse to seek to the end of the file. */
  ghost predicate Unseekable(c: Params, s: State) {
    Ended(s, EMFSEEK, EMFSEEK) && s.p.sequence == s.q.sequence == c.push.chcount
    && c.push.chsize != 0 && |c.push.file| % c.push.chsize == 0
  }

  /** The tries of at least one end have run out on a chunk. */
  ghost predicate Exhausted(c: Params, s: State) {
    var tp, tq := c.push.tries, c.pull.tries;
    || (s.q.sequence == s.p.sequence && tp <= tq && Ended(s, EXPTRY1, EXPTRY0)
        && s.up == seq(tq - tp, _ => Nack(s.p.sequence)))
    || (s.q.sequence == s.p.sequence && tp > tq && s.q.pc == Q.Done(EXPTRY0)
        && s.p.pc.DataRecv? && s.p.tries == tp - tq)
    || (s.q.sequence == s.p.sequence + 1 && tp < tq && s.p.pc == P.Done(EXPTRY1) && Q.Pulls(s.q.pc))
  }

  lemma NothingEnabled(s: State)
    requires Quiescent(s)
    ensures s.p.pc.Done? || (P.Pulls(s.p.pc) && s.up == [])
    ensures s.q.pc.Done? || (Q.Pulls(s.q.pc) && s.down == [])
  {
    assert !Enabled(s, PusherGo);
    assert !Enabled(s, PullerGo(true));
    assert !Enabled(s, PullerGets([]));
  }

  /** Without failures every run that cannot go on has ended in one of four ways. */
  lemma QuiescentStates(c: Params, s: State)
    requires c.Valid() && Reachable(c, s) && Quiescent(s)
    ensures Verified(c, s) || Abandoned(s) || Unseekable(c, s) || Exhausted(c, s)
  {
    hide Calc.Offset, P.Conf.Valid, Accepted, Quiescent;
    InvReachable(c, s);
    NothingEnabled(s);
    if s.p.pc == P.Done(EMFSEEK) {
      c.push.Derived();
      c.push.Geometry(s.p.sequence);
    }
  }

  /** In such an end the puller waits in vain exactly when it has no file. */
  lemma AbandonedExactly(c: Params, s: State)
    requires c.Valid() && Reachable(c, s) && Quiescent(s)
    ensures Abandoned(s) <==> |s.q.file| == 0
  {
    hide Calc.Offset, P.Conf.Valid, Accepted, Quiescent;
    InvReachable(c, s);
    NothingEnabled(s);
    c.push.Positive();
  }

  /** Every configuration can end that way: all it takes is a file that cannot be made. */
  lemma AbandonedIsReached(c: Params) returns (s: State)
    requires c.Valid()
    ensures Reachable(c, s) && Quiescent(s) && Abandoned(s)
  {
    hide Calc.Offset, Calc.FileSize;
    c.push.Positive();
    s := Init(c);
    InitReachable(c);
    s := ReachableNext(c, s, PusherGo);
    s := ReachableNext(c, s, PullerGo(false));
    s := ReachableNext(c, s, PullerGo(true));
    s := ReachableNext(c, s, PusherGo);
  }

  /** With equal try counts and no failures, the two ends run out of tries together, on the same chunk. */
  lemma EqualTries(c: Params, s: State)
    requires c.Valid() && Reachable(c, s) && Quiescent(s) && c.push.tries == c.pull.tries
    ensures s.p.pc.Done? && (s.q.pc.Done? || Abandoned(s))
    ensures s.p.pc == P.Done(EXPTRY1) <==> s.q.pc == Q.Done(EXPTRY0)
    ensures s.p.pc == P.Done(EXPTRY1) ==> s.p.sequence == s.q.sequence && s.up == []
  {
    hide Calc.Offset, P.Conf.Valid;
    QuiescentStates(c, s);
    if Exhausted(c, s) {
      assert s.up == [];
    }
  }
}
