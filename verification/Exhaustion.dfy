/**
 * Running out of tries. In every configuration whose checksum can tell some chunk from other bytes, the two ends run
 * out together in all cases exactly when they have the same number of tries.
 */
module Exhaustion {
  import opened Types
  import opened MFiles
  import opened Joint
  import opened Lockstep
  import opened Endings
  import opened Faithful
  import Bounds
  import Calc
  import Recovery
  import Safety
  import P = PusherMachine
  import Q = PullerMachine

  /** Bytes that the checksum tells from chunk `k`. */
  ghost predicate Differs(c: Params, k: u32, d: seq<byte>) {
    1 <= k <= c.push.chcount && |d| == P.Len(c.push, k) && c.push.crc32(d) != c.push.crc32(P.Chunk(c.push, k))
  }

  // ---------- up to the first attempt at a chunk ----------

  /** Every chunk is reached, with nothing lost on the way. */
  lemma {:induction false} ReachesOffer(c: Params, s: State, k: u32) returns (u: State)
    requires c.Valid() && Reachable(c, s) && Lossless(c, s) && c.push.segsize > 0
    requires 1 <= k <= c.push.chcount && (s.p.sequence < k || (s.p.sequence == k && s.p.pc.FlowSend?))
    ensures Reachable(c, u) && Lossless(c, u) && u.p.pc.FlowSend? && u.p.sequence == k
    decreases Bounds.CallsLeft(c, s)
  {
    hide Calc.Offset, P.Conf.Valid, InTransit, Reachable, Bounds.CallsLeft, Together;
    if s.p.sequence == k {
      u := s;
    } else {
      if Stuck(s) {
        StuckIsDone(c, s);
        c.push.Geometry(s.p.sequence);
      }
      var a: Action :| FaithfulAction(a) && Enabled(s, a);
      LosslessKept(c, s, a);
      Bounds.EveryActionCounts(c, s, a);
      u := ReachableNext(c, s, a);
      u := ReachesOffer(c, u, k);
    }
  }

  /** The first thing the puller waits for in an attempt. */
  function First(start: nat): Q.Pc { if start == 0 then Q.Prep else Q.DataPull(0) }

  /** Both ends are about to begin an attempt at chunk `k`, with these tries left. */
  ghost predicate Attempting(c: Params, s: State, k: u32, m: nat, n: nat) {
    && Reachable(c, s) && s.p.fault.None? && s.q.fault.None? && s.up == []
    && s.p.pc == P.DataSend(0) && s.p.sequence == k && s.p.tries == m
    && s.q.pc == First(s.q.start) && s.q.sequence == k && s.q.tries == n
  }

  lemma FirstAttempt(c: Params, k: u32) returns (s: State)
    requires c.Valid() && 1 <= k <= c.push.chcount && P.Len(c.push, k) > 0
    ensures Attempting(c, s, k, c.push.tries, c.pull.tries)
  {
    hide Calc.Offset, P.Conf.Valid, Accepted, InTransit, Reachable, P.Start;
    c.push.Positive();
    c.push.Geometry(k);
    LosslessInit(c);
    InitReachable(c);
    s := ReachesOffer(c, Init(c), k);
    s := ReachableNext(c, s, PusherGo);
    s := ReachableNext(c, s, PullerGo(true));
    s := ReachableNext(c, s, PullerGo(true));
    s := ReachableNext(c, s, PusherGo);
  }

  // ---------- one attempt ----------

  /** The pusher sends the rest of the chunk. */
  lemma {:induction false} Emits(c: Params, s: State) returns (u: State)
    requires c.Valid() && Reachable(c, s) && s.p.fault.None? && s.p.pc.DataSend?
    ensures Reachable(c, u) && u.p == s.p.(pc := P.DataRecv) && u.q == s.q && u.up == s.up
    decreases s.p.len - s.p.pc.off
  {
    hide Calc.Offset, P.Conf.Valid, Reachable, PullerOk, Accepted, Together;
    InvReachable(c, s);
    c.push.Positive();
    u := ReachableNext(c, s, PusherGo);
    if u.p.pc.DataSend? {
      u := Emits(c, u);
    }
  }

  /** The puller receives `d` from byte `off` on. */
  lemma {:induction false} Fills(c: Params, s: State, d: seq<byte>) returns (u: State)
    requires c.Valid() && Reachable(c, s) && s.q.fault.None? && s.q.pc.DataPull? && s.q.pc.off <= |d| == s.q.len
    ensures Reachable(c, u) && u.p == s.p && u.up == s.up
    ensures u.q == s.q.(pc := Q.Sync, file := WriteAt(s.q.file, s.q.start + s.q.pc.off, d[s.q.pc.off..]))
    decreases s.q.len - s.q.pc.off
  {
    hide Calc.Offset, P.Conf.Valid, Reachable, PusherOk, Accepted, Together, WriteAt;
    InvReachable(c, s);
    c.push.Positive();
    var off, n := s.q.pc.off, Calc.SegmentAt(Q.SegSize(s.q), s.q.len, s.q.pc.off);
    var part := d[off..off + n];
    assert part[..n] == part;
    u := ReachableNext(c, s, PullerGets(part));
    if u.q.pc.DataPull? {
      u := Fills(c, u, d);
      WriteAtTwice(s.q.file, s.q.start + off, part, d[off + n..]);
      assert part + d[off + n..] == d[off..];
    } else {
      assert part == d[off..];
    }
  }

  /** An attempt in which `d` arrives, up to the verdict. */
  lemma Arrives(c: Params, s: State, d: seq<byte>) returns (u: State)
    requires c.Valid() && Reachable(c, s) && s.q.fault.None? && s.q.pc == First(s.q.start) && |d| == s.q.len
    ensures Reachable(c, u) && u.p == s.p && u.up == s.up
    ensures u.q == s.q.(pc := Q.Verdict, file := WriteAt(s.q.file, s.q.start, d))
    ensures Slice(u.q.file, u.q.start, u.q.len) == d
  {
    hide Calc.Offset, P.Conf.Valid, Reachable, PusherOk, Accepted, Together, WriteAt;
    InvReachable(c, s);
    c.push.Geometry(s.q.sequence);
    u := s;
    if u.q.pc.Prep? {
      u := ReachableNext(c, u, PullerGo(true));
    }
    u := Fills(c, u, d);
    assert d[0..] == d;
    u := ReachableNext(c, u, PullerGo(true));
    WriteAtFrame(s.q.file, s.q.start, d);
  }

  /** Both ends after an attempt that failed. */
  ghost predicate Failed(c: Params, s: State, k: u32, m: nat, n: nat) {
    && Reachable(c, s) && s.p.fault.None? && s.q.fault.None? && s.up == []
    && s.p.pc == (if m == 0 then P.Done(EXPTRY1) else P.DataSend(0)) && s.p.sequence == k && s.p.tries == m
    && s.q.pc == (if n == 0 then Q.Done(EXPTRY0) else First(s.q.start)) && s.q.sequence == k && s.q.tries == n
  }

  lemma Fails(c: Params, before: State, k: u32, d: seq<byte>, m: nat, n: nat) returns (s: State)
    requires c.Valid() && Differs(c, k, d) && Attempting(c, before, k, m, n) && m > 0 && n > 0
    ensures Failed(c, s, k, m - 1, n - 1)
  {
    hide Calc.Offset, P.Conf.Valid, Reachable, Accepted, WriteAt, Together, P.Start, P.Len;
    InvReachable(c, before);
    c.push.Geometry(k);
    s := Emits(c, before);
    s := Arrives(c, s, d);
    InvReachable(c, s);
    s := ReachableNext(c, s, PullerGo(true));
    s := ReachableNext(c, s, PusherGo);
  }

  /** All attempts fail, until the tries of an end run out. */
  lemma {:induction false} AllFail(c: Params, before: State, k: u32, d: seq<byte>, m: nat, n: nat) returns (s: State)
    requires c.Valid() && Differs(c, k, d) && Attempting(c, before, k, m, n) && m > 0 && n > 0
    ensures Failed(c, s, k, if m > n then m - n else 0, if n > m then n - m else 0)
    decreases m
  {
    hide Params.Valid, Reachable, Differs;
    s := Fails(c, before, k, d, m, n);
    if m > 1 && n > 1 {
      s := AllFail(c, s, k, d, m - 1, n - 1);
    }
  }

  // ---------- the ends of such transfers ----------

  /** With more tries the pusher goes on waiting when the puller has given up. */
  lemma PullerGivesUpFirst(c: Params, k: u32, d: seq<byte>) returns (s: State)
    requires c.Valid() && Differs(c, k, d) && c.push.tries > c.pull.tries
    ensures Reachable(c, s) && Quiescent(s) && s.p.sequence == s.q.sequence == k
    ensures s.p.pc.DataRecv? && s.q.pc == Q.Done(EXPTRY0)
  {
    hide P.Conf.Valid, Reachable, Differs;
    c.push.Positive();
    SomeBytes(c, k, d);
    s := FirstAttempt(c, k);
    s := AllFail(c, s, k, d, c.push.tries, c.pull.tries);
    s := Emits(c, s);
  }

  lemma SomeBytes(c: Params, k: u32, d: seq<byte>)
    requires Differs(c, k, d)
    ensures 1 <= k <= c.push.chcount && P.Len(c.push, k) > 0
  {
    assert |d| == 0 ==> d == P.Chunk(c.push, k);
  }

  /** A puller with tries left receives and accepts its chunk, although the pusher has given up. */
  lemma AcceptsAlone(c: Params, before: State, k: u32, n: nat) returns (s: State)
    requires c.Valid() && 1 <= k <= c.push.chcount && Failed(c, before, k, 0, n) && n > 0
    ensures Reachable(c, s) && Quiescent(s) && s.p.pc == P.Done(EXPTRY1) && s.p.sequence == k
    ensures s.q.sequence == k + 1 && Q.Pulls(s.q.pc) && Safety.SameChunk(c, s, k)
  {
    hide Calc.Offset, P.Conf.Valid, Reachable, Accepted, WriteAt, P.Start, P.Len;
    c.push.Geometry(k);
    InvReachable(c, before);
    s := Arrives(c, before, P.Chunk(c.push, k));
    InvReachable(c, s);
    s := ReachableNext(c, s, PullerGo(true));
  }

  /** With fewer it gives up although the puller then receives the chunk, and waits for what comes next. */
  lemma PusherGivesUpFirst(c: Params, k: u32, d: seq<byte>) returns (s: State)
    requires c.Valid() && Differs(c, k, d) && c.push.tries < c.pull.tries
    ensures Reachable(c, s) && Quiescent(s) && s.p.sequence == k && s.q.sequence == k + 1
    ensures s.p.pc == P.Done(EXPTRY1) && Q.Pulls(s.q.pc)
    ensures Safety.SameChunk(c, s, k)
  {
    hide P.Conf.Valid, Reachable, Differs, Failed, Safety.SameChunk, Quiescent;
    c.push.Positive();
    SomeBytes(c, k, d);
    s := FirstAttempt(c, k);
    s := AllFail(c, s, k, d, c.push.tries, c.pull.tries);
    s := AcceptsAlone(c, s, k, c.pull.tries - c.push.tries);
  }

  lemma NeverRefused(c: Params, q: Q.State)
    requires c.Valid() && PullerOk(c, q) && (forall k: u32, d :: !Differs(c, k, d)) && q.pc.Verdict?
    ensures Q.ChunkMatches(c.pull, q)
  {
    hide Calc.Offset, P.Conf.Valid;
    c.push.Geometry(q.sequence);
    assert !Differs(c, q.sequence, Slice(q.file, q.start, q.len));
  }

  lemma {:induction false} NeverLate(c: Params, s: State, actions: seq<Action>)
    requires c.Valid() && Inv(c, s) && (forall k: u32, d :: !Differs(c, k, d)) && Recovery.InTime(c, s)
    requires IsRun(c, s, actions)
    ensures Recovery.InTime(c, Final(c, s, actions))
    decreases |actions|
  {
    hide Params.Valid, Differs, Recovery.InTime, PusherOk, PullerOk, Accepted, Together, Q.ChunkMatches;
    if |actions| > 0 {
      if s.q.pc.Verdict? { NeverRefused(c, s.q); }
      Recovery.StepInTime(c, s, actions[0]);
      InvKept(c, s, actions[0]);
      NeverLate(c, Next(c, s, actions[0]), actions[1..]);
    }
  }

  lemma NobodyRunsOut(c: Params, s: State)
    requires c.Valid() && Reachable(c, s) && forall k: u32, d :: !Differs(c, k, d)
    ensures s.p.pc != P.Done(EXPTRY1) && s.q.pc != Q.Done(EXPTRY0)
  {
    hide P.Conf.Valid, Differs;
    InvInit(c);
    c.push.Positive();
    var actions: seq<Action> :| IsRun(c, Init(c), actions) && Final(c, Init(c), actions) == s;
    NeverLate(c, Init(c), actions);
  }

  /** In every end without failures both ends have run out of tries, or neither has. */
  ghost predicate RunOutTogether(c: Params) {
    forall s | Reachable(c, s) && Quiescent(s) :: s.p.pc == P.Done(EXPTRY1) <==> s.q.pc == Q.Done(EXPTRY0)
  }

  /** They do exactly when the counts are equal, or when the checksum could not refuse any bytes. */
  lemma TogetherExactly(c: Params)
    requires c.Valid()
    ensures RunOutTogether(c) <==> c.push.tries == c.pull.tries || forall k: u32, d :: !Differs(c, k, d)
  {
    hide Reachable, Quiescent, Params.Valid, Differs;
    if c.push.tries == c.pull.tries {
      forall s | Reachable(c, s) && Quiescent(s)
        ensures s.p.pc == P.Done(EXPTRY1) <==> s.q.pc == Q.Done(EXPTRY0)
      {
        EqualTries(c, s);
      }
    } else if k: u32, d :| Differs(c, k, d) {
      var s;
      if c.push.tries > c.pull.tries { s := PullerGivesUpFirst(c, k, d); } else { s := PusherGivesUpFirst(c, k, d); }
    } else {
      forall s | Reachable(c, s)
        ensures s.p.pc != P.Done(EXPTRY1) && s.q.pc != Q.Done(EXPTRY0)
      {
        NobodyRunsOut(c, s);
      }
    }
  }

  /** For all counts there is a configuration to which this applies: a one-byte file with itself as its CRC32. */
  lemma DiffersExample(tp: nat, tq: nat) returns (c: Params)
    requires tp > 0 && tq > 0
    ensures c.Valid() && c.push.tries == tp && c.pull.tries == tq && Differs(c, 1, [0])
  {
    var crc32: seq<byte> -> u32 := b => if |b| > 0 then b[0] else 0;
    var crc16: seq<byte> -> u16 := b => 0;
    c := Params(P.Conf([1], 2, tp, crc32, crc16, 1, 1, 2), Q.Conf(tq, crc32, crc16));
    c.push.StartsAtZero();
  }

  /** So the counts alone promise it exactly when they are equal. */
  lemma CountsDecide(tp: nat, tq: nat)
    requires tp > 0 && tq > 0
    ensures (forall c: Params | c.Valid() && c.push.tries == tp && c.pull.tries == tq :: RunOutTogether(c))
            <==> tp == tq
  {
    hide Params.Valid, Differs, RunOutTogether;
    forall c: Params | c.Valid() && c.push.tries == tp && c.pull.tries == tq
      ensures tp == tq ==> RunOutTogether(c)
    {
      TogetherExactly(c);
    }
    var c := DiffersExample(tp, tq);
    TogetherExactly(c);
  }
}
