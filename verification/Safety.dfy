/** What the invariant says about every run, whatever the network delivers and whichever calls fail. */
module Safety {
  import opened Types
  import opened Wire
  import opened Joint
  import opened Lockstep
  import Calc
  import P = PusherMachine
  import Q = PullerMachine

  // ---------- what arrives ----------

  /** Bytes before the chunk the puller is on; all of them once it has passed the last chunk. */
  function Before(c: Params, sequence: u32): nat {
    if 1 <= sequence <= c.push.chcount then P.Start(c.push, sequence)
    else if sequence == 0 then 0
    else |c.push.file|
  }

  function PullerChunk(c: Params, s: State, k: u32): seq<byte> { Slice(s.q.file, P.Start(c.push, k), P.Len(c.push, k)) }

  ghost predicate SameChunk(c: Params, s: State, k: u32) { PullerChunk(c, s, k) == P.Chunk(c.push, k) }

  /** The puller's chunk `k` has the checksum of the pusher's but other bytes. */
  ghost predicate Collides(c: Params, s: State, k: u32) {
    !SameChunk(c, s, k) && c.push.crc32(PullerChunk(c, s, k)) == c.push.crc32(P.Chunk(c.push, k))
  }

  /** `file` agrees with the pusher's on its first `n` bytes. */
  ghost predicate Agrees(c: Params, file: seq<byte>, n: nat) {
    n <= |file| && n <= |c.push.file| && file[..n] == c.push.file[..n]
  }

  lemma AgreesFurther(c: Params, file: seq<byte>, n: nat, start: nat, len: nat)
    requires |file| == |c.push.file| && start + len == n <= |file|
    ensures Agrees(c, file, n) <==> Agrees(c, file, start) && Slice(file, start, len) == Slice(c.push.file, start, len)
  {
    var other := c.push.file;
    assert file[..n] == file[..start] + file[start..n];
    assert other[..n] == other[..start] + other[start..n];
    if Agrees(c, file, n) {
      assert forall i | 0 <= i < n :: file[..n][i] == other[..n][i];
    }
  }

  lemma AgreesOnNothing(c: Params, file: seq<byte>)
    ensures Agrees(c, file, 0)
  {
    assert file[..0] == c.push.file[..0];
  }

  lemma BeforeIsStart(c: Params, k: u32)
    requires 1 <= k <= c.push.chcount
    ensures Before(c, k) == P.Start(c.push, k)
  {
  }

  lemma BeforeStep(c: Params, k: u32)
    requires c.Valid() && 1 <= k <= c.push.chcount && k + 1 < POW32
    ensures Before(c, k) == P.Start(c.push, k) && Before(c, k + 1) == Before(c, k) + P.Len(c.push, k) <= |c.push.file|
    ensures Before(c, 1) == 0
  {
    hide Calc.Offset;
    c.push.Geometry(k);
    c.push.Geometry(1);
    c.push.StartsAtZero();
  }

  lemma {:induction false} AgreesIffChunksDo(c: Params, s: State, sequence: u32)
    requires c.Valid() && |s.q.file| == |c.push.file| && 1 <= sequence <= c.push.chcount + 1
    ensures Agrees(c, s.q.file, Before(c, sequence))
            <==> forall k: u32 | 1 <= k < sequence :: SameChunk(c, s, k)
    decreases sequence
  {
    hide Calc.Offset, P.Conf.Valid, Before, Agrees;
    if sequence == 1 {
      c.push.Positive();
      BeforeStep(c, 1);
      AgreesOnNothing(c, s.q.file);
    } else {
      var last: u32 := sequence - 1;
      AgreesIffChunksDo(c, s, last);
      BeforeStep(c, last);
      AgreesFurther(c, s.q.file, Before(c, sequence), Before(c, last), P.Len(c.push, last));
      var len := P.Len(c.push, last);
      assert SameChunk(c, s, last)
             <==> Slice(s.q.file, Before(c, last), len) == Slice(c.push.file, Before(c, last), len);
    }
  }

  /** The accepted part is the first `sequence - 1` whole chunks, or the file when there are no more. */
  lemma BeforeExact(c: Params, sequence: u32)
    requires c.Valid() && 1 <= sequence <= c.push.chcount + 1
    ensures Before(c, sequence) == Min((sequence - 1) * c.push.chsize, |c.push.file|)
  {
    var size, chsize := |c.push.file|, c.push.chsize;
    c.push.Derived();
    Calc.DivMod(size, chsize);
    if sequence <= c.push.chcount {
      Calc.StartExact(size, chsize, sequence);
      Calc.ChunksAreConsecutive(size, chsize, sequence);
    } else {
      Calc.MulMonotone(size / chsize, sequence - 1, chsize);
      assert (size / chsize + 1) * chsize == (size / chsize) * chsize + chsize;
    }
  }

  /**
   * Every chunk the puller has accepted has the checksum of the pusher's chunk, so the accepted part of the file
   * is the pusher's exactly when none of these chunks is a checksum collision.
   */
  lemma AcceptedPrefix(c: Params, s: State)
    requires c.Valid() && Reachable(c, s) && |s.q.file| > 0 && 1 <= s.q.sequence
    ensures forall k: u32 | 1 <= k < s.q.sequence ::
              c.push.crc32(PullerChunk(c, s, k)) == c.push.crc32(P.Chunk(c.push, k))
    ensures Before(c, s.q.sequence) == Min((s.q.sequence - 1) * c.push.chsize, |c.push.file|)
    ensures Agrees(c, s.q.file, Before(c, s.q.sequence))
            <==> forall k: u32 | 1 <= k < s.q.sequence :: !Collides(c, s, k)
  {
    hide Calc.Offset, P.Conf.Valid, Before, Agrees;
    InvReachable(c, s);
    AgreesIffChunksDo(c, s, s.q.sequence);
    BeforeExact(c, s.q.sequence);
    forall k: u32 | 1 <= k < s.q.sequence
      ensures c.push.crc32(PullerChunk(c, s, k)) == c.push.crc32(P.Chunk(c.push, k))
    {
      assert ChunkOk(c, s.q.file, k);
    }
    forall k: u32 | 1 <= k < s.q.sequence
      ensures SameChunk(c, s, k) <==> !Collides(c, s, k)
    {
    }
  }

  /** The accepted part of the puller's file is the same in `later`, and at least as long. */
  ghost predicate Extends(c: Params, earlier: Q.State, later: Q.State) {
    var n := Before(c, earlier.sequence);
    && earlier.sequence <= later.sequence && n <= Before(c, later.sequence)
    && n <= |earlier.file| && n <= |later.file| && later.file[..n] == earlier.file[..n]
  }

  lemma BeforeMonotone(c: Params, j: u32, k: u32)
    requires c.Valid() && j <= k <= c.push.chcount + 1
    ensures Before(c, j) <= Before(c, k) <= |c.push.file|
    ensures Before(c, 0) == Before(c, 1) == 0
  {
    hide Calc.Offset, P.Conf.Valid;
    c.push.Positive();
    c.push.StartsAtZero();
    if 1 <= j <= c.push.chcount { c.push.Geometry(j); }
    if 1 <= k <= c.push.chcount { c.push.Geometry(k); }
    if 1 <= j < k <= c.push.chcount { c.push.ChunksDisjoint(j, k); }
  }

  lemma ExtendsItself(c: Params, s: State)
    requires c.Valid() && Inv(c, s)
    ensures Extends(c, s.q, s.q)
  {
    hide Calc.Offset, P.Conf.Valid, Before;
    BeforeMonotone(c, s.q.sequence, s.q.sequence);
  }

  lemma ReceivingExtends(c: Params, s: State, dgram: seq<byte>)
    requires c.Valid() && Inv(c, s) && Enabled(s, PullerGets(dgram))
    ensures Extends(c, s.q, PullerReceives(c, s, dgram).q)
  {
    hide Calc.Offset, P.Conf.Valid, Together;
    BeforeMonotone(c, s.q.sequence, s.q.sequence);
    c.push.Geometry(s.q.sequence);
  }

  /** Away from the network the file only changes when it is made, and the chunk number grows by one at most. */
  lemma WorkingKeepsFile(c: Params, s: State, created: bool)
    requires c.Valid() && PullerOk(c, s.q) && Enabled(s, PullerGo(created))
    ensures var q := PullerNext(c, s, created).q;
            && (s.q.pc.HsWait? || q.file == s.q.file)
            && s.q.sequence <= q.sequence <= c.push.chcount + 1
    ensures s.q.pc.HsWait? ==> s.q.sequence == 0
  {
    hide Calc.Offset, Calc.FileSize, P.Conf.Valid, Slice;
    c.push.Positive();
    if s.q.pc.Verdict? { c.push.Geometry(s.q.sequence); }
  }

  lemma WorkingExtends(c: Params, s: State, created: bool)
    requires c.Valid() && Inv(c, s) && Enabled(s, PullerGo(created))
    ensures Extends(c, s.q, Next(c, s, PullerGo(created)).q)
  {
    hide P.Conf.Valid, Before, PusherOk, PullerOk, Accepted, Together, PullerNext, Enabled;
    ExtendsItself(c, s);
    WorkingKeepsFile(c, s, created);
    var q := PullerNext(c, s, created).q;
    BeforeMonotone(c, s.q.sequence, q.sequence);
  }

  lemma StepExtends(c: Params, s: State, a: Action)
    requires c.Valid() && Inv(c, s) && Enabled(s, a)
    ensures Extends(c, s.q, Next(c, s, a).q)
  {
    hide Calc.Offset, P.Conf.Valid, Before;
    match a
    case PullerGo(created) => WorkingExtends(c, s, created);
    case PullerGets(dgram) => ReceivingExtends(c, s, dgram);
    case PullerTakes => ReceivingExtends(c, s, s.net[0]);
    case _ => ExtendsItself(c, s);
  }

  lemma ExtendsTransitive(c: Params, x: Q.State, y: Q.State, z: Q.State)
    requires Extends(c, x, y) && Extends(c, y, z)
    ensures Extends(c, x, z)
  {
    hide Before;
    var n := Before(c, x.sequence);
    var m := Before(c, y.sequence);
    assert z.file[..n] == z.file[..m][..n] && y.file[..n] == y.file[..m][..n];
  }

  /** Later attempts, corrupt datagrams and aborts never change a byte of an accepted chunk. */
  lemma {:induction false} AcceptedIsFinal(c: Params, s: State, actions: seq<Action>)
    requires c.Valid() && Inv(c, s) && IsRun(c, s, actions)
    ensures Extends(c, s.q, Final(c, s, actions).q)
    decreases |actions|
  {
    hide Calc.Offset, P.Conf.Valid, Inv, Extends;
    if |actions| == 0 {
      ExtendsItself(c, s);
    } else {
      var next := Next(c, s, actions[0]);
      StepExtends(c, s, actions[0]);
      InvKept(c, s, actions[0]);
      AcceptedIsFinal(c, next, actions[1..]);
      ExtendsTransitive(c, s.q, next.q, Final(c, s, actions).q);
    }
  }

  /** So in any run, from any state on. */
  lemma AcceptedStays(c: Params, first: seq<Action>, more: seq<Action>)
    requires c.Valid() && IsRun(c, Init(c), first) && IsRun(c, Final(c, Init(c), first), more)
    ensures Extends(c, Final(c, Init(c), first).q, Final(c, Final(c, Init(c), first), more).q)
  {
    hide Calc.Offset, P.Conf.Valid, Inv, Extends;
    InvInit(c);
    InvAlong(c, Init(c), first);
    AcceptedIsFinal(c, Final(c, Init(c), first), more);
  }

  /** No end ever reads or writes outside its file, so no transfer is cut short and no byte is skipped. */
  lemma AccessesInRange(c: Params, s: State)
    requires c.Valid() && Reachable(c, s)
    ensures OnChunk(s.p.pc) ==> s.p.start + s.p.len <= |c.push.file|
    ensures s.p.pc.DataSend? ==>
              s.p.start + s.p.pc.off + Calc.SegmentAt(c.push.segsize, s.p.len, s.p.pc.off) <= |c.push.file|
    ensures InData(s.q.pc) ==> s.q.start + s.q.len <= |s.q.file|
    ensures s.q.pc.DataPull? ==>
              s.q.start + s.q.pc.off + Calc.SegmentAt(Q.SegSize(s.q), s.q.len, s.q.pc.off) <= |s.q.file|
  {
    hide Calc.Offset, P.Conf.Valid, Accepted, Together;
    InvReachable(c, s);
    if OnChunk(s.p.pc) { c.push.Geometry(s.p.sequence); }
    if InData(s.q.pc) { c.push.Geometry(s.q.sequence); }
  }

  // ---------- the answers in flight ----------

  predicate OnChunk(pc: P.Pc) { pc.FlowSend? || pc.FlowRecv? || pc.DataSend? || pc.DataRecv? }

  function Nacks(n: nat, k: u32): seq<Packet> { seq(n, _ => Nack(k)) }

  /** The answer to the FLOW packet while it is unread. */
  function FlowAnswer(s: State): seq<Packet> {
    if s.p.pc.FlowRecv? && !s.q.pc.FlowAck? && s.down == [] then [Ack(s.p.sequence)] else []
  }

  /** The answer that ends the chunk. */
  function LastAnswer(s: State): seq<Packet> {
    if s.q.sequence == s.p.sequence + 1 then [Ack(s.p.sequence)] else []
  }

  lemma AnsweringShape(c: Params, s: State, answers: seq<Packet>, read: int) returns (n: nat)
    requires Answering(c, s, answers, read)
    ensures answers == Nacks(n, s.p.sequence) + LastAnswer(s)
    ensures s.q.sequence == s.p.sequence || s.q.sequence == s.p.sequence + 1
    ensures s.q.sequence == s.p.sequence ==> n + read + s.q.tries == c.pull.tries
    ensures s.q.sequence != s.p.sequence ==> n + read < c.pull.tries
  {
    n := if s.q.sequence == s.p.sequence then |answers| else |answers| - 1;
  }

  /**
   * While the pusher is on a chunk, the answers in flight are the unread answer to its FLOW packet, then NACKs,
   * then the one ACK that ends the chunk; all carry its own number, and the puller is at most one chunk ahead.
   */
  lemma AnswersInFlight(c: Params, s: State)
    requires c.Valid() && Reachable(c, s) && OnChunk(s.p.pc)
    ensures s.q.sequence == s.p.sequence || s.q.sequence == s.p.sequence + 1
    ensures exists n: nat :: s.up == FlowAnswer(s) + Nacks(n, s.p.sequence) + LastAnswer(s)
  {
    hide Calc.Offset, P.Conf.Valid, PusherOk, PullerOk, Accepted;
    InvReachable(c, s);
    var rest := if |FlowAnswer(s)| > 0 && |s.up| > 0 then s.up[1..] else s.up;
    if |s.up| == |FlowAnswer(s)| {
      assert s.up == FlowAnswer(s) + Nacks(0, s.p.sequence) + LastAnswer(s);
    } else {
      var n := AnsweringShape(c, s, rest, if s.p.pc.FlowRecv? then 0 else c.push.tries - s.p.tries);
      assert s.up == FlowAnswer(s) + rest;
      assert s.up == FlowAnswer(s) + Nacks(n, s.p.sequence) + LastAnswer(s);
    }
  }

  /** Every answer the pusher ever reads is about what it is doing, although it never looks at the number. */
  lemma EveryAnswerIsOurs(c: Params, s: State)
    requires c.Valid() && Reachable(c, s) && Enabled(s, PusherGo) && P.Pulls(s.p.pc)
    ensures s.up[0].Recv? && s.up[0].answered == s.p.sequence
  {
    hide Calc.Offset, P.Conf.Valid, Accepted;
    InvReachable(c, s);
  }

  /** Every packet the puller reads is of the kind it waits for, and every FLOW packet matches. */
  lemma EveryFlowMatches(c: Params, s: State, created: bool)
    requires c.Valid() && Reachable(c, s) && Enabled(s, PullerGo(created)) && Q.Pulls(s.q.pc)
    ensures Q.Wanted(s.q.pc, s.down[0])
    ensures s.q.pc.FlowWait? ==> Q.MatchFlow(s.q, s.down[0])
  {
    hide Calc.Offset, P.Conf.Valid, Accepted;
    InvReachable(c, s);
  }

  // ---------- what the handshake settles ----------

  /** From the pusher's first FLOW packet on, both ends hold the same numbers and a file of the same size. */
  lemma HandshakeSettles(c: Params, s: State)
    requires c.Valid() && Reachable(c, s) && OnChunk(s.p.pc)
    ensures s.q.chsize == c.push.chsize && s.q.pchsize == c.push.pchsize && s.q.chcount == c.push.chcount
    ensures |s.q.file| == |c.push.file|
    ensures s.p.pc.FlowSend? ==> s.q.pc.FlowWait? && s.q.sequence == s.p.sequence
    ensures Q.SegSize(s.q) == c.push.segsize
  {
    hide Calc.Offset, P.Conf.Valid, Accepted;
    c.push.Positive();
    InvReachable(c, s);
  }

  // ---------- how the two ends can finish ----------

  /** A failing call ends its end with its status for good, a short datagram with LOWSIZE, and the other end goes on. */
  lemma FailureIsReported(c: Params, s: State, a: Action, more: seq<Action>)
    requires c.Valid() && Reachable(c, s) && Enabled(s, a) && IsRun(c, Next(c, s, a), more)
    ensures var last := Final(c, Next(c, s, a), more);
            && (a.PusherFails? ==> P.Halted(last.p) && P.Outcome(last.p) == a.st && Next(c, s, a).q == s.q)
            && (a.PullerFails? ==> Q.Halted(last.q) && Q.Outcome(last.q) == a.st && Next(c, s, a).p == s.p)
            && (a.PullerGets? && |a.dgram| < Calc.SegmentAt(Q.SegSize(s.q), s.q.len, s.q.pc.off) ==>
                  Q.Halted(last.q) && Q.Outcome(last.q) == LOWSIZE && last.q.file == s.q.file)
  {
    hide Calc.Offset, P.Conf.Valid, Accepted, Together, PusherOk;
    InvReachable(c, s);
    HaltedStay(c, Next(c, s, a), more);
  }

  lemma {:induction false} HaltedStay(c: Params, s: State, actions: seq<Action>)
    requires IsRun(c, s, actions)
    ensures P.Halted(s.p) ==> Final(c, s, actions).p == s.p
    ensures Q.Halted(s.q) ==> Final(c, s, actions).q == s.q
    decreases |actions|
  {
    if |actions| > 0 {
      HaltedStay(c, Next(c, s, actions[0]), actions[1..]);
    }
  }

  /** No run ever ends in BADFLOW, BADTYPE, FAILCRC, or EXPTRY0 at the pusher. */
  lemma Outcomes(c: Params, s: State)
    requires c.Valid() && Reachable(c, s)
    ensures P.Halted(s.p) ==> IsIoFault(P.Outcome(s.p)) || P.Outcome(s.p) in {SUCCESS, ZEROACK, EXPTRY1, EMFSEEK}
    ensures Q.Halted(s.q) ==> IsIoFault(Q.Outcome(s.q)) || Q.Outcome(s.q) in {SUCCESS, EXPTRY0, EMFSEEK}
    ensures s.q.pc != Q.BadFlow
  {
    hide Calc.Offset, P.Conf.Valid, Accepted, Together;
    InvReachable(c, s);
  }

  /** The pusher reports SUCCESS only after the puller has accepted every chunk and the files' CRC16 agree. */
  lemma Agreement(c: Params, s: State)
    requires c.Valid() && Reachable(c, s) && P.Halted(s.p) && P.Outcome(s.p) == SUCCESS
    ensures Q.Halted(s.q) && Q.Outcome(s.q) == SUCCESS
    ensures s.q.sequence == c.push.chcount + 1 && |s.q.file| == |c.push.file|
    ensures forall k: u32 | 1 <= k <= c.push.chcount :: ChunkOk(c, s.q.file, k)
    ensures c.push.crc16(s.q.file) == c.push.crc16(c.push.file)
  {
    hide Calc.Offset, P.Conf.Valid;
    InvReachable(c, s);
  }

  /** SUCCESS at the puller vouches for every chunk's CRC32, not for the CRC16; the pusher may still fail. */
  lemma PullerSuccess(c: Params, s: State)
    requires c.Valid() && Reachable(c, s) && Q.Halted(s.q) && Q.Outcome(s.q) == SUCCESS
    ensures s.q.sequence == c.push.chcount + 1 && |s.q.file| == |c.push.file|
    ensures forall k: u32 | 1 <= k <= c.push.chcount :: ChunkOk(c, s.q.file, k)
  {
    hide Calc.Offset, P.Conf.Valid, Together, PusherOk;
    InvReachable(c, s);
  }

  /** When either end reports SUCCESS the files are equal exactly when no chunk is a CRC32 collision. */
  lemma SuccessMeansSameFile(c: Params, s: State)
    requires c.Valid() && Reachable(c, s)
    requires (P.Halted(s.p) && P.Outcome(s.p) == SUCCESS) || (Q.Halted(s.q) && Q.Outcome(s.q) == SUCCESS)
    ensures s.q.file == c.push.file <==> forall k: u32 | 1 <= k <= c.push.chcount :: !Collides(c, s, k)
  {
    hide Calc.Offset, P.Conf.Valid, ChunkOk, Collides;
    if !Q.Halted(s.q) || Q.Outcome(s.q) != SUCCESS { Agreement(c, s); }
    PullerSuccess(c, s);
    c.push.Positive();
    AcceptedPrefix(c, s);
    assert s.q.file[..|s.q.file|] == s.q.file && c.push.file[..|c.push.file|] == c.push.file;
  }

  /** SUCCESS at either end takes a file with a last chunk that is not empty. */
  lemma SuccessNeedsRemainder(c: Params, s: State)
    requires c.Valid() && Reachable(c, s)
    requires (P.Halted(s.p) && P.Outcome(s.p) == SUCCESS) || (Q.Halted(s.q) && Q.Outcome(s.q) == SUCCESS)
    ensures |c.push.file| % c.push.chsize != 0
  {
    hide Calc.Offset;
    InvReachable(c, s);
    c.push.Derived();
  }
}
