/** What every reachable state of the two ends looks like, and the proof that every action keeps it so. */
module Lockstep {
  import opened Types
  import opened Wire
  import opened Io
  import opened MFiles
  import opened Joint
  import Calc
  import P = PusherMachine
  import Q = PullerMachine

  function Ack(c: u32): Packet { Recv(1, 0, c) }

  function Nack(c: u32): Packet { Recv(0, 0, c) }

  /** The first `n` answers are NACKs. */
  ghost predicate AllNacks(answers: seq<Packet>, n: int, c: u32) {
    n <= |answers| && forall k | 0 <= k < n :: answers[k] == Nack(c)
  }

  /** Chunk `k` of the puller's file has the checksum of the pusher's chunk `k`. */
  ghost predicate ChunkOk(c: Params, file: seq<byte>, k: u32) {
    c.push.crc32(Slice(file, P.Start(c.push, k), P.Len(c.push, k))) == c.push.crc32(P.Chunk(c.push, k))
  }

  // ---------- each end by itself ----------

  ghost predicate PusherOnChunk(c: Params, p: P.State) {
    1 <= p.sequence <= c.push.chcount && p.start == P.Start(c.push, p.sequence) && p.len == P.Len(c.push, p.sequence)
  }

  ghost predicate PusherInData(c: Params, p: P.State) {
    PusherOnChunk(c, p) && 0 < p.tries <= c.push.tries && 0 < p.len && SeekAccepted(|c.push.file|, p.start)
  }

  ghost predicate PusherOk(c: Params, p: P.State) {
    match p.pc
    case HsSend => p.sequence == 0 && p.tries == c.push.tries
    case HsRecv => p.sequence == 0 && p.tries == c.push.tries
    case FlowSend => PusherOnChunk(c, p) && p.tries == c.push.tries
    case FlowRecv => PusherOnChunk(c, p) && p.tries == c.push.tries
    case DataSend(off) => PusherInData(c, p) && off < p.len
    case DataRecv => PusherInData(c, p)
    case VfSend => p.sequence == c.push.chcount + 1 && c.push.pchsize > 0
    case VfRecv => p.sequence == c.push.chcount + 1 && c.push.pchsize > 0
    case Done(st) => p.fault.None? && PusherEnded(c, p, st)
  }

  ghost predicate PusherEnded(c: Params, p: P.State, st: Status) {
    match st
    case EXPTRY1 => PusherOnChunk(c, p) && p.tries == 0
    case EMFSEEK => PusherOnChunk(c, p) && p.len == 0
    case ZEROACK => true
    case SUCCESS => p.sequence == c.push.chcount + 1 && c.push.pchsize > 0
    case _ => false
  }

  ghost predicate Negotiated(c: Params, q: Q.State) {
    && q.chsize == c.push.chsize && q.pchsize == c.push.pchsize && q.chcount == c.push.chcount
    && (|q.file| == 0 || |q.file| == |c.push.file|)
  }

  ghost predicate PullerOnChunk(c: Params, q: Q.State) {
    1 <= q.sequence <= c.push.chcount && q.start == P.Start(c.push, q.sequence) && q.len == P.Len(c.push, q.sequence)
  }

  /** The puller has taken the FLOW packet of its chunk and has a file to put the chunk in. */
  ghost predicate Expecting(c: Params, q: Q.State) {
    PullerOnChunk(c, q) && |q.file| == |c.push.file| && q.want == c.push.crc32(P.Chunk(c.push, q.sequence))
  }

  predicate InData(pc: Q.Pc) { pc.Prep? || pc.DataPull? || pc.Sync? || pc.Verdict? }

  ghost predicate PullerOk(c: Params, q: Q.State) {
    match q.pc
    case HsWait => q.tries == c.pull.tries && q.sequence == 0
    case HsReply => Negotiated(c, q) && q.tries == c.pull.tries && q.sequence == 0
    case FlowWait => Negotiated(c, q) && PullerOnChunk(c, q) && q.tries == c.pull.tries
    case FlowAck => Negotiated(c, q) && Expecting(c, q) && q.tries == c.pull.tries
    case Prep => Negotiated(c, q) && Expecting(c, q) && 0 < q.tries <= c.pull.tries && 0 < q.len
    case DataPull(off) => Negotiated(c, q) && Expecting(c, q) && 0 < q.tries <= c.pull.tries && off < q.len
    case Sync => Negotiated(c, q) && Expecting(c, q) && 0 < q.tries <= c.pull.tries && 0 < q.len
    case Verdict => Negotiated(c, q) && Expecting(c, q) && 0 < q.tries <= c.pull.tries && 0 < q.len
    case VfWait => Negotiated(c, q) && q.sequence == c.push.chcount + 1 && |q.file| > 0
    case VfReply(ok) =>
      Negotiated(c, q) && q.sequence == c.push.chcount + 1 && |q.file| > 0
      && (ok <==> c.push.crc16(q.file) == c.push.crc16(c.push.file))
    case BadFlow => false
    case Done(st) => q.fault.None? && Negotiated(c, q) && PullerEnded(c, q, st)
  }

  ghost predicate PullerEnded(c: Params, q: Q.State, st: Status) {
    match st
    case EXPTRY0 => Expecting(c, q) && q.tries == 0 && 0 < q.len
    case EMFSEEK => Expecting(c, q) && q.len == 0
    case SUCCESS => q.sequence == c.push.chcount + 1 && |q.file| > 0
    case _ => false
  }

  /** Every chunk the puller has accepted has the right checksum. */
  ghost predicate Accepted(c: Params, q: Q.State) {
    forall k: u32 | 1 <= k < q.sequence :: ChunkOk(c, q.file, k)
  }

  // ---------- the two together ----------

  ghost predicate Quiet(s: State) { s.down == [] && s.up == [] }

  /**
   * The answers to the data of the pusher's chunk that are still in flight, after `read` NACKs already read: NACKs
   * while the puller is at work or has given up, then one ACK once it has accepted and moved on.
   */
  ghost predicate Answering(c: Params, s: State, answers: seq<Packet>, read: int) {
    && s.down == []
    && if s.q.sequence == s.p.sequence then
         && (InData(s.q.pc) || s.q.pc == Q.Done(EXPTRY0))
         && AllNacks(answers, |answers|, s.p.sequence)
         && |answers| + read + s.q.tries == c.pull.tries
       else
         && s.q.sequence == s.p.sequence + 1
         && s.q.pc == (if s.q.sequence <= c.push.chcount then Q.FlowWait else Q.VfWait)
         && |answers| > 0 && answers[|answers| - 1] == Ack(s.p.sequence)
         && AllNacks(answers, |answers| - 1, s.p.sequence)
         && |answers| - 1 + read < c.pull.tries
         && |s.q.file| > 0 && s.p.len > 0
  }

  ghost predicate Together(c: Params, s: State) {
    match s.p.pc
    case HsSend => s.q.pc.HsWait? && Quiet(s)
    case HsRecv =>
      || (s.q.pc.HsWait? && s.down == [P.Hello(c.push)] && s.up == [])
      || (s.q.pc.HsReply? && Quiet(s))
      || (s.q.pc.FlowWait? && s.q.sequence == 1 && s.down == []
          && s.up == [Recv(if |s.q.file| > 0 then 1 else 0, 0, 0)])
    case FlowSend => s.q.pc.FlowWait? && s.q.sequence == s.p.sequence && |s.q.file| > 0 && Quiet(s)
    case FlowRecv =>
      || (s.q.pc.FlowWait? && s.q.sequence == s.p.sequence && |s.q.file| > 0
          && s.down == [P.Offer(c.push, s.p)] && s.up == [])
      || (s.q.pc.FlowAck? && s.q.sequence == s.p.sequence && Quiet(s))
      || (s.q.pc == Q.Done(EMFSEEK) && s.q.sequence == s.p.sequence && s.down == [] && s.up == [Ack(s.p.sequence)])
      || (|s.up| > 0 && s.up[0] == Ack(s.p.sequence) && Answering(c, s, s.up[1..], 0))
    case DataSend(_) => Answering(c, s, s.up, c.push.tries - s.p.tries)
    case DataRecv => Answering(c, s, s.up, c.push.tries - s.p.tries)
    case VfSend => s.q.pc.VfWait? && Quiet(s)
    case VfRecv =>
      || (s.q.pc.VfWait? && s.down == [P.Goodbye(c.push)] && s.up == [])
      || (s.q.pc.VfReply? && Quiet(s))
      || (s.q.pc == Q.Done(SUCCESS) && s.down == []
          && s.up == [Recv(if c.push.crc16(s.q.file) == c.push.crc16(c.push.file) then 1 else 0, 0, s.q.sequence)])
    case Done(st) =>
      match st
      case EXPTRY1 => Answering(c, s, s.up, c.push.tries)
      case EMFSEEK => s.q.pc == Q.Done(EMFSEEK) && s.q.sequence == s.p.sequence && Quiet(s)
      case ZEROACK =>
        || (s.q.pc.FlowWait? && s.q.sequence == 1 && |s.q.file| == 0 && Quiet(s))
        || (s.q.pc == Q.Done(SUCCESS) && c.push.crc16(s.q.file) != c.push.crc16(c.push.file) && Quiet(s)
            && c.push.pchsize > 0)
      case SUCCESS =>
        s.q.pc == Q.Done(SUCCESS) && c.push.crc16(s.q.file) == c.push.crc16(c.push.file) && Quiet(s)
      case _ => false
  }

  ghost predicate Inv(c: Params, s: State) {
    PusherOk(c, s.p) && PullerOk(c, s.q) && Accepted(c, s.q) && Together(c, s)
  }

  lemma InvInit(c: Params)
    ensures Inv(c, Init(c))
  {
  }

  // ---------- the pusher's steps ----------

  lemma PusherSends(c: Params, s: State)
    requires c.Valid() && Inv(c, s) && Enabled(s, PusherGo) && !P.Pulls(s.p.pc)
    ensures Inv(c, Next(c, s, PusherGo))
  {
    if s.p.pc.DataSend? {
      c.push.Positive();
    }
  }

  lemma HandshakeAnswered(c: Params, s: State)
    requires c.Valid() && Inv(c, s) && Enabled(s, PusherGo) && s.p.pc.HsRecv?
    ensures Inv(c, Next(c, s, PusherGo))
  {
    c.push.Positive();
  }

  lemma FlowAnswered(c: Params, s: State)
    requires c.Valid() && Inv(c, s) && Enabled(s, PusherGo) && s.p.pc.FlowRecv?
    ensures Inv(c, Next(c, s, PusherGo))
  {
    c.push.Geometry(s.p.sequence);
  }

  /** The first answer is the ACK only when it is the last one and the puller has moved on. */
  lemma FirstAnswer(c: Params, s: State, answers: seq<Packet>, read: int)
    requires Answering(c, s, answers, read) && |answers| > 0
    ensures if answers[0] == Ack(s.p.sequence) then
              |answers| == 1 && s.q.sequence == s.p.sequence + 1 && s.p.len > 0
            else
              answers[0] == Nack(s.p.sequence) && Answering(c, s, answers[1..], read + 1)
  {
    var rest := answers[1..];
    if answers[0] == Nack(s.p.sequence) {
      assert forall k | 0 <= k < |rest| :: rest[k] == answers[k + 1];
    }
  }

  lemma DataAnswered(c: Params, s: State)
    requires c.Valid() && Inv(c, s) && Enabled(s, PusherGo) && s.p.pc.DataRecv?
    ensures Inv(c, Next(c, s, PusherGo))
  {
    hide Calc.Offset, P.Conf.Valid;
    c.push.Geometry(s.p.sequence);
    FirstAnswer(c, s, s.up, c.push.tries - s.p.tries);
  }

  lemma VerificationAnswered(c: Params, s: State)
    requires c.Valid() && Inv(c, s) && Enabled(s, PusherGo) && s.p.pc.VfRecv?
    ensures Inv(c, Next(c, s, PusherGo))
  {
  }

  lemma PullerReplies(c: Params, s: State, created: bool)
    requires c.Valid() && Inv(c, s) && Enabled(s, PullerGo(created)) && !Q.Pulls(s.q.pc)
    requires !InData(s.q.pc) && !s.q.pc.FlowAck?
    ensures Inv(c, Next(c, s, PullerGo(created)))
  {
    hide Calc.Offset, P.Conf.Valid;
    c.push.Positive();
    c.push.Geometry(1);
  }

  lemma PullerAgrees(c: Params, s: State, created: bool)
    requires c.Valid() && Inv(c, s) && Enabled(s, PullerGo(created)) && s.q.pc.FlowAck?
    ensures Inv(c, Next(c, s, PullerGo(created)))
  {
    hide Calc.Offset, P.Conf.Valid, P.Start, P.Len;
    c.push.Positive();
    c.push.Geometry(s.q.sequence);
  }

  lemma PullerWorks(c: Params, s: State, created: bool)
    requires c.Valid() && Inv(c, s) && Enabled(s, PullerGo(created)) && InData(s.q.pc) && !s.q.pc.Verdict?
    ensures Inv(c, Next(c, s, PullerGo(created)))
  {
  }

  /** A verdict adds one answer. */
  lemma VerdictAnswers(c: Params, s: State, answers: seq<Packet>, read: nat)
    requires c.Valid() && PullerOk(c, s.q) && s.q.pc.Verdict? && PusherOnChunk(c, s.p)
    requires Answering(c, s, answers, read)
    ensures var q := Q.Proceed(c.pull, s.q);
            Answering(c, s.(q := q), answers + [Q.Emit(c.pull, s.q)[0].packet], read)
  {
    hide Calc.Offset, P.Conf.Valid;
    c.push.Geometry(s.q.sequence);
  }

  lemma VerdictKeepsPuller(c: Params, s: State)
    requires c.Valid() && PullerOk(c, s.q) && Accepted(c, s.q) && s.q.pc.Verdict? && s.q.fault.None?
    ensures var q := Q.Proceed(c.pull, s.q);
            PullerOk(c, q) && Accepted(c, q)
  {
    hide Calc.Offset, P.Conf.Valid;
    c.push.Geometry(s.q.sequence);
  }

  lemma PullerJudges(c: Params, s: State, created: bool)
    requires c.Valid() && Inv(c, s) && Enabled(s, PullerGo(created)) && s.q.pc.Verdict?
    ensures Inv(c, Next(c, s, PullerGo(created)))
  {
    VerdictKeepsPuller(c, s);
    var read := if s.p.pc.FlowRecv? then 0 else c.push.tries - s.p.tries;
    var answers := if s.p.pc.FlowRecv? then s.up[1..] else s.up;
    var x := Q.Emit(c.pull, s.q)[0].packet;
    VerdictAnswers(c, s, answers, read);
    if s.p.pc.FlowRecv? {
      assert (s.up + [x])[1..] == s.up[1..] + [x];
    }
  }

  lemma PullerGreeted(c: Params, s: State, created: bool)
    requires c.Valid() && Inv(c, s) && Enabled(s, PullerGo(created)) && s.q.pc.HsWait?
    ensures Inv(c, Next(c, s, PullerGo(created)))
  {
    c.push.Derived();
    Calc.FileSizeInverse(|c.push.file|, c.push.chsize);
  }

  lemma PullerOffered(c: Params, s: State, created: bool)
    requires c.Valid() && Inv(c, s) && Enabled(s, PullerGo(created)) && s.q.pc.FlowWait?
    ensures Inv(c, Next(c, s, PullerGo(created)))
  {
  }

  lemma PullerBidden(c: Params, s: State, created: bool)
    requires c.Valid() && Inv(c, s) && Enabled(s, PullerGo(created)) && s.q.pc.VfWait?
    ensures Inv(c, Next(c, s, PullerGo(created)))
  {
  }

  lemma SliceBelow(file: seq<byte>, was: seq<byte>, start: nat, len: nat, bound: nat)
    requires |file| == |was| && start + len <= bound <= |was|
    requires forall i | 0 <= i < bound :: file[i] == was[i]
    ensures Slice(file, start, len) == Slice(was, start, len)
  {
  }

  /** An earlier chunk does not change when all bytes before the current one stay as they are. */
  lemma EarlierChunk(c: Params, q: Q.State, file: seq<byte>, k: u32)
    requires c.Valid() && PullerOnChunk(c, q) && 1 <= k < q.sequence
    requires |q.file| == |file| == |c.push.file| && q.start <= |file|
    requires forall i | 0 <= i < q.start :: file[i] == q.file[i]
    ensures ChunkOk(c, q.file, k) <==> ChunkOk(c, file, k)
  {
    hide Calc.Offset, P.Conf.Valid;
    c.push.ChunksDisjoint(k, q.sequence);
    SliceBelow(file, q.file, P.Start(c.push, k), P.Len(c.push, k), q.start);
  }

  /** Bytes written at the cursor stay inside the puller's current chunk, so they miss every accepted one. */
  lemma WriteKeepsAccepted(c: Params, q: Q.State, data: seq<byte>)
    requires c.Valid() && PullerOk(c, q) && Accepted(c, q) && q.pc.DataPull? && q.pc.off + |data| <= q.len
    ensures Accepted(c, q.(file := WriteAt(q.file, q.start + q.pc.off, data)))
    ensures |WriteAt(q.file, q.start + q.pc.off, data)| == |q.file|
  {
    hide Calc.Offset, P.Conf.Valid;
    var file := WriteAt(q.file, q.start + q.pc.off, data);
    c.push.Geometry(q.sequence);
    forall k: u32 | 1 <= k < q.sequence
      ensures ChunkOk(c, file, k)
    {
      EarlierChunk(c, q, file, k);
    }
  }

  lemma PullerReceivesKeeps(c: Params, s: State, dgram: seq<byte>)
    requires c.Valid() && Inv(c, s) && Enabled(s, PullerGets(dgram))
    ensures Inv(c, PullerReceives(c, s, dgram))
  {
    hide Calc.Offset, P.Conf.Valid;
    var n := Calc.SegmentAt(Q.SegSize(s.q), s.q.len, s.q.pc.off);
    if n <= |dgram| {
      WriteKeepsAccepted(c, s.q, dgram[..n]);
    }
  }

  /** A failure stops an end where it stands. */
  lemma PusherFailureKeeps(c: Params, s: State, st: IoStatus)
    requires Inv(c, s) && !P.Halted(s.p)
    ensures Inv(c, s.(p := P.Step(c.push, s.p, Fault(st))))
  {
    hide Calc.Offset, PullerOk, Accepted;
  }

  lemma PullerFailureKeeps(c: Params, s: State, st: IoStatus)
    requires Inv(c, s) && !Q.Halted(s.q)
    ensures Inv(c, s.(q := Q.Step(c.pull, s.q, Fault(st))))
  {
    hide Calc.Offset, PusherOk;
  }

  /** The invariant never looks at the datagrams in flight. */
  lemma AnyNetKeeps(c: Params, s: State, net: seq<seq<byte>>)
    requires Inv(c, s)
    ensures Inv(c, s.(net := net))
  {
    hide PusherOk, PullerOk, Accepted;
  }

  lemma PusherKeeps(c: Params, s: State)
    requires c.Valid() && Inv(c, s) && Enabled(s, PusherGo)
    ensures Inv(c, Next(c, s, PusherGo))
  {
    hide Calc.Offset, P.Conf.Valid, Inv;
    if !P.Pulls(s.p.pc) { PusherSends(c, s); }
    else if s.p.pc.HsRecv? { HandshakeAnswered(c, s); }
    else if s.p.pc.FlowRecv? { FlowAnswered(c, s); }
    else if s.p.pc.DataRecv? { DataAnswered(c, s); }
    else { VerificationAnswered(c, s); }
  }

  lemma PullerKeeps(c: Params, s: State, created: bool)
    requires c.Valid() && Inv(c, s) && Enabled(s, PullerGo(created))
    ensures Inv(c, Next(c, s, PullerGo(created)))
  {
    hide Calc.Offset, P.Conf.Valid, Inv;
    if s.q.pc.HsWait? { PullerGreeted(c, s, created); }
    else if s.q.pc.FlowWait? { PullerOffered(c, s, created); }
    else if s.q.pc.VfWait? { PullerBidden(c, s, created); }
    else if s.q.pc.Verdict? { PullerJudges(c, s, created); }
    else if InData(s.q.pc) { PullerWorks(c, s, created); }
    else if s.q.pc.FlowAck? { PullerAgrees(c, s, created); }
    else { PullerReplies(c, s, created); }
  }

  /** Every action keeps the invariant. */
  lemma InvKept(c: Params, s: State, a: Action)
    requires c.Valid() && Inv(c, s) && Enabled(s, a)
    ensures Inv(c, Next(c, s, a))
  {
    hide Calc.Offset, P.Conf.Valid, Inv;
    match a
    case PusherGo => PusherKeeps(c, s);
    case PullerGo(created) => PullerKeeps(c, s, created);
    case PullerGets(dgram) => PullerReceivesKeeps(c, s, dgram);
    case PullerTakes =>
      PullerReceivesKeeps(c, s, s.net[0]);
      AnyNetKeeps(c, PullerReceives(c, s, s.net[0]), s.net[1..]);
    case PusherFails(st) => PusherFailureKeeps(c, s, st);
    case PullerFails(st) => PullerFailureKeeps(c, s, st);
  }

  /** So it holds of every state any run from such a state reaches. */
  lemma {:induction false} InvAlong(c: Params, s: State, actions: seq<Action>)
    requires c.Valid() && Inv(c, s) && IsRun(c, s, actions)
    ensures Inv(c, Final(c, s, actions))
    decreases |actions|
  {
    hide Calc.Offset, P.Conf.Valid, Inv;
    if |actions| > 0 {
      InvKept(c, s, actions[0]);
      InvAlong(c, Next(c, s, actions[0]), actions[1..]);
    }
  }

  /** The invariant holds in every reachable state. */
  lemma InvReachable(c: Params, s: State)
    requires c.Valid() && Reachable(c, s)
    ensures Inv(c, s)
  {
    hide Inv;
    InvInit(c);
    var actions: seq<Action> :| IsRun(c, Init(c), actions) && Final(c, Init(c), actions) == s;
    InvAlong(c, Init(c), actions);
  }
}
