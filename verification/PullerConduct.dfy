/** What the puller says and concludes against any peer and network at all. */
module PullerConduct {
  import opened Types
  import opened Wire
  import opened Io
  import opened Runs
  import opened MFiles
  import opened Joint
  import opened Conduct
  import Calc
  import Local
  import Q = PullerMachine

  /** The sizes are those of the first packet, and a file that was made has the size they amount to. */
  ghost predicate Greeted(s: Q.State, heard: seq<Packet>) {
    && |heard| > 0 && heard[0].Send?
    && s.chsize == heard[0].chsize && s.chcount == heard[0].chcount && s.pchsize == heard[0].pchsize
    && (|s.file| == 0 || |s.file| == Calc.FileSize(heard[0].chcount, heard[0].chsize, heard[0].pchsize))
  }

  /** The first answer says whether there is a file; each later one numbers its chunk by the ACKs given before it. */
  ghost predicate Replied(s: Q.State, told: seq<Packet>) {
    && |told| > 0 && told[0] == Recv(if |s.file| > 0 then 1 else 0, 0, 0)
    && forall k | 1 <= k < |told| ::
         told[k].Recv? && told[k].ack <= 1 && told[k].check == 0 && told[k].answered == Ones(told[1..k]) / 2 + 1
  }

  predicate OnChunk(s: Q.State) {
    1 <= s.sequence <= s.chcount && s.len == if s.sequence < s.chcount then s.chsize else s.pchsize
  }

  /** The last packet offers the puller's chunk, or does not. */
  predicate Offered(s: Q.State, heard: seq<Packet>) {
    && |heard| > 0 && heard[|heard| - 1].Flow?
    && heard[|heard| - 1].sequence == s.sequence && heard[|heard| - 1].chunkSize == s.len
  }

  predicate Misfit(s: Q.State, heard: seq<Packet>) { |heard| > 0 && heard[|heard| - 1].Flow? && !Offered(s, heard) }

  predicate InData(pc: Q.Pc) { pc.Prep? || pc.DataPull? || pc.Sync? || pc.Verdict? }

  /** What the puller has said and heard by the time it stands at `s`. */
  ghost predicate PullerStory(c: Q.Conf, s: Q.State, told: seq<Packet>, heard: seq<Packet>) {
    if s.pc.HsWait? then told == [] && heard == []
    else if s.pc == Q.Done(BADTYPE) && heard == [] then told == []
    else
      && Greeted(s, heard)
      && if s.pc.HsReply? then told == [] && |heard| == 1 else Replied(s, told) && PullerPart(c, s, told, heard)
  }

  ghost predicate PullerPart(c: Q.Conf, s: Q.State, told: seq<Packet>, heard: seq<Packet>) {
    var answers := Rest(told);
    match s.pc
    case FlowWait =>
      && |heard| == s.sequence && OnChunk(s) && s.tries == c.tries
      && Others(answers) == 0 && Ones(answers) == 2 * (s.sequence - 1)
    case FlowAck =>
      && OnChunk(s) && s.tries == c.tries && Others(answers) == 0 && Ones(answers) == 2 * (s.sequence - 1)
      && |heard| == s.sequence + 1 && Offered(s, heard) && s.want == heard[|heard| - 1].crc32
    case BadFlow =>
      && s.fault.None? && |heard| == s.sequence + 1 && OnChunk(s) && Misfit(s, heard)
      && Others(answers) == 0 && Ones(answers) == 2 * (s.sequence - 1)
    case VfWait => |heard| == s.sequence && Ones(answers) == 2 * s.chcount && s.sequence == s.chcount + 1
    case VfReply(matches) =>
      && Ones(answers) == 2 * s.chcount && s.sequence == s.chcount + 1
      && |heard| == s.sequence + 1 && heard[|heard| - 1].Send?
      && (matches <==> heard[|heard| - 1].crc == c.crc16(s.file))
    case Done(st) => s.fault.None? && PullerEnd(c, s, st, told, heard)
    case _ =>
      && InData(s.pc) && |heard| == s.sequence + 1 && OnChunk(s)
      && Offered(s, heard) && s.want == heard[|heard| - 1].crc32
      && Ones(answers) == 2 * s.sequence - 1 && 0 < s.tries == c.tries - Others(answers)
  }

  /** What every status of the puller's own means. */
  ghost predicate PullerEnd(c: Q.Conf, s: Q.State, st: Status, told: seq<Packet>, heard: seq<Packet>) {
    match st
    case SUCCESS =>
      && s.sequence == s.chcount + 1 && |told| >= 2 && Ones(told[1..|told| - 1]) == 2 * s.chcount
      && |heard| == s.chcount + 2 && heard[|heard| - 1].Send?
      && told[|told| - 1] == Recv(if heard[|heard| - 1].crc == c.crc16(s.file) then 1 else 0, 0, s.sequence)
    case EXPTRY0 =>
      && |heard| == s.sequence + 1 && Offered(s, heard) && OnChunk(s)
      && Ones(Rest(told)) == 2 * s.sequence - 1 && Others(Rest(told)) == c.tries
    case EMFSEEK =>
      && |heard| == s.sequence + 1 && OnChunk(s) && Offered(s, heard)
      && Ones(Rest(told)) == 2 * s.sequence - 1 && !SeekAccepted(|s.file|, s.start)
    case BADFLOW =>
      && |heard| == s.sequence + 1 && OnChunk(s) && Misfit(s, heard)
      && Ones(Rest(told)) == 2 * (s.sequence - 1) && Others(Rest(told)) <= 1
    case BADTYPE => |heard| == s.sequence
    case _ => false
  }

  function PullerHears(s: Q.State, e: Event): seq<Packet> {
    if Q.Pulls(s.pc) && e.Ok? && Q.Wanted(s.pc, e.packet) then [e.packet] else []
  }

  function PullerTells(c: Q.Conf, s: Q.State, e: Event): seq<Packet> { if e.Ok? then Controls(Q.Emit(c, s)) else [] }

  lemma ReplyAdded(s: Q.State, t: Q.State, told: seq<Packet>, p: Packet)
    requires Replied(s, told) && |t.file| == |s.file|
    requires p.Recv? && p.ack <= 1 && p.check == 0 && p.answered == Ones(Rest(told)) / 2 + 1
    ensures Replied(t, told + [p])
  {
    hide Ones;
    var more := told + [p];
    forall k | 1 <= k < |more|
      ensures more[k].Recv? && more[k].ack <= 1 && more[k].check == 0 && more[k].answered == Ones(more[1..k]) / 2 + 1
    {
      assert more[1..k] == told[1..k];
    }
  }

  /** Only a file of this many chunks makes the chunk number wrap. */
  predicate Countable(s: Q.State) { s.chcount < POW32 - 1 }

  lemma RepliedSome(s: Q.State, told: seq<Packet>)
    requires Replied(s, told)
    ensures |told| > 0
  {
  }

  lemma ProceedKeeps(c: Q.Conf, s: Q.State, heard: seq<Packet>)
    requires Greeted(s, heard) && (s.pc.FlowAck? || s.pc.BadFlow? || s.pc.Verdict? || s.pc.VfReply?)
    ensures Greeted(Q.Proceed(c, s), heard) && Q.Proceed(c, s).file == s.file
  {
    hide Calc.FileSize, Calc.Offset;
  }

  lemma PullerSays(c: Q.Conf, s: Q.State, told: seq<Packet>, heard: seq<Packet>)
    requires PullerStory(c, s, told, heard) && !Q.Halted(s) && Countable(s) && c.tries > 0
    requires s.pc.FlowAck? || s.pc.BadFlow? || s.pc.VfReply?
    ensures PullerStory(c, Q.Proceed(c, s), told + Controls(Q.Emit(c, s)), heard)
  {
    hide Calc.Offset, Ones, Others, Greeted, Replied;
    var p := Q.Emit(c, s)[0].packet;
    OneMore(Rest(told), p);
    ReplyAdded(s, Q.Proceed(c, s), told, p);
    ProceedKeeps(c, s, heard);
    RepliedSome(s, told);
    RestGrows(told, p);
    assert (told + [p])[1..|told|] == Rest(told);
  }

  lemma PullerJudges(c: Q.Conf, s: Q.State, told: seq<Packet>, heard: seq<Packet>)
    requires PullerStory(c, s, told, heard) && !Q.Halted(s) && Countable(s) && c.tries > 0 && s.pc.Verdict?
    ensures PullerStory(c, Q.Proceed(c, s), told + Controls(Q.Emit(c, s)), heard)
  {
    hide Calc.Offset, Ones, Others, Q.ChunkMatches, Greeted, Replied;
    var p := Q.Emit(c, s)[0].packet;
    Calc.SmallMod(s.sequence + 1, POW32);
    OneMore(Rest(told), p);
    ReplyAdded(s, Q.Proceed(c, s), told, p);
    ProceedKeeps(c, s, heard);
    RepliedSome(s, told);
    RestGrows(told, p);
  }

  lemma PullerMoves(c: Q.Conf, s: Q.State, told: seq<Packet>, heard: seq<Packet>)
    requires PullerStory(c, s, told, heard) && !Q.Halted(s) && Countable(s) && c.tries > 0
    requires s.pc.HsReply? || s.pc.Prep? || s.pc.Sync?
    ensures PullerStory(c, Q.Proceed(c, s), told + Controls(Q.Emit(c, s)), heard)
  {
    hide Calc.Offset, Calc.FileSize, Ones, Others;
    OneMore([], Recv(0, 0, 0));
    assert told + [] == told && (s.pc.HsReply? ==> Rest(Controls(Q.Emit(c, s))) == []);
    assert s.pc.HsReply? ==> told + Controls(Q.Emit(c, s)) == Controls(Q.Emit(c, s));
  }

  lemma PullerHeard1(c: Q.Conf, s: Q.State, told: seq<Packet>, heard: seq<Packet>, p: Packet, created: bool)
    requires PullerStory(c, s, told, heard) && !Q.Halted(s) && Q.Pulls(s.pc) && Q.Wanted(s.pc, p)
    ensures PullerStory(c, Q.Told(c, s, p, created), told, heard + [p])
  {
    hide Calc.Offset, Calc.FileSize, Ones, Others;
  }

  lemma PullerReceives(c: Q.Conf, s: Q.State, told: seq<Packet>, heard: seq<Packet>, dgram: seq<byte>)
    requires PullerStory(c, s, told, heard) && !Q.Halted(s) && s.pc.DataPull?
    requires |dgram| >= Calc.SegmentAt(Q.SegSize(s), s.len, s.pc.off)
    ensures PullerStory(c, Q.Took(s, dgram), told, heard)
  {
    hide Calc.Offset, Calc.FileSize, Calc.SegmentSize, Ones, Others, WriteAt;
  }

  lemma PullerSteps(c: Q.Conf, s: Q.State, told: seq<Packet>, heard: seq<Packet>, e: Event)
    requires PullerStory(c, s, told, heard) && !Q.Halted(s) && Countable(s) && c.tries > 0
    ensures PullerStory(c, Q.Step(c, s, e), told + PullerTells(c, s, e), heard + PullerHears(s, e))
  {
    hide PullerStory, Q.Proceed, Q.Told, Q.Took, Q.Emit;
    assert told + [] == told && heard + [] == heard;
    if e.Fault? || (s.pc.DataPull? && |e.dgram| < Calc.SegmentAt(Q.SegSize(s), s.len, s.pc.off)) {
      PullerStops(c, s, told, heard, if e.Fault? then e.st else LOWSIZE);
      QuietCalls(c, s);
    } else if s.pc.DataPull? {
      PullerReceives(c, s, told, heard, e.dgram);
      QuietCalls(c, s);
    } else if Q.Pulls(s.pc) {
      QuietCalls(c, s);
      if Q.Wanted(s.pc, e.packet) { PullerHeard1(c, s, told, heard, e.packet, e.flag); }
      else { PullerMisled(c, s, told, heard); }
    } else if s.pc.Verdict? {
      PullerJudges(c, s, told, heard);
    } else if s.pc.HsReply? || s.pc.Prep? || s.pc.Sync? {
      PullerMoves(c, s, told, heard);
    } else {
      PullerSays(c, s, told, heard);
    }
  }

  lemma QuietCalls(c: Q.Conf, s: Q.State)
    ensures s.pc.DataPull? || Q.Pulls(s.pc) ==> Controls(Q.Emit(c, s)) == []
  {
  }

  /** A failure stops the puller where it stands, except that nobody looks at the result of the BADFLOW answer. */
  lemma PullerStops(c: Q.Conf, s: Q.State, told: seq<Packet>, heard: seq<Packet>, st: IoStatus)
    requires PullerStory(c, s, told, heard) && !Q.Halted(s)
    ensures !s.pc.BadFlow? ==> PullerStory(c, s.(fault := Some(st)), told, heard)
    ensures s.pc.BadFlow? ==> PullerStory(c, s.(pc := Q.Done(BADFLOW)), told, heard)
  {
    hide Calc.FileSize, Ones, Others;
  }

  lemma PullerMisled(c: Q.Conf, s: Q.State, told: seq<Packet>, heard: seq<Packet>)
    requires PullerStory(c, s, told, heard) && !Q.Halted(s) && Q.Pulls(s.pc)
    ensures PullerStory(c, s.(pc := Q.Done(BADTYPE)), told, heard)
  {
    hide Calc.FileSize, Ones, Others;
  }

  lemma PullerTellsMore(c: Q.Conf, r: Run<Q.State>, e: Event)
    ensures Local.Packets(Q.After(c, r, e).log) == Local.Packets(r.log) + PullerTells(c, r.s, e)
  {
    PacketsAppend(r.log, if e.Ok? then Q.Emit(c, r.s) else []);
    assert r.log + [] == r.log;
  }

  /** The number of chunks does not change once the puller has it. */
  lemma {:induction false} CountStays(c: Q.Conf, r: Run<Q.State>, script: seq<Event>, at: nat)
    requires !r.s.pc.HsWait?
    ensures Exec(Q.Receiver(c), r, script, at).s.chcount == r.s.chcount
    decreases |script| - at
  {
    ExecUnfolds(Q.Receiver(c), r, script, at);
    if !Q.Halted(r.s) && at < |script| {
      CountStays(c, Q.After(c, r, script[at]), script, at + 1);
    }
  }

  lemma {:induction false} PullerStoryAlong(c: Q.Conf, r: Run<Q.State>, heard: seq<Packet>, script: seq<Event>, at: nat)
    requires c.tries > 0 && PullerStory(c, r.s, Local.Packets(r.log), heard) && Countable(r.s)
    ensures var last := Exec(Q.Receiver(c), r, script, at);
            Countable(last.s) ==>
              PullerStory(c, last.s, Local.Packets(last.log), heard + Local.PullerPulled(c, r.s, script, at))
    decreases |script| - at
  {
    hide PullerStory, Exec, Local.Packets, Q.Emit, Q.Step;
    ExecUnfolds(Q.Receiver(c), r, script, at);
    var e := EventAt(script, at);
    if Q.Halted(r.s) {
      assert heard + [] == heard;
    } else {
      PullerSteps(c, r.s, Local.Packets(r.log), heard, e);
      PullerTellsMore(c, r, e);
      var next := Q.After(c, r, e);
      if at >= |script| {
        assert heard + PullerHears(r.s, e) == heard;
      } else if Countable(next.s) {
        PullerStoryAlong(c, next, heard + PullerHears(r.s, e), script, at + 1);
        assert heard + (PullerHears(r.s, e) + Local.PullerPulled(c, next.s, script, at + 1))
               == (heard + PullerHears(r.s, e)) + Local.PullerPulled(c, next.s, script, at + 1);
      } else {
        LeavesHsWait(c, r.s, e);
        CountStays(c, next, script, at + 1);
      }
    }
  }

  lemma LeavesHsWait(c: Q.Conf, s: Q.State, e: Event)
    requires !Q.Halted(s) && Countable(s) && !Countable(Q.Step(c, s, e))
    ensures !Q.Step(c, s, e).pc.HsWait?
  {
  }

  /** The run of the puller's loops against a script, and the packets they pull in it. */
  function PullerRun(c: Q.Conf, script: seq<Event>): Run<Q.State> {
    Exec(Q.Receiver(c), Run(Q.Init(c), []), script, 0)
  }

  function PullerHeard(c: Q.Conf, script: seq<Event>): seq<Packet> { Local.PullerPulled(c, Q.Init(c), script, 0) }

  lemma PullerConducts(c: Q.Conf, script: seq<Event>)
    requires c.tries > 0 && Countable(PullerRun(c, script).s)
    ensures PullerStory(c, PullerRun(c, script).s, Local.Packets(PullerRun(c, script).log), PullerHeard(c, script))
  {
    hide Exec, Ones, Others;
    PullerStoryAlong(c, Run(Q.Init(c), []), [], script, 0);
    assert [] + PullerHeard(c, script) == PullerHeard(c, script);
  }

  /** Against any peer: what the puller has been told and has answered for each status of its own. */
  lemma PullerStatuses(c: Q.Conf, script: seq<Event>)
    requires c.tries > 0 && Countable(PullerRun(c, script).s)
    requires PullerRun(c, script).s.fault.None? && PullerHeard(c, script) != []
    ensures PullerRun(c, script).s.pc.Done?
    ensures var run := PullerRun(c, script);
            && Greeted(run.s, PullerHeard(c, script)) && Replied(run.s, Local.Packets(run.log))
            && PullerEnd(c, run.s, run.s.pc.st, Local.Packets(run.log), PullerHeard(c, script))
  {
    hide Exec, PullerEnd, Greeted, Replied;
    PullerConducts(c, script);
    Q.ReceiverStops(c);
  }

  /** A FLOW packet for another chunk, or of another length, ends in BADFLOW even if the answer to it cannot be sent. */
  lemma MisfitIsRefused(c: Q.Conf, script: seq<Event>)
    requires c.tries > 0 && Countable(PullerRun(c, script).s)
    requires var s := PullerRun(c, script).s;
             && 1 <= s.sequence <= s.chcount && |PullerHeard(c, script)| == s.sequence + 1
             && Misfit(s, PullerHeard(c, script))
    ensures Q.Outcome(PullerRun(c, script).s) == BADFLOW
  {
    hide Exec, Greeted, Replied, Ones, Others;
    PullerConducts(c, script);
    Q.ReceiverStops(c);
  }
}
