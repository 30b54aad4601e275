/** source/puller.c as the nested loops it is, proved to run exactly the machine of `PullerMachine`. */
module Puller {
  import opened Types
  import opened Wire
  import opened Io
  import opened Runs
  import opened MFiles
  import opened Data
  import opened PullerMachine
  import Calc

  /** A trace and where it ends. */
  ghost predicate Traces(c: Conf, trace: seq<Run<State>>, last: Run<State>, script: seq<Event>) {
    |trace| > 0 && IsTrace(Receiver(c), Init(c), trace, script) && last == trace[|trace| - 1]
  }

  predicate SameNumbers(s: State, t: State) {
    s.sequence == t.sequence && s.chsize == t.chsize && s.pchsize == t.pchsize && s.chcount == t.chcount
  }

  /** An end of a part of `pull_chunk_data` that began in `prior`: at `pc` with the file, or stopped with the status. */
  predicate EndsAt(prior: State, pc: Pc, r: Received, trace: seq<Run<State>>, last: State) {
    && |trace| == r.at + 1 && last.file == r.file && SameNumbers(last, prior)
    && if r.st == SUCCESS then last == prior.(pc := pc, file := r.file) else Halted(last) && Outcome(last) == r.st
  }

  /** One more entry. */
  lemma Extend(c: Conf, trace: seq<Run<State>>, last: Run<State>, script: seq<Event>)
    returns (longer: seq<Run<State>>, next: Run<State>)
    requires Traces(c, trace, last, script) && !Halted(last.s)
    ensures next == After(c, last, EventAt(script, |trace| - 1)) && Traces(c, longer, next, script)
    ensures |longer| == |trace| + 1
  {
    hide Step, Emit;
    next := After(c, last, EventAt(script, |trace| - 1));
    longer := trace + [next];
  }

  /** What receiving a datagram does to the machine. */
  lemma DataPullStep(c: Conf, r: Run<State>, e: Event)
    requires r.s.pc.DataPull? && r.s.fault.None? && r.s.pc.off < r.s.len && SegSize(r.s) > 0
    ensures var s, off, next := r.s, r.s.pc.off, After(c, r, e);
            var n := Min(SegSize(s), s.len - off);
            && next.log == r.log
            && if e.Ok? && |e.dgram| >= n then
                 next.s == s.(pc := if n < s.len - off then DataPull(off + n) else Sync,
                              file := WriteAt(s.file, s.start + off, e.dgram[..n]))
               else
                 && Halted(next.s) && SameNumbers(next.s, s) && next.s.file == s.file
                 && Outcome(next.s) == if e.Fault? then e.st else LOWSIZE
  {
    hide WriteAt, SegSize;
    assert r.log + [] == r.log;
  }

  /** What a call that delivers nothing does to it. */
  lemma QuietStep(c: Conf, r: Run<State>, e: Event)
    requires (r.s.pc.Prep? || r.s.pc.Sync?) && r.s.fault.None?
    ensures var s, next := r.s, After(c, r, e);
            && next.log == r.log
            && if e.Ok? then
                 next.s == s.(pc := if s.pc.Sync? then Verdict else if s.len == 0 then Sync else DataPull(0))
               else Halted(next.s) && SameNumbers(next.s, s) && next.s.file == s.file && Outcome(next.s) == e.st
  {
    assert r.log + [] == r.log;
  }

  /** The receiving loop makes the machine's DataPull steps, one per segment. */
  lemma {:induction false} TraceDataPull(c: Conf, trace: seq<Run<State>>, r: Run<State>, off: nat, script: seq<Event>)
    returns (longer: seq<Run<State>>, last: Run<State>)
    requires Traces(c, trace, r, script)
    requires r.s.pc == DataPull(off) && r.s.fault.None? && SegSize(r.s) > 0 && off <= r.s.len
    requires off < r.s.len
    ensures Traces(c, longer, last, script) && last.log == r.log && |longer| >= |trace|
    ensures var r' := ReceiveAll(r.s.file, r.s.start + off, r.s.len - off, SegSize(r.s), script, |trace| - 1);
            EndsAt(r.s, Sync, r', longer, last.s)
    decreases r.s.len - off
  {
    hide IsTrace, Receiver, After, WriteAt, ReceiveAll, Calc.SegmentSize;
    var s, at, len: nat := r.s, |trace| - 1, r.s.len - off;
    var n, e := Min(SegSize(s), len), EventAt(script, at);
    longer, last := Extend(c, trace, r, script);
    DataPullStep(c, r, e);
    if e.Ok? && |e.dgram| >= n {
      ReceiveTurn(s.file, s.start + off, len, SegSize(s), script, at);
      if n < len {
        longer, last := TraceDataPull(c, longer, last, off + n, script);
      } else {
        ReceiveNothing(last.s.file, s.start + off + n, SegSize(s), script, at + 1);
      }
    } else {
      ReceiveStops(s.file, s.start + off, len, SegSize(s), script, at);
    }
  }

  /** The loop and `mfsync` of `pull_chunk_data`. */
  lemma TraceSegmentsAndSync(c: Conf, trace: seq<Run<State>>, r: Run<State>, script: seq<Event>)
    returns (longer: seq<Run<State>>, last: Run<State>)
    requires Traces(c, trace, r, script) && r.s.fault.None? && (SegSize(r.s) > 0 || r.s.len == 0)
    requires r.s.pc == if r.s.len == 0 then Sync else DataPull(0)
    ensures Traces(c, longer, last, script) && last.log == r.log && |longer| >= |trace|
    ensures var segments := ReceiveAll(r.s.file, r.s.start, r.s.len, SegSize(r.s), script, |trace| - 1);
            EndsAt(r.s, Verdict, if segments.st == SUCCESS then Attempt(segments, script) else segments, longer, last.s)
  {
    hide IsTrace, Receiver, After, WriteAt, ReceiveAll, Calc.SegmentSize;
    longer, last := trace, r;
    if r.s.len > 0 {
      longer, last := TraceDataPull(c, longer, last, 0, script);
    } else {
      ReceiveNothing(r.s.file, r.s.start, SegSize(r.s), script, |trace| - 1);
    }
    if !Halted(last.s) {
      QuietStep(c, last, EventAt(script, |longer| - 1));
      longer, last := Extend(c, longer, last, script);
    }
  }

  /** `pull_chunk_data` takes the machine from StartData to the verdict, or to the status it returns. */
  lemma TracePullChunk(c: Conf, trace: seq<Run<State>>, r: Run<State>, prior: State, script: seq<Event>)
    returns (longer: seq<Run<State>>, last: Run<State>)
    requires Traces(c, trace, r, script) && prior.fault.None? && (SegSize(prior) > 0 || prior.len == 0)
    requires r.s == StartData(prior)
    ensures Traces(c, longer, last, script) && last.log == r.log && |longer| >= |trace|
    ensures var r' := PullChunk(prior.file, prior.start, prior.len, SegSize(prior), script, |trace| - 1);
            EndsAt(prior, Verdict, r', longer, last.s)
  {
    hide IsTrace, Receiver, After, ReceiveAll, Calc.SegmentSize;
    longer, last := trace, r;
    if last.s.pc.Prep? {
      QuietStep(c, last, EventAt(script, |longer| - 1));
      longer, last := Extend(c, longer, last, script);
    }
    if !Halted(last.s) {
      longer, last := TraceSegmentsAndSync(c, longer, last, script);
    }
  }

  /** A FLOW packet that is not about the chunk a puller in this state is on. */
  predicate Misfits(s: State, p: Packet) {
    p.Flow? && (p.sequence != s.sequence || p.chunkSize != if s.sequence == s.chcount then s.pchsize else s.chsize)
  }

  lemma MisfitStep(c: Conf, s: State, e: Event)
    requires !Halted(s) && !s.pc.BadFlow? && Step(c, s, e).pc.BadFlow?
    ensures e.Ok? && Misfits(Step(c, s, e), e.packet)
  {
    hide Calc.SegmentSize, Calc.FileSize, Calc.Offset, WriteAt;
  }

  lemma LastStep(c: Conf, r: Run<State>, e: Event)
    requires !Halted(r.s) && Halted(After(c, r, e).s)
    ensures var last := After(c, r, e);
            var st := Outcome(last.s);
            && (e.Fault? ==> st == if r.s.pc.BadFlow? then BADFLOW else e.st)
            && (e.Ok? && IsIoFault(st) ==> st == LOWSIZE && r.s.pc.DataPull? && |e.dgram| < SegSize(last.s))
            && (st == BADTYPE ==> e.Ok? && Pulls(r.s.pc) && !Wanted(r.s.pc, e.packet))
            && (st == BADFLOW ==> r.s.pc.BadFlow? && SameNumbers(last.s, r.s))
            && (st == BADFLOW && e.Ok? ==> last.log == r.log + [Control(Recv(0, 0, last.s.sequence))])
  {
    hide Calc.SegmentSize, Calc.FileSize, Calc.Offset, WriteAt;
  }

  /**
   * The last call of a run that has come to a halt. The status is that of the call if it failed, unless it was the
   * answer to a FLOW packet that does not match; that answer is a NACK with the chunk's number. A call that succeeded
   * ends the run with LOWSIZE only for a datagram that is too short, and with BADTYPE only for another packet.
   */
  lemma LastCall(c: Conf, trace: seq<Run<State>>, script: seq<Event>)
    requires IsTrace(Receiver(c), Init(c), trace, script) && Halted(trace[|trace| - 1].s)
    ensures |trace| > 1
    ensures var e, last := EventAt(script, |trace| - 2), trace[|trace| - 1];
            var st := Outcome(last.s);
            && (e.Fault? ==> st == e.st || st == BADFLOW)
            && (e.Ok? && IsIoFault(st) ==> st == LOWSIZE && |e.dgram| < SegSize(last.s))
            && (st == BADTYPE ==> e.Ok? && !Wanted(trace[|trace| - 2].s.pc, e.packet))
            && (st == BADFLOW ==>
                  && |trace| > 2 && EventAt(script, |trace| - 3).Ok?
                  && Misfits(last.s, EventAt(script, |trace| - 3).packet)
                  && (e.Ok? ==> |last.log| > 0 && last.log[|last.log| - 1] == Control(Recv(0, 0, last.s.sequence))))
  {
    hide After, Step, SegSize;
    var k := |trace| - 2;
    if k >= 0 {
      assert trace[k + 1] == Receiver(c).after(trace[k], EventAt(script, k));
      LastStep(c, trace[k], EventAt(script, k));
      if trace[k].s.pc.BadFlow? && k > 0 {
        assert trace[k] == Receiver(c).after(trace[k - 1], EventAt(script, k - 1));
        BadFlowFrom(c, trace[k - 1], EventAt(script, k - 1));
      }
    }
  }

  lemma BadFlowFrom(c: Conf, r: Run<State>, e: Event)
    requires !Halted(r.s) && After(c, r, e).s.pc.BadFlow? && !Halted(After(c, r, e).s)
    ensures e.Ok? && Misfits(After(c, r, e).s, e.packet)
  {
    hide Calc.SegmentSize, Calc.FileSize, Calc.Offset, WriteAt, Emit;
    if !r.s.pc.BadFlow? { MisfitStep(c, r.s, e); }
  }

  class PullEnd {
    const io: Kernel
    const tfTryCount: nat
    const crc32: seq<byte> -> u32
    const crc16: seq<byte> -> u16
    var stream: MFile
    var chsize: u16
    var pchsize: u16
    var chcount: u32
    var sequence: u32
    var segsize: nat

    /** The configuration as the machine sees it, where the machine stands, and how it came there. */
    ghost const conf: Conf
    ghost var state: State
    ghost var trace: seq<Run<State>>

    ghost predicate Valid()
      reads this, stream, stream.buf
    {
      && stream.Valid() && conf == Conf(tfTryCount, crc32, crc16) && tfTryCount > 0
    }

    /** The kernel calls made so far have brought the machine where it stands, and it holds the mapped file. */
    ghost predicate Tracks()
      reads this, io, stream
    {
      stream.contents == state.file && Follows()
    }

    ghost predicate Follows()
      reads this, io
    {
      && IsTrace(Receiver(conf), Init(conf), trace, io.script)
      && |trace| == io.at + 1 && trace[io.at] == Run(state, io.log)
    }

    /** The machine holds the same negotiated numbers. */
    ghost predicate AgreesWith(s: State)
      reads this
    {
      chsize == s.chsize && pchsize == s.pchsize && chcount == s.chcount
    }

    ghost predicate Agrees()
      reads this
    {
      AgreesWith(state)
    }

    /** The machine is at the top of the chunk loop. */
    ghost predicate AtTop()
      reads this
    {
      state.fault.None? && state == Enter(conf, state, sequence)
    }

    constructor (io: Kernel, tfTryCount: nat, crc32: seq<byte> -> u32, crc16: seq<byte> -> u16)
      requires tfTryCount > 0
      ensures Valid() && this.io == io && fresh(stream) && fresh(stream.buf)
      ensures conf == Conf(tfTryCount, crc32, crc16) && stream.contents == []
    {
      this.io, this.tfTryCount, this.crc32, this.crc16 := io, tfTryCount, crc32, crc16;
      chsize, pchsize, chcount, sequence, segsize := 0, 0, 0, 0, 0;
      conf := Conf(tfTryCount, crc32, crc16);
      stream := new MFile([], false);
    }

    /** `push_RECV_header`. */
    method PushHeader(packet: Packet) returns (st: Status)
      requires Valid() && Tracks() && !Halted(state) && !Pulls(state.pc) && !state.pc.DataPull?
      requires Emit(conf, state) == [Control(packet)]
      modifies io, this`state, this`trace
      ensures Valid() && Tracks() && io.at == old(io.at) + 1
      ensures if old(state).pc.BadFlow? then state == old(state).(pc := Done(BADFLOW))
              else if st == SUCCESS then state == Proceed(conf, old(state))
              else Halted(state) && Outcome(state) == st && SameNumbers(state, old(state))
    {
      ghost var e := EventAt(io.script, io.at);
      st := io.Push(Control(packet));
      state := Step(conf, state, e);
      trace := trace + [Run(state, io.log)];
    }

    /** `pull_SEND_header` and `pull_FLOW_header`: any other type at the head of the stream is BADTYPE. */
    method PullHeader(flow: bool) returns (st: Status, packet: Packet, created: bool)
      requires Valid() && Follows() && !Halted(state) && Pulls(state.pc) && flow == state.pc.FlowWait?
      modifies io, this`state, this`trace
      ensures Valid() && Follows() && io.at == old(io.at) + 1 && (st == SUCCESS ==> old(io.at) < |io.script|)
      ensures state.file == old(state.file) || (st == SUCCESS && old(state).pc.HsWait?)
      ensures if st == SUCCESS then
                Wanted(old(state).pc, packet) && state == Told(conf, old(state), packet, created)
              else Halted(state) && Outcome(state) == st && SameNumbers(state, old(state))
    {
      hide IsTrace, Receiver, MFile.Valid, Calc.FileSize;
      packet, created := Recv(0, 0, 0), false;
      ghost var longer, next := Extend(conf, trace, trace[io.at], io.script);
      var e := io.Next();
      assert io.log + [] == io.log;
      state, trace := next.s, longer;
      if e.Fault? { return e.st, packet, created; }
      if (if flow then !e.packet.Flow? else !e.packet.Send?) { return BADTYPE, packet, created; }
      return SUCCESS, e.packet, e.flag;
    }

    /** `pull_chunk_data`. */
    method PullData(start: nat, len: u16, ghost prior: State) returns (st: Status)
      requires Valid() && Tracks() && AgreesWith(prior) && state == StartData(prior) && prior.fault.None?
      requires start == prior.start && len == prior.len && segsize == SegSize(prior) && (segsize > 0 || len == 0)
      modifies io, stream, stream.buf, this`state, this`trace
      ensures Valid() && Tracks() && io.at >= old(io.at)
      ensures if st == SUCCESS then Agrees() && state == prior.(pc := Verdict, file := stream.contents)
              else Halted(state) && Outcome(state) == st && SameNumbers(state, prior)
    {
      hide Calc.SegmentSize, PullChunk, Receiver;
      ghost var longer, last := TracePullChunk(conf, trace, trace[io.at], prior, io.script);
      st := PullChunkData(io, stream, start, len, segsize);
      trace, state := longer, last.s;
    }

    /**
     * `calc_chunk_crc32` of the mapped bytes. C reads through a null mapping when there is no file; two ends
     * running this code never get there.
     */
    method ChunkCrc32(start: nat, len: u16) returns (crc: u32)
      requires Valid()
      ensures crc == conf.crc32(Slice(stream.contents, start, len))
    {
      var chunk: seq<byte> := [];
      if stream.open && start + len as nat <= stream.buf.Length {
        chunk := stream.buf[start..start + len as nat];
      }
      assert stream.open ==> stream.buf[..] == stream.contents;
      crc := crc32(chunk);
    }

    /** `start_file_stream` in writing mode: `create_file` refuses size 0, and any other failure leaves no mapping. */
    method StartFileStream(size: nat, created: bool)
      modifies this`stream
      ensures fresh(stream) && fresh(stream.buf) && stream.Valid()
      ensures stream.contents == if created then Zeros(size) else []
      ensures stream.open <==> size > 0 && created
    {
      if size > 0 && created {
        stream := new MFile(Zeros(size), true);
      } else {
        stream := new MFile([], false);
      }
    }

    method PullHandshake() returns (st: Status)
      requires Valid() && Tracks() && state == Init(conf)
      modifies io, this
      ensures Valid() && Tracks()
      ensures (stream == old(stream) && stream.buf == old(stream.buf)) || (fresh(stream) && fresh(stream.buf))
      ensures if st == SUCCESS then AtTop() && Agrees() && sequence == state.sequence == 1
              else Halted(state) && Outcome(state) == st && sequence == old(sequence) && state.sequence == 0
    {
      hide Calc.FileSize, Calc.Offset, Calc.ChunkLen, Zeros, IsTrace, Receiver, MFile.Valid;
      var packet, created;
      st, packet, created := PullHeader(false);
      if st != SUCCESS { return; }
      chsize, pchsize, chcount := packet.chsize, packet.pchsize, packet.chcount;
      StartFileStream(Calc.FileSize(chcount, chsize, pchsize), created);
      st := PushHeader(Recv(if stream.open then 1 else 0, 0, 0));
      if st != SUCCESS { return; }
      sequence := 1;
    }

    /** The body of the inner loop: receive the chunk, check it, and answer. */
    method OneAttempt(start: nat, len: u16, want: u32, ghost prior: State) returns (st: Status, accepted: bool)
      requires Valid() && Tracks() && AgreesWith(prior) && prior.fault.None?
      requires state == StartData(prior) && prior.file == state.file && want == prior.want
      requires start == prior.start && len == prior.len && sequence == prior.sequence
      requires segsize == SegSize(prior) && (segsize > 0 || len == 0)
      modifies io, stream, stream.buf, this`state, this`trace
      ensures Valid() && Tracks() && io.at >= old(io.at)
      ensures st != SUCCESS ==> Halted(state) && Outcome(state) == st && SameNumbers(state, prior)
      ensures st == SUCCESS ==>
                var now := prior.(pc := Verdict, file := stream.contents);
                state == Proceed(conf, now) && accepted == ChunkMatches(conf, now)
    {
      hide Calc.Offset, Calc.ChunkLen, Calc.SegmentSize, IsTrace, Receiver, MFile.Valid, StartData, Enter;
      accepted := false;
      st := PullData(start, len, prior);
      if st != SUCCESS { return; }
      var crc := ChunkCrc32(start, len);
      accepted := want == crc;
      if accepted {
        st := PushHeader(Recv(1, 0, sequence));
      } else {
        st := PushHeader(Recv(0, 0, sequence));
      }
    }

    /** The inner loop: receive the chunk until its checksum agrees or the tries are used up. */
    method ReceiveLoop(start: nat, len: u16, want: u32, ghost first: State) returns (st: Status)
      requires Valid() && Tracks() && AgreesWith(first) && first.fault.None? && first.tries == tfTryCount
      requires state == StartData(first) && first.file == state.file && want == first.want
      requires start == first.start && len == first.len && sequence == first.sequence
      requires segsize == SegSize(first) && (segsize > 0 || len == 0)
      modifies io, stream, stream.buf, this`state, this`trace
      ensures Valid() && Tracks() && io.at >= old(io.at)
      ensures if st == SUCCESS then
                Agrees() && state.fault.None? && state == Enter(conf, state, (sequence + 1) % POW32)
              else Halted(state) && Outcome(state) == st && SameNumbers(state, first)
    {
      hide Calc.Offset, Calc.ChunkLen, Calc.SegmentSize, IsTrace, Receiver, MFile.Valid;
      var trycount: nat := tfTryCount;
      while trycount != 0
        invariant Valid() && Tracks() && io.at >= old(io.at)
        invariant if trycount == 0 then
                    state.fault.None? && state.pc == Done(EXPTRY0) && SameNumbers(state, first)
                  else state == StartData(first.(tries := trycount, file := stream.contents))
      {
        var accepted;
        st, accepted := OneAttempt(start, len, want, first.(tries := trycount, file := stream.contents));
        if st != SUCCESS { return; }
        if accepted { break; }
        trycount := trycount - 1;
      }
      if trycount == 0 { return EXPTRY0; }
      st := SUCCESS;
    }

    /** The top of the chunk loop: the chunk context. */
    method PrepareChunk() returns (start: nat, len: u16)
      requires Valid() && Agrees() && AtTop() && sequence <= chcount
      ensures start == state.start && len == state.len && state.tries == tfTryCount
      ensures state.pc == FlowWait && state.sequence == sequence
      ensures segsize == SegSize(state) ==> segsize > 0 || len == 0
    {
      start := Calc.Offset(sequence, chsize);
      len := Calc.ChunkLen(sequence, chcount, chsize, pchsize);
    }

    /** The body of the chunk loop up to `seq++`: agree on the chunk, then receive it. */
    method OneChunk() returns (st: Status)
      requires Valid() && Tracks() && Agrees() && AtTop() && sequence <= chcount && segsize == SegSize(state)
      modifies io, stream, stream.buf, this`state, this`trace
      ensures Valid() && Tracks() && io.at >= old(io.at)
      ensures if st == SUCCESS then
                && old(io.at) < |io.script| && io.at > old(io.at)
                && Agrees() && state.fault.None? && state == Enter(conf, state, (sequence + 1) % POW32)
              else Halted(state) && Outcome(state) == st && SameNumbers(state, old(state))
    {
      hide Calc.Offset, Calc.ChunkLen, Calc.SegmentSize, StartData, IsTrace, Receiver, MFile.Valid;
      var start, len := PrepareChunk();
      var packet, created;
      st, packet, created := PullHeader(true);
      if st != SUCCESS { return; }
      if packet.sequence == sequence && packet.chunkSize == (if sequence != chcount then chsize else pchsize) {
        ghost var first := state;
        st := PushHeader(Recv(1, 0, sequence));
        if st != SUCCESS { return; }
        st := ReceiveLoop(start, len, packet.crc32, first);
      } else {
        var ignored := PushHeader(Recv(0, 0, sequence));
        st := BADFLOW;
      }
    }

    method PullTransfer() returns (st: Status)
      requires Valid() && Tracks() && Agrees() && AtTop() && sequence == 1 && segsize == SegSize(state)
      modifies io, stream, stream.buf, this`state, this`trace, this`sequence
      ensures Valid() && Tracks() && Agrees() && sequence == state.sequence
      ensures if st == SUCCESS then AtTop() && sequence > chcount
              else Halted(state) && Outcome(state) == st
    {
      hide Calc.Offset, Calc.ChunkLen, Calc.SegmentSize, StartData, IsTrace, Receiver, MFile.Valid;
      while sequence <= chcount
        invariant Valid() && Tracks() && Agrees() && AtTop() && segsize == SegSize(state)
        decreases |io.script| - io.at
      {
        st := OneChunk();
        if st != SUCCESS { return; }
        sequence := (sequence + 1) % POW32;
      }
      st := SUCCESS;
    }

    /**
     * As in the source, the FAILCRC of a mismatch is assigned before the reply is pushed and the status of the
     * push is assigned over it.
     */
    method PullVerification() returns (st: Status)
      requires Valid() && Tracks() && state.fault.None? && state.pc == VfWait && state.sequence == sequence
      modifies io, this`state, this`trace
      ensures Valid() && Tracks() && SameNumbers(state, old(state))
      ensures Halted(state) && Outcome(state) == st
    {
      assert stream.open ==> stream.buf[..] == stream.contents;
      var crc := crc16(if stream.open then stream.buf[..] else []);
      var packet, created, reply;
      st, packet, created := PullHeader(false);
      if st != SUCCESS { return; }
      if packet.crc == crc {
        reply := Recv(1, 0, sequence);
      } else {
        reply := Recv(0, 0, sequence);
        st := FAILCRC;
      }
      st := PushHeader(reply);
    }

    /** The three phases of `start_puller`. */
    method Phases() returns (st: Status)
      requires Valid() && Tracks() && state == Init(conf)
      modifies io, this, stream, stream.buf
      ensures Valid() && Tracks() && Halted(state) && Outcome(state) == st
      ensures if state.sequence == 0 then sequence == 0 || sequence == old(sequence)
              else sequence == state.sequence && Agrees()
    {
      hide IsTrace, Receiver, MFile.Valid, Calc.SegmentSize;
      st := PullHandshake();
      if st == SUCCESS {
        segsize := Calc.SegmentSize(if chsize != 0 then chsize else pchsize);
        st := PullTransfer();
        if st == SUCCESS {
          st := PullVerification();
        }
      }
    }

    /**
     * `start_puller` after the connection is accepted: whatever the kernel answers, these loops return the status,
     * have sent the packets, and leave the file, that the machine's run ends with.
     */
    method StartPuller() returns (st: Status)
      requires Valid() && io.at == 0 && io.log == [] && stream.contents == []
      modifies io, this, stream, stream.buf
      ensures Valid()
      ensures var run := Exec(Receiver(conf), Run(Init(conf), []), io.script, 0);
              && st == Outcome(run.s) && io.log == run.log && stream.contents == run.s.file
              && (if run.s.sequence == 0 then sequence == 0 || sequence == old(sequence)
                  else sequence == run.s.sequence && AgreesWith(run.s))
      ensures io.at > 0
      ensures EventAt(io.script, io.at - 1).Fault? ==> st == EventAt(io.script, io.at - 1).st || st == BADFLOW
      ensures EventAt(io.script, io.at - 1).Ok? && IsIoFault(st) ==> st == LOWSIZE
      ensures st == BADTYPE ==> EventAt(io.script, io.at - 1).Ok?
      ensures st == BADFLOW ==>
                && io.at > 1 && EventAt(io.script, io.at - 2).Ok?
                && Misfits(state, EventAt(io.script, io.at - 2).packet)
                && (EventAt(io.script, io.at - 1).Ok? ==>
                      |io.log| > 0 && io.log[|io.log| - 1] == Control(Recv(0, 0, state.sequence)))
      ensures state == Exec(Receiver(conf), Run(Init(conf), []), io.script, 0).s
    {
      hide Exec, MFile.Valid, Calc.SegmentSize;
      state := Init(conf);
      trace := [Run(state, io.log)];
      st := Phases();
      LastCall(conf, trace, io.script);
      ReceiverStops(conf);
      HaltedTraceIsExec(Receiver(conf), Init(conf), trace, io.script);
    }
  }
}
