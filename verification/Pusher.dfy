/** source/pusher.c as the nested loops it is, proved to run exactly the machine of `PusherMachine`. */
module Pusher {
  import opened Types
  import opened Wire
  import opened Io
  import opened Runs
  import opened MFiles
  import opened Data
  import opened PusherMachine
  import Calc

  /** `push_chunk_data` makes the machine's DataSend steps, one per segment. */
  lemma {:induction false} TraceDataSend(c: Conf, trace: seq<Run<State>>, off: nat, pos: nat, len: nat,
                                         script: seq<Event>)
    returns (longer: seq<Run<State>>, last: Run<State>)
    requires c.segsize > 0 && IsTrace(Sender(c), Init(c), trace, script)
    requires var r := trace[|trace| - 1];
             && r.s.pc == DataSend(off) && r.s.fault.None?
             && 0 < len == r.s.len - off && pos == r.s.start + off && pos + len <= |c.file|
    ensures IsTrace(Sender(c), Init(c), longer, script) && last == longer[|longer| - 1]
    ensures var r := trace[|trace| - 1];
            var sent := SendAll(c.file, pos, len, c.segsize, script, |trace| - 1, r.log);
            && last.log == sent.log && |longer| == sent.at + 1
            && last.s.sequence == r.s.sequence
            && (if sent.st == SUCCESS then last.s == r.s.(pc := DataRecv)
                else Halted(last.s) && Outcome(last.s) == sent.st)
    decreases len
  {
    var r, at := trace[|trace| - 1], |trace| - 1;
    var n := Min(c.segsize, len);
    var next := After(c, r, EventAt(script, at));
    longer, last := trace + [next], next;
    if EventAt(script, at).Ok? {
      SendTurn(c.file, pos, len, c.segsize, script, at, r.log);
      assert next.log == r.log + [Datagram(c.file[pos..pos + n])];
      if n < len {
        assert next.s == r.s.(pc := DataSend(off + n));
        longer, last := TraceDataSend(c, longer, off + n, pos + n, len - n, script);
      }
    }
  }

  /**
   * The last call of a run that has come to a halt: the status is that of the call if it failed, and BADTYPE only if it
   * pulled another packet.
   */
  lemma LastCall(c: Conf, trace: seq<Run<State>>, script: seq<Event>)
    requires IsTrace(Sender(c), Init(c), trace, script) && Halted(trace[|trace| - 1].s)
    ensures |trace| > 1
    ensures var e, st := EventAt(script, |trace| - 2), Outcome(trace[|trace| - 1].s);
            && (e.Fault? ==> st == e.st)
            && (e.Ok? ==> !IsIoFault(st))
            && (st == BADTYPE ==> e.Ok? && !e.packet.Recv?)
  {
    var k := |trace| - 2;
    if k >= 0 {
      assert trace[k + 1] == Sender(c).after(trace[k], EventAt(script, k));
    }
  }

  class PushEnd {
    const io: Kernel
    const stream: MFile
    const chsize: u16
    const tfTryCount: nat
    const crc32: seq<byte> -> u32
    const crc16: seq<byte> -> u16
    var pchsize: u16
    var chcount: u32
    var sequence: u32
    var segsize: nat

    /** The configuration as the machine sees it, where the machine stands, and how it came there. */
    ghost const conf: Conf
    ghost var state: State
    ghost var trace: seq<Run<State>>

    ghost predicate Valid()
      reads this, stream, stream.buf
    {
      && stream.Valid() && stream.open && conf.Valid()
      && conf.file == stream.contents && conf.chsize == chsize && conf.tries == tfTryCount
      && conf.crc32 == crc32 && conf.crc16 == crc16
    }

    /** The kernel calls made so far have brought the machine where it stands. */
    ghost predicate Tracks()
      reads this, io
    {
      IsTrace(Sender(conf), Init(conf), trace, io.script) && |trace| == io.at + 1 && trace[io.at] == Run(state, io.log)
    }

    /** The derived numbers are in place. */
    ghost predicate Negotiated()
      reads this
    {
      chcount == conf.chcount && pchsize == conf.pchsize
    }

    /** The machine is at the top of the chunk loop. */
    ghost predicate AtTop()
      reads this
    {
      && state.fault.None? && state.sequence == sequence && state.tries == tfTryCount
      && if sequence <= conf.chcount then
           state.pc == FlowSend && state.start == Start(conf, sequence) && state.len == Len(conf, sequence)
         else state.pc == VfSend
    }

    constructor (io: Kernel, stream: MFile, chsize: u16, tfTryCount: nat,
                 crc32: seq<byte> -> u32, crc16: seq<byte> -> u16, ghost conf: Conf)
      requires stream.Valid() && stream.open && conf.Valid() && conf.file == stream.contents
      requires conf.chsize == chsize && conf.tries == tfTryCount && conf.crc32 == crc32 && conf.crc16 == crc16
      ensures Valid() && this.io == io && this.stream == stream && this.conf == conf
    {
      this.io, this.stream, this.conf := io, stream, conf;
      this.chsize, this.tfTryCount, this.crc32, this.crc16 := chsize, tfTryCount, crc32, crc16;
      pchsize, chcount, sequence, segsize := 0, 0, 0, 0;
    }

    /** `push_*_header`. */
    method PushHeader(packet: Packet) returns (st: Status)
      requires Valid() && Tracks() && !Halted(state) && !Pulls(state.pc) && Emit(conf, state) == [Control(packet)]
      modifies io, this`state, this`trace
      ensures Valid() && Tracks() && state.sequence == old(state).sequence
      ensures st != SUCCESS ==> IsIoFault(st)
      ensures if st == SUCCESS then state == Proceed(conf, old(state)) else Halted(state) && Outcome(state) == st
    {
      ghost var e := EventAt(io.script, io.at);
      st := io.Push(Control(packet));
      state := Step(conf, state, e);
      trace := trace + [Run(state, io.log)];
    }

    /** `pull_RECV_header`: any other type at the head of the stream is BADTYPE. */
    method PullRecvHeader() returns (st: Status, ack: byte)
      requires Valid() && Tracks() && !Halted(state) && Pulls(state.pc)
      modifies io, this`state, this`trace
      ensures Valid() && Tracks()
      ensures st != SUCCESS ==> (IsIoFault(st) || st == BADTYPE) && state.sequence == old(state).sequence
      ensures if st == SUCCESS then state == Answered(conf, old(state), ack) else Halted(state) && Outcome(state) == st
    {
      ack := 0;
      var e := io.Next();
      assert io.log + [] == io.log;
      state := Step(conf, state, e);
      trace := trace + [Run(state, io.log)];
      if e.Fault? { return e.st, ack; }
      if !e.packet.Recv? { return BADTYPE, ack; }
      return SUCCESS, e.packet.ack;
    }

    /** `push_chunk_data`. */
    method PushData(start: nat, len: nat, ghost prior: State) returns (st: Status)
      requires Valid() && Tracks() && state == StartData(conf, prior) && prior.fault.None?
      requires start == prior.start && len == prior.len && start + len <= |conf.file| && segsize == conf.segsize
      modifies io, stream`pos, this`state, this`trace
      ensures Valid() && Tracks() && state.sequence == prior.sequence
      ensures if st == SUCCESS then state == old(state).(pc := DataRecv) && SeekAccepted(|conf.file|, start)
              else Halted(state) && Outcome(state) == st
    {
      ghost var at, log := io.at, io.log;
      st := PushChunkData(io, stream, start, len, segsize);
      if state.pc.DataSend? {
        ghost var longer, last := TraceDataSend(conf, trace, 0, start, len, io.script);
        trace, state := longer, last.s;
      }
    }

    /** `calc_chunk_crc32`. */
    method ChunkCrc32(start: nat, len: nat) returns (crc: u32)
      requires Valid() && start + len <= |conf.file|
      ensures crc == conf.crc32(Slice(conf.file, start, len))
    {
      assert stream.buf[..] == stream.contents;
      crc := crc32(stream.buf[..][start..start + len]);
    }

    method PushHandshake() returns (st: Status)
      requires Valid() && Tracks() && state == Init(conf)
      modifies io, this`state, this`trace, this`chcount, this`pchsize, this`sequence
      ensures Valid() && Tracks() && Negotiated()
      ensures if st == SUCCESS then AtTop() else Halted(state) && Outcome(state) == st
      ensures if st == SUCCESS || st == ZEROACK then sequence == state.sequence == 1
              else sequence == old(sequence) && state.sequence == 0
    {
      var size := stream.buf.Length;
      var (count, partial) := Calc.ChunkCount(size, chsize);
      chcount, pchsize := count, partial;
      conf.Derived();
      st := PushHeader(Send(chsize, chcount, pchsize, 0));
      if st != SUCCESS { return; }
      var ack;
      st, ack := PullRecvHeader();
      if st != SUCCESS { return; }
      if ack == 0 { st := ZEROACK; }
      sequence := 1;
    }

    /** The top of the chunk loop: the chunk context and its FLOW packet. */
    method PrepareChunk() returns (start: nat, len: u16, flow: Packet)
      requires Valid() && Negotiated() && AtTop() && 1 <= sequence <= chcount
      ensures start == state.start && len == state.len && flow == Offer(conf, state)
      ensures start + len <= |conf.file|
      ensures SeekAccepted(|conf.file|, start) ==> sequence + 1 < POW32
    {
      start := Calc.Offset(sequence, chsize);
      len := Calc.ChunkLen(sequence, chcount, chsize, pchsize);
      assert start + len <= |conf.file| && (SeekAccepted(|conf.file|, start) ==> sequence + 1 < POW32) by {
        conf.Geometry(sequence);
      }
      var crc := ChunkCrc32(start, len);
      flow := Flow(len, sequence, crc);
    }

    /** The first inner loop: offer the chunk until it is acknowledged or the tries are used up. */
    method OfferLoop(flow: Packet) returns (st: Status)
      requires Valid() && Tracks() && state.fault.None? && state.pc == FlowSend && state.tries == tfTryCount
      requires flow == Offer(conf, state)
      modifies io, this`state, this`trace
      ensures Valid() && Tracks() && state.sequence == old(state).sequence
      ensures if st == SUCCESS then state == StartData(conf, old(state)) else Halted(state) && Outcome(state) == st
    {
      hide IsTrace, Sender, MFile.Valid, Conf.Valid, Calc.Offset, Calc.ChunkLen;
      conf.Positive();
      var trycount := tfTryCount;
      ghost var first := state;
      while trycount != 0
        invariant Valid() && Tracks()
        invariant state == first.(tries := trycount, pc := if trycount == 0 then Done(EXPTRY0) else FlowSend)
      {
        st := PushHeader(flow);
        if st != SUCCESS { return; }
        var ack;
        st, ack := PullRecvHeader();
        if st != SUCCESS { return; }
        if ack == 1 { break; }
        trycount := trycount - 1;
      }
      if trycount == 0 { return EXPTRY0; }
      st := SUCCESS;
    }

    /** The second inner loop: send the chunk until it is acknowledged or the tries are used up. */
    method SendLoop(start: nat, len: nat, ghost first: State) returns (st: Status)
      requires Valid() && Tracks() && first.fault.None? && first.tries == tfTryCount && state == StartData(conf, first)
      requires start == first.start && len == first.len && start + len <= |conf.file| && segsize == conf.segsize
      modifies io, stream`pos, this`state, this`trace
      ensures Valid() && Tracks()
      ensures if st == SUCCESS then
                SeekAccepted(|conf.file|, start) && state == Enter(conf, first, (first.sequence + 1) % POW32)
              else Halted(state) && Outcome(state) == st && state.sequence == first.sequence
    {
      hide IsTrace, Sender, MFile.Valid, Conf.Valid, Calc.Offset, Calc.ChunkLen;
      conf.Positive();
      var trycount: nat := tfTryCount;
      while trycount != 0
        invariant Valid() && Tracks()
        invariant if trycount == 0 then
                    state.fault.None? && state.pc == Done(EXPTRY1) && state.sequence == first.sequence
                  else state == StartData(conf, first.(tries := trycount))
      {
        st := PushData(start, len, first.(tries := trycount));
        if st != SUCCESS { return; }
        var ack;
        st, ack := PullRecvHeader();
        if st != SUCCESS { return; }
        if ack == 1 { break; }
        trycount := trycount - 1;
      }
      if trycount == 0 { return EXPTRY1; }
      st := SUCCESS;
    }

    method PushTransfer() returns (st: Status)
      requires Valid() && Tracks() && Negotiated() && AtTop() && sequence == 1 && segsize == conf.segsize
      modifies io, stream`pos, this`state, this`trace, this`sequence
      ensures Valid() && Tracks() && Negotiated() && sequence == state.sequence >= 1
      ensures if st == SUCCESS then AtTop() && sequence > chcount else Halted(state) && Outcome(state) == st
    {
      hide IsTrace, Sender, MFile.Valid, Conf.Valid, Calc.Offset, Calc.ChunkLen;
      while sequence <= chcount
        invariant Valid() && Tracks() && AtTop() && sequence >= 1
        decreases chcount as int - sequence as int
      {
        var start, len, flow := PrepareChunk();
        ghost var first := state;
        st := OfferLoop(flow);
        if st != SUCCESS { return; }
        st := SendLoop(start, len, first);
        if st != SUCCESS { return; }
        assert (sequence + 1) % POW32 == sequence + 1 by { Calc.SmallMod(sequence + 1, POW32); }
        sequence := (sequence + 1) % POW32;
      }
      st := SUCCESS;
    }

    method PushVerification() returns (st: Status)
      requires Valid() && Tracks() && Negotiated() && state.fault.None? && state.pc == VfSend
      modifies io, this`state, this`trace
      ensures Valid() && Tracks() && state.sequence == old(state).sequence
      ensures Halted(state) && Outcome(state) == st
    {
      assert stream.buf[..] == stream.contents;
      var crc := crc16(stream.buf[..]);
      st := PushHeader(Send(chsize, chcount, pchsize, crc));
      if st != SUCCESS { return; }
      var ack;
      st, ack := PullRecvHeader();
      if st != SUCCESS { return; }
      if ack == 0 { st := ZEROACK; }
    }

    /** The three phases of `start_pusher`. */
    method Phases() returns (st: Status)
      requires Valid() && Tracks() && state == Init(conf)
      modifies io, stream`pos, this`state, this`trace, this`sequence, this`chcount, this`pchsize, this`segsize
      ensures Valid() && Tracks() && Negotiated() && Halted(state) && Outcome(state) == st
      ensures sequence == if state.sequence == 0 then old(sequence) else state.sequence
    {
      hide IsTrace, Sender, MFile.Valid, Conf.Valid;
      conf.Positive();
      st := PushHandshake();
      if st == SUCCESS {
        segsize := Calc.SegmentSize(chsize); // push_file has refused a chunk size of 0
        st := PushTransfer();
        if st == SUCCESS {
          st := PushVerification();
        }
      }
    }

    /**
     * `start_pusher` after the sockets are open: whatever the kernel answers, these loops return the status, and
     * have sent the packets and datagrams, that the machine's run ends with.
     */
    method StartPusher() returns (st: Status)
      requires Valid() && io.at == 0 && io.log == []
      modifies io, stream`pos, this
      ensures Valid()
      ensures var run := Exec(Sender(conf), Run(Init(conf), []), io.script, 0);
              && st == Outcome(run.s) && io.log == run.log
              && sequence == (if run.s.sequence == 0 then old(sequence) else run.s.sequence)
      ensures (chcount, pchsize) == Calc.ChunkCount(|stream.contents|, chsize)
      ensures io.at > 0
      ensures EventAt(io.script, io.at - 1).Fault? ==> st == EventAt(io.script, io.at - 1).st
      ensures EventAt(io.script, io.at - 1).Ok? ==> !IsIoFault(st)
      ensures st == BADTYPE ==> EventAt(io.script, io.at - 1).Ok? && !EventAt(io.script, io.at - 1).packet.Recv?
    {
      hide Exec, MFile.Valid, Conf.Valid;
      state := Init(conf);
      trace := [Run(state, io.log)];
      st := Phases();
      conf.Derived();
      LastCall(conf, trace, io.script);
      SenderStops(conf);
      HaltedTraceIsExec(Sender(conf), Init(conf), trace, io.script);
    }
  }
}
