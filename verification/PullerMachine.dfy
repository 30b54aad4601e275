/** source/puller.c with one program counter per kernel call: what the receiving end does with each outcome. */
module PullerMachine {
  import opened Types
  import opened Wire
  import opened Io
  import opened Runs
  import opened MFiles
  import Calc

  datatype Conf = Conf(tries: nat, crc32: seq<byte> -> u32, crc16: seq<byte> -> u16)

  /** The kernel call an end is about to make, or its final status. */
  datatype Pc =
    | HsWait | HsReply | FlowWait | FlowAck | BadFlow | Prep | DataPull(off: nat) | Sync | Verdict
    | VfWait | VfReply(match16: bool) | Done(st: Status)

  /**
   * `chsize`, `pchsize` and `chcount` come from the SEND packet; `file` is the mapped file, empty while there is
   * none; `start` and `len` are the chunk context, and `want` is the checksum of the FLOW packet.
   */
  datatype State = State(pc: Pc, sequence: u32, tries: nat, chsize: u16, pchsize: u16, chcount: u32,
                         file: seq<byte>, start: nat, len: u16, want: u32, fault: Option<IoStatus>)

  predicate Halted(s: State) { s.fault.Some? || s.pc.Done? }

  function Outcome(s: State): Status
    requires Halted(s)
  {
    if s.fault.Some? then s.fault.value else s.pc.st
  }

  /** The calls that wait for a control packet. */
  predicate Pulls(pc: Pc) { pc.HsWait? || pc.FlowWait? || pc.VfWait? }

  predicate Wanted(pc: Pc, p: Packet) { if pc.FlowWait? then p.Flow? else p.Send? }

  /** `start_puller` computes it from the negotiated sizes. */
  function SegSize(s: State): (r: nat)
    ensures s.chsize != 0 ==> 0 < r <= s.chsize
    ensures s.chsize == 0 ==> r <= s.pchsize && (r == 0 <==> s.pchsize == 0)
  {
    Calc.SegmentSize(if s.chsize != 0 then s.chsize else s.pchsize)
  }

  /** `ftruncate` of a new file. */
  function Zeros(size: nat): (z: seq<byte>)
    ensures |z| == size
  {
    seq(size, _ => 0)
  }

  function Init(c: Conf): State { State(HsWait, 0, c.tries, 0, 0, 0, [], 0, 0, 0, None) }

  /** The top of the chunk loop. */
  function Enter(c: Conf, s: State, sequence: u32): State {
    if sequence <= s.chcount then
      s.(pc := FlowWait, sequence := sequence, tries := c.tries, start := Calc.Offset(sequence, s.chsize),
         len := Calc.ChunkLen(sequence, s.chcount, s.chsize, s.pchsize))
    else s.(pc := VfWait, sequence := sequence, tries := c.tries)
  }

  /** Into `pull_chunk_data`: a refused seek ends the transfer; the first chunk also sets the low-water mark. */
  function StartData(s: State): State {
    s.(pc := if !SeekAccepted(|s.file|, s.start) then Done(EMFSEEK)
             else if s.start == 0 then Prep
             else if s.len == 0 then Sync
             else DataPull(0))
  }

  /** `match_flow`. */
  predicate MatchFlow(s: State, p: Packet)
    requires p.Flow?
  {
    p.sequence == s.sequence && p.chunkSize == if s.sequence != s.chcount then s.chsize else s.pchsize
  }

  /** The checksum of the chunk as it now is in the file agrees with the FLOW packet. */
  predicate ChunkMatches(c: Conf, s: State) { c.crc32(Slice(s.file, s.start, s.len)) == s.want }

  /** What a successful call at this point sends. */
  function Emit(c: Conf, s: State): seq<Out> {
    match s.pc
    case HsReply => [Control(Recv(if |s.file| > 0 then 1 else 0, 0, 0))]
    case FlowAck => [Control(Recv(1, 0, s.sequence))]
    case BadFlow => [Control(Recv(0, 0, s.sequence))]
    case Verdict => [Control(Recv(if ChunkMatches(c, s) then 1 else 0, 0, s.sequence))]
    case VfReply(ok) => [Control(Recv(if ok then 1 else 0, 0, s.sequence))]
    case _ => []
  }

  /**
   * After a successful call that delivers nothing. The status of a CRC16 mismatch does not survive the push of
   * the NACK: the check macro around that push assigns SUCCESS over it.
   */
  function Proceed(c: Conf, s: State): State {
    match s.pc
    case HsReply => Enter(c, s, 1)
    case FlowAck => StartData(s)
    case BadFlow => s.(pc := Done(BADFLOW))
    case Prep => s.(pc := if s.len == 0 then Sync else DataPull(0))
    case Sync => s.(pc := Verdict)
    case Verdict =>
      if ChunkMatches(c, s) then Enter(c, s, (s.sequence + 1) % POW32)
      else if s.tries <= 1 then s.(pc := Done(EXPTRY0), tries := 0)
      else StartData(s.(tries := s.tries - 1))
    case VfReply(_) => s.(pc := Done(SUCCESS))
    case _ => s
  }

  /** After pulling a control packet of the wanted type; `created` says whether the file could be made. */
  function Told(c: Conf, s: State, p: Packet, created: bool): State
    requires Wanted(s.pc, p)
  {
    match s.pc
    case HsWait =>
      var size := Calc.FileSize(p.chcount, p.chsize, p.pchsize);
      s.(pc := HsReply, chsize := p.chsize, pchsize := p.pchsize, chcount := p.chcount,
         file := if created then Zeros(size) else [])
    case FlowWait => if MatchFlow(s, p) then s.(pc := FlowAck, want := p.crc32) else s.(pc := BadFlow)
    case VfWait => s.(pc := VfReply(p.crc == c.crc16(s.file)))
    case _ => s
  }

  /** After receiving a datagram long enough for the segment, which goes into the file at the cursor. */
  function Took(s: State, dgram: seq<byte>): State
    requires s.pc.DataPull? && |dgram| >= Calc.SegmentAt(SegSize(s), s.len, s.pc.off)
  {
    var n := Calc.SegmentAt(SegSize(s), s.len, s.pc.off);
    var next := s.pc.off + n;
    s.(pc := if next < s.len then DataPull(next) else Sync, file := WriteAt(s.file, s.start + s.pc.off, dgram[..n]))
  }

  /** The NACK of a mismatched FLOW is sent without looking at the result, so its failure changes nothing. */
  function Step(c: Conf, s: State, e: Event): State {
    if e.Fault? then
      if s.pc.BadFlow? then s.(pc := Done(BADFLOW)) else s.(fault := Some(e.st))
    else if s.pc.DataPull? then
      if |e.dgram| < Calc.SegmentAt(SegSize(s), s.len, s.pc.off) then s.(fault := Some(LOWSIZE)) else Took(s, e.dgram)
    else if !Pulls(s.pc) then Proceed(c, s)
    else if Wanted(s.pc, e.packet) then Told(c, s, e.packet, e.flag)
    else s.(pc := Done(BADTYPE))
  }

  // ---------- whole runs against a script ----------

  function After(c: Conf, r: Run<State>, e: Event): Run<State> {
    Run(Step(c, r.s, e), if e.Ok? then r.log + Emit(c, r.s) else r.log)
  }

  /** The receiving end as a machine. */
  function Receiver(c: Conf): Machine<State> { Machine(Halted, (r, e) => After(c, r, e)) }

  lemma ReceiverStops(c: Conf)
    ensures Receiver(c).Stops()
  {
  }
}
