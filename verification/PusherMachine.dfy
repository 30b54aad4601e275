/** source/pusher.c with one program counter per kernel call: what the sending end does with each outcome. */
module PusherMachine {
  import opened Types
  import opened Wire
  import opened Io
  import opened Runs
  import opened MFiles
  import Calc

  /**
   * The mapped file, the configured chunk size and try count, the two checksums, and the numbers
   * `push_handshake` and `start_pusher` derive from them.
   */
  datatype Conf = Conf(file: seq<byte>, chsize: u16, tries: nat, crc32: seq<byte> -> u32, crc16: seq<byte> -> u16,
                       chcount: u32, pchsize: u16, segsize: nat)
  {
    /**
     * What `push_file` and an open file guarantee, and derived numbers that cut the file into chunks without a wrap
     * of their count or of a chunk's offset.
     */
    ghost predicate Valid() {
      && 0 < |file| < POW64 && tries > 0 && pchsize < chsize && chcount > 0
      && |file| == (chcount - 1) * chsize + pchsize && (chcount - 1) * chsize < POW32
      && segsize == Calc.SegmentSize(chsize)
    }

    /** These are the numbers `calc_chunk_count` computes. */
    lemma Derived()
      requires Valid()
      ensures chsize != 0 && Calc.Fits(|file|, chsize)
      ensures chcount == Calc.LastChunk(|file|, chsize) && pchsize == |file| % chsize && segsize > 0
      ensures (chcount, pchsize) == Calc.ChunkCount(|file|, chsize)
    {
      hide Calc.ChunkCount;
      Calc.ModUnique(|file|, chsize, chcount - 1, pchsize);
      Calc.CountExact(|file|, chsize);
    }

    lemma Positive()
      requires Valid()
      ensures chcount > 0 && segsize > 0 && tries > 0 && |file| > 0 && chsize != 0
      ensures segsize == Calc.SegmentSize(chsize)
    {
      Derived();
    }

    /** The chunks of a valid configuration lie inside the file; only an empty one cannot be sought. */
    lemma Geometry(sequence: u32)
      requires Valid() && 1 <= sequence <= chcount
      ensures Start(this, sequence) + Len(this, sequence)
              == if sequence < chcount then Start(this, sequence + 1) else |file|
      ensures Start(this, sequence) + Len(this, sequence) <= |file|
      ensures SeekAccepted(|file|, Start(this, sequence)) <==> Len(this, sequence) > 0
      ensures Len(this, sequence) == 0 <==> sequence == chcount && pchsize == 0
      ensures Len(this, sequence) > 0 ==> sequence + 1 < POW32
    {
      Derived();
      assert Start(this, sequence) == Calc.Start(|file|, chsize, sequence);
      assert Len(this, sequence) == Calc.Len(|file|, chsize, sequence);
      Calc.ChunksAreConsecutive(|file|, chsize, sequence);
      if Len(this, sequence) > 0 {
        Calc.NextChunkDoesNotWrap(|file|, chsize, sequence);
      }
    }

    lemma StartsAtZero()
      requires Valid()
      ensures Start(this, 1) == 0
    {
    }

    lemma ChunksDisjoint(k: u32, sequence: u32)
      requires Valid() && 1 <= k < sequence <= chcount
      ensures Start(this, k) + Len(this, k) <= Start(this, sequence)
    {
      Derived();
      Calc.ChunksAreDisjoint(|file|, chsize, k, sequence);
    }
  }

  /** The configuration `push_file` and `push_handshake` arrive at for a file. */
  function Configure(file: seq<byte>, chsize: u16, tries: nat, crc32: seq<byte> -> u32, crc16: seq<byte> -> u16): Conf
    requires chsize != 0 && |file| < POW64
  {
    var (chcount, pchsize) := Calc.ChunkCount(|file|, chsize);
    Conf(file, chsize, tries, crc32, crc16, chcount, pchsize, Calc.SegmentSize(chsize))
  }

  /** It is valid for every nonempty file on which neither the chunk count nor a chunk offset wraps. */
  lemma ConfigureIsValid(file: seq<byte>, chsize: u16, tries: nat, crc32: seq<byte> -> u32, crc16: seq<byte> -> u16)
    requires 0 < |file| < POW64 && tries > 0 && Calc.Fits(|file|, chsize)
    ensures Configure(file, chsize, tries, crc32, crc16).Valid()
  {
    hide Calc.ChunkCount;
    Calc.CountExact(|file|, chsize);
    Calc.DivMod(|file|, chsize);
  }

  /** The kernel call an end is about to make, or its final status. */
  datatype Pc =
    | HsSend | HsRecv | FlowSend | FlowRecv | DataSend(off: nat) | DataRecv | VfSend | VfRecv
    | Done(st: Status)

  /**
   * `start` and `len` are the chunk context computed at the top of the chunk loop. `fault` is the status of a
   * kernel call that failed; the end stops where it stands.
   */
  datatype State = State(pc: Pc, sequence: u32, tries: nat, start: nat, len: u16, fault: Option<IoStatus>)

  predicate Halted(s: State) { s.fault.Some? || s.pc.Done? }

  function Outcome(s: State): Status
    requires Halted(s)
  {
    if s.fault.Some? then s.fault.value else s.pc.st
  }

  /** The calls that wait for a RECV packet. */
  predicate Pulls(pc: Pc) { pc.HsRecv? || pc.FlowRecv? || pc.DataRecv? || pc.VfRecv? }

  // ---------- the numbers of a transfer ----------

  function Start(c: Conf, sequence: u32): nat { Calc.Offset(sequence, c.chsize) }

  function Len(c: Conf, sequence: u32): u16 { Calc.ChunkLen(sequence, c.chcount, c.chsize, c.pchsize) }

  function Chunk(c: Conf, sequence: u32): seq<byte> { Slice(c.file, Start(c, sequence), Len(c, sequence)) }

  // ---------- the packets ----------

  function Hello(c: Conf): Packet
  {
    Send(c.chsize, c.chcount, c.pchsize, 0)
  }

  function Offer(c: Conf, s: State): Packet {
    Flow(s.len, s.sequence, c.crc32(Slice(c.file, s.start, s.len)))
  }

  function Goodbye(c: Conf): Packet
  {
    Send(c.chsize, c.chcount, c.pchsize, c.crc16(c.file))
  }

  // ---------- the steps ----------

  function Init(c: Conf): State { State(HsSend, 0, c.tries, 0, 0, None) }

  /** The top of the chunk loop. */
  function Enter(c: Conf, s: State, sequence: u32): State {
    if sequence <= c.chcount then
      s.(pc := FlowSend, sequence := sequence, tries := c.tries, start := Start(c, sequence), len := Len(c, sequence))
    else s.(pc := VfSend, sequence := sequence, tries := c.tries)
  }

  /** Into `push_chunk_data`: a refused seek ends the transfer, and an empty chunk has nothing to send. */
  function StartData(c: Conf, s: State): State {
    s.(pc := if !SeekAccepted(|c.file|, s.start) then Done(EMFSEEK)
             else if s.len == 0 then DataRecv
             else DataSend(0))
  }

  /** What a successful call at this point sends. */
  function Emit(c: Conf, s: State): seq<Out> {
    match s.pc
    case HsSend => [Control(Hello(c))]
    case FlowSend => [Control(Offer(c, s))]
    case DataSend(off) => [Datagram(Slice(c.file, s.start + off, Calc.SegmentAt(c.segsize, s.len, off)))]
    case VfSend => [Control(Goodbye(c))]
    case _ => []
  }

  /** After a successful call that sends. */
  function Proceed(c: Conf, s: State): State {
    match s.pc
    case HsSend => s.(pc := HsRecv)
    case FlowSend => s.(pc := FlowRecv)
    case DataSend(off) =>
      var next := off + Calc.SegmentAt(c.segsize, s.len, off);
      s.(pc := if next < s.len then DataSend(next) else DataRecv)
    case VfSend => s.(pc := VfRecv)
    case _ => s
  }

  /** After pulling a RECV packet; only its `ack` is looked at. */
  function Answered(c: Conf, s: State, ack: byte): State {
    match s.pc
    case HsRecv => if ack == 0 then s.(pc := Done(ZEROACK), sequence := 1) else Enter(c, s, 1)
    case FlowRecv =>
      if ack == 1 then StartData(c, s.(tries := c.tries))
      else if s.tries <= 1 then s.(pc := Done(EXPTRY0), tries := 0)
      else s.(pc := FlowSend, tries := s.tries - 1)
    case DataRecv =>
      if ack == 1 then Enter(c, s, (s.sequence + 1) % POW32)
      else if s.tries <= 1 then s.(pc := Done(EXPTRY1), tries := 0)
      else StartData(c, s.(tries := s.tries - 1))
    case VfRecv => s.(pc := Done(if ack == 0 then ZEROACK else SUCCESS))
    case _ => s
  }

  function Step(c: Conf, s: State, e: Event): State {
    if e.Fault? then s.(fault := Some(e.st))
    else if !Pulls(s.pc) then Proceed(c, s)
    else if e.packet.Recv? then Answered(c, s, e.packet.ack)
    else s.(pc := Done(BADTYPE))
  }

  // ---------- whole runs against a script ----------

  function After(c: Conf, r: Run<State>, e: Event): Run<State> {
    Run(Step(c, r.s, e), if e.Ok? then r.log + Emit(c, r.s) else r.log)
  }

  /** The sending end as a machine. */
  function Sender(c: Conf): Machine<State> { Machine(Halted, (r, e) => After(c, r, e)) }

  lemma SenderStops(c: Conf)
    ensures Sender(c).Stops()
  {
  }
}
