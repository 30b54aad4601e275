/** source/data.c: a chunk travels as datagrams of at most `segsize` bytes. */
module Data {
  import opened Types
  import opened MFiles
  import opened Io
  import Calc

  // ---------- what the two loops compute ----------

  /** A call's status, the number of the next kernel call, and everything sent so far. */
  datatype Sent = Sent(st: Status, at: nat, log: seq<Out>)

  /** Sends `len` bytes of `file` from `pos` on, segment by segment, until they are gone or a call fails. */
  function SendAll(file: seq<byte>, pos: nat, len: nat, segsize: nat, script: seq<Event>, at: nat, log: seq<Out>): Sent
    requires segsize > 0 && pos + len <= |file|
    decreases len
  {
    if len == 0 then Sent(SUCCESS, at, log)
    else
      var n := Min(segsize, len);
      match EventAt(script, at)
      case Fault(st) => Sent(st, at + 1, log)
      case Ok(_, _, _) =>
        SendAll(file, pos + n, len - n, segsize, script, at + 1, log + [Datagram(file[pos..pos + n])])
  }

  datatype Received = Received(st: Status, at: nat, file: seq<byte>)

  /** Receives `len` bytes into `file` from `pos` on; a datagram is cut to the wanted length, a shorter one fails. */
  function ReceiveAll(file: seq<byte>, pos: nat, len: nat, segsize: nat, script: seq<Event>, at: nat): Received
    requires segsize > 0 || len == 0
    decreases len
  {
    if len == 0 then Received(SUCCESS, at, file)
    else
      var n := Min(segsize, len);
      match EventAt(script, at)
      case Fault(st) => Received(st, at + 1, file)
      case Ok(_, dgram, _) =>
        if |dgram| < n then Received(LOWSIZE, at + 1, file)
        else ReceiveAll(WriteAt(file, pos, dgram[..n]), pos + n, len - n, segsize, script, at + 1)
  }

  /** A call whose only effect is its success or failure. */
  function Attempt(r: Received, script: seq<Event>): Received {
    match EventAt(script, r.at)
    case Fault(st) => Received(st, r.at + 1, r.file)
    case Ok(_, _, _) => Received(SUCCESS, r.at + 1, r.file)
  }

  /** All of `pull_chunk_data`: the seek, the low-water mark when the chunk starts at 0, the segments, `mfsync`. */
  function PullChunk(file: seq<byte>, start: nat, len: nat, segsize: nat, script: seq<Event>, at: nat): Received
    requires segsize > 0 || len == 0
  {
    if !SeekAccepted(|file|, start) then Received(EMFSEEK, at, file)
    else
      var a := if start == 0 then Attempt(Received(SUCCESS, at, file), script) else Received(SUCCESS, at, file);
      if a.st != SUCCESS then a
      else
        var r := ReceiveAll(file, start, len, segsize, script, a.at);
        if r.st != SUCCESS then r else Attempt(r, script)
  }

  // ---------- the loops ----------

  /** `push_udp_data` after its `poll`. */
  method PushUdpData(io: Kernel, buf: array<byte>, size: nat) returns (st: Status)
    requires size <= buf.Length
    modifies io
    ensures io.at == old(io.at) + 1
    ensures EventAt(io.script, old(io.at)).Fault? ==> st == EventAt(io.script, old(io.at)).st && io.log == old(io.log)
    ensures EventAt(io.script, old(io.at)).Ok? ==> st == SUCCESS && io.log == old(io.log) + [Datagram(buf[..size])]
  {
    st := io.Push(Datagram(buf[..size]));
  }

  /** `pull_udp_data` after its `poll`: `recv` cuts a longer datagram and a shorter one is LOWSIZE. */
  method PullUdpData(io: Kernel, buf: array<byte>, size: nat) returns (st: Status)
    requires size <= buf.Length
    modifies io`at, buf
    ensures io.at == old(io.at) + 1
    ensures EventAt(io.script, old(io.at)).Fault? ==> st == EventAt(io.script, old(io.at)).st
    ensures EventAt(io.script, old(io.at)).Ok? ==>
              var dgram := EventAt(io.script, old(io.at)).dgram;
              st == (if |dgram| < size then LOWSIZE else SUCCESS)
              && (st == SUCCESS ==> buf[..size] == dgram[..size])
  {
    var e := io.Next();
    if e.Fault? { return e.st; }
    forall k | 0 <= k < Min(|e.dgram|, size) {
      buf[k] := e.dgram[k];
    }
    if |e.dgram| < size { return LOWSIZE; }
    st := SUCCESS;
  }

  method MemSet(buf: array<byte>, value: byte)
    modifies buf
    ensures forall k | 0 <= k < buf.Length :: buf[k] == value
  {
    forall k | 0 <= k < buf.Length {
      buf[k] := value;
    }
  }

  lemma SendTurn(file: seq<byte>, pos: nat, len: nat, segsize: nat, script: seq<Event>, at: nat, log: seq<Out>)
    requires segsize > 0 && pos + len <= |file| && len > 0 && EventAt(script, at).Ok?
    ensures var n := Min(segsize, len);
            SendAll(file, pos, len, segsize, script, at, log)
            == SendAll(file, pos + n, len - n, segsize, script, at + 1, log + [Datagram(file[pos..pos + n])])
  {
  }

  lemma SendNothing(file: seq<byte>, pos: nat, segsize: nat, script: seq<Event>, at: nat, log: seq<Out>)
    requires segsize > 0 && pos <= |file|
    ensures SendAll(file, pos, 0, segsize, script, at, log) == Sent(SUCCESS, at, log)
  {
  }

  lemma SendStops(file: seq<byte>, pos: nat, len: nat, segsize: nat, script: seq<Event>, at: nat, log: seq<Out>)
    requires segsize > 0 && pos + len <= |file| && len > 0 && EventAt(script, at).Fault?
    ensures SendAll(file, pos, len, segsize, script, at, log) == Sent(EventAt(script, at).st, at + 1, log)
  {
  }

  lemma ReceiveTurn(file: seq<byte>, pos: nat, len: nat, segsize: nat, script: seq<Event>, at: nat)
    requires segsize > 0 && len > 0
    requires EventAt(script, at).Ok? && |EventAt(script, at).dgram| >= Min(segsize, len)
    ensures var n := Min(segsize, len);
            ReceiveAll(file, pos, len, segsize, script, at)
            == ReceiveAll(WriteAt(file, pos, EventAt(script, at).dgram[..n]), pos + n, len - n, segsize, script, at + 1)
  {
  }

  lemma ReceiveNothing(file: seq<byte>, pos: nat, segsize: nat, script: seq<Event>, at: nat)
    ensures ReceiveAll(file, pos, 0, segsize, script, at) == Received(SUCCESS, at, file)
  {
  }

  lemma ReceiveStops(file: seq<byte>, pos: nat, len: nat, segsize: nat, script: seq<Event>, at: nat)
    requires segsize > 0 && len > 0
    requires EventAt(script, at).Fault? || |EventAt(script, at).dgram| < Min(segsize, len)
    ensures ReceiveAll(file, pos, len, segsize, script, at)
         == Received(if EventAt(script, at).Fault? then EventAt(script, at).st else LOWSIZE, at + 1, file)
  {
  }

  /** The body of the sending loop. */
  method PushSegment(io: Kernel, stream: MFile, segbuf: array<byte>, size: nat) returns (st: Status)
    requires stream.Valid() && stream.open && stream.pos + size <= |stream.contents|
    requires size <= segbuf.Length && segbuf != stream.buf
    modifies io, stream`pos, segbuf
    ensures stream.Valid() && stream.pos == old(stream.pos) + size && io.at == old(io.at) + 1
    ensures EventAt(io.script, old(io.at)).Fault? ==> st == EventAt(io.script, old(io.at)).st && io.log == old(io.log)
    ensures EventAt(io.script, old(io.at)).Ok? ==>
              st == SUCCESS
              && io.log == old(io.log) + [Datagram(stream.contents[old(stream.pos)..old(stream.pos) + size])]
  {
    var got := stream.MFRead(segbuf, size);
    st := PushUdpData(io, segbuf, size);
    if st != SUCCESS { return; }
    MemSet(segbuf, 0);
  }

  method PushChunkData(io: Kernel, stream: MFile, start: nat, len: nat, segsize: nat) returns (st: Status)
    requires stream.Valid() && stream.open && start + len <= |stream.contents| && segsize > 0
    modifies io, stream`pos
    ensures stream.Valid()
    ensures !SeekAccepted(|stream.contents|, start) ==>
              st == EMFSEEK && io.at == old(io.at) && io.log == old(io.log)
    ensures SeekAccepted(|stream.contents|, start) ==>
              Sent(st, io.at, io.log)
              == SendAll(stream.contents, start, len, segsize, io.script, old(io.at), old(io.log))
  {
    var segbuf := new byte[segsize];
    var rsize: nat := len;
    var at := stream.MFSeek(start);
    if at != start { return EMFSEEK; }
    ghost var pos: nat := start;
    ghost var goal := SendAll(stream.contents, start, len, segsize, io.script, io.at, io.log);
    while rsize != 0
      invariant stream.Valid() && stream.pos == pos && pos + rsize == start + len
      invariant goal == SendAll(stream.contents, pos, rsize, segsize, io.script, io.at, io.log)
    {
      var n := if segsize <= rsize then segsize else rsize;
      ghost var before, log := io.at, io.log;
      st := PushSegment(io, stream, segbuf, n);
      if st != SUCCESS { return; }
      SendTurn(stream.contents, pos, rsize, segsize, io.script, before, log);
      rsize := rsize - n;
      pos := pos + n;
    }
    st := SUCCESS;
  }

  /** The body of the receiving loop. A closed stream, or a cursor at the end of the file, swallows the bytes. */
  method PullSegment(io: Kernel, stream: MFile, segbuf: array<byte>, size: nat, ghost pos: nat) returns (st: Status)
    requires stream.Valid() && size <= segbuf.Length && segbuf != stream.buf
    requires stream.open ==> stream.pos == Min(pos, |stream.contents|)
    modifies io`at, stream`pos, stream`contents, stream.buf, segbuf
    ensures stream.Valid() && io.at == old(io.at) + 1
    ensures EventAt(io.script, old(io.at)).Fault? ==> st == EventAt(io.script, old(io.at)).st
    ensures EventAt(io.script, old(io.at)).Ok? ==>
              st == if |EventAt(io.script, old(io.at)).dgram| < size then LOWSIZE else SUCCESS
    ensures st != SUCCESS ==> stream.contents == old(stream.contents)
    ensures st == SUCCESS && stream.open ==> stream.pos == Min(pos + size, |stream.contents|)
    ensures st == SUCCESS ==>
              stream.contents == WriteAt(old(stream.contents), pos, EventAt(io.script, old(io.at)).dgram[..size])
  {
    ghost var file := stream.contents;
    st := PullUdpData(io, segbuf, size);
    if st != SUCCESS { return; }
    var put := stream.MFWrite(segbuf, size);
    if pos >= |file| {
      WriteAtEnd(file, pos, segbuf[..size]);
    }
    MemSet(segbuf, 0);
  }

  method PullChunkData(io: Kernel, stream: MFile, start: nat, len: nat, segsize: nat) returns (st: Status)
    requires stream.Valid() && (segsize > 0 || len == 0)
    modifies io`at, stream`pos, stream`contents, stream.buf
    ensures stream.Valid()
    ensures Received(st, io.at, stream.contents)
         == PullChunk(old(stream.contents), start, len, segsize, io.script, old(io.at))
  {
    hide ReceiveAll, WriteAt;
    var segbuf := new byte[segsize];
    var rsize: nat := len;
    var at := stream.MFSeek(start);
    if at != start { return EMFSEEK; }
    if start == 0 {
      var e := io.Next();
      if e.Fault? { return e.st; }
    }
    ghost var pos: nat := start;
    ghost var goal := ReceiveAll(stream.contents, start, len, segsize, io.script, io.at);
    while rsize != 0
      invariant stream.Valid() && pos + rsize == start + len
      invariant stream.open ==> stream.pos == Min(pos, |stream.contents|)
      invariant goal == ReceiveAll(stream.contents, pos, rsize, segsize, io.script, io.at)
    {
      var n := if segsize <= rsize then segsize else rsize;
      ghost var file, before := stream.contents, io.at;
      st := PullSegment(io, stream, segbuf, n, pos);
      if st != SUCCESS {
        ReceiveStops(file, pos, rsize, segsize, io.script, before);
        return;
      }
      ReceiveTurn(file, pos, rsize, segsize, io.script, before);
      rsize := rsize - n;
      pos := pos + n;
    }
    ReceiveNothing(stream.contents, pos, segsize, io.script, io.at);
    var e := io.Next();
    if e.Fault? { return e.st; }
    st := SUCCESS;
  }

  // ---------- what one receiving attempt can do to the file ----------

  /** The bytes an attempt takes off the network: each datagram cut to the wanted length, up to the first failure. */
  function Taken(len: nat, segsize: nat, script: seq<Event>, at: nat): (d: seq<byte>)
    requires segsize > 0
    ensures |d| <= len
    decreases len
  {
    if len == 0 then []
    else
      var n := Min(segsize, len);
      var e := EventAt(script, at);
      if e.Fault? || |e.dgram| < n then [] else e.dgram[..n] + Taken(len - n, segsize, script, at + 1)
  }

  /**
   * Whatever arrives, the attempt overwrites a prefix of its range with the bytes taken and touches nothing
   * else; it succeeds exactly when the whole range is overwritten.
   */
  lemma {:induction false} ReceiveOverwritesPrefix(file: seq<byte>, pos: nat, len: nat, segsize: nat,
                                                   script: seq<Event>, at: nat)
    requires segsize > 0
    ensures var r := ReceiveAll(file, pos, len, segsize, script, at);
            var d := Taken(len, segsize, script, at);
            && r.file == WriteAt(file, pos, d)
            && (r.st == SUCCESS <==> |d| == len)
            && at <= r.at
    decreases len
  {
    if len == 0 {
      assert WriteAt(file, pos, []) == file;
    } else {
      var n := Min(segsize, len);
      var e := EventAt(script, at);
      if e.Fault? || |e.dgram| < n {
        assert WriteAt(file, pos, []) == file;
      } else {
        var first := e.dgram[..n];
        ReceiveOverwritesPrefix(WriteAt(file, pos, first), pos + n, len - n, segsize, script, at + 1);
        WriteAtTwice(file, pos, first, Taken(len - n, segsize, script, at + 1));
      }
    }
  }

  /** The same for the whole call: on SUCCESS the chunk is the segments in order, and the rest is as before. */
  lemma PullChunkFrame(file: seq<byte>, start: nat, len: nat, segsize: nat, script: seq<Event>, at: nat)
    requires segsize > 0 && start + len <= |file|
    ensures var r := PullChunk(file, start, len, segsize, script, at);
            && |r.file| == |file|
            && r.file[..start] == file[..start] && r.file[start + len..] == file[start + len..]
            && exists d: seq<byte> :: |d| <= len && r.file == WriteAt(file, start, d)
                 && (r.st == SUCCESS ==> |d| == len && r.file[start..start + len] == d
                                         && d == Taken(len, segsize, script, if start == 0 then at + 1 else at))
  {
    var from := if start == 0 then at + 1 else at;
    var d := Taken(len, segsize, script, from);
    ReceiveOverwritesPrefix(file, start, len, segsize, script, from);
    WriteAtFrame(file, start, d);
    assert WriteAt(file, start, []) == file;
    var r := PullChunk(file, start, len, segsize, script, at);
    if r.file == WriteAt(file, start, d) {
      assert r.file[..start] == file[..start] && r.file[start + len..] == file[start + len..];
    }
  }

  /** One call per segment until one fails; the status is that of the call that failed. */
  lemma {:induction false} ReceiveCalls(file: seq<byte>, pos: nat, len: nat, segsize: nat, script: seq<Event>, at: nat)
    requires segsize > 0
    ensures var r := ReceiveAll(file, pos, len, segsize, script, at);
            && (r.st == SUCCESS ==> r.at == at + Calc.SegmentCount(len, segsize))
            && (r.st != SUCCESS ==> r.at > at && r.st == FailureOf(EventAt(script, r.at - 1)))
    decreases len
  {
    hide ReceiveAll, Calc.SegmentCount, WriteAt;
    Calc.OneSegment(len, segsize);
    var n, e := Min(segsize, len), EventAt(script, at);
    if len == 0 {
      ReceiveNothing(file, pos, segsize, script, at);
    } else if e.Fault? || |e.dgram| < n {
      ReceiveStops(file, pos, len, segsize, script, at);
    } else {
      ReceiveTurn(file, pos, len, segsize, script, at);
      ReceiveCalls(WriteAt(file, pos, e.dgram[..n]), pos + n, len - n, segsize, script, at + 1);
    }
  }

  /** What a call that ends an attempt leads to: its own status, or LOWSIZE for a datagram that is too short. */
  function FailureOf(e: Event): Status { if e.Fault? then e.st else LOWSIZE }

  /**
   * An attempt succeeds exactly when the seek is accepted, the low-water mark can be set if the chunk starts at 0,
   * every segment arrives whole, and `mfsync` succeeds; otherwise the call made last says why it failed.
   */
  lemma PullChunkExactly(file: seq<byte>, start: nat, len: nat, segsize: nat, script: seq<Event>, at: nat)
    requires segsize > 0
    ensures var r := PullChunk(file, start, len, segsize, script, at);
            var from := if start == 0 then at + 1 else at;
            var synced := from + Calc.SegmentCount(len, segsize);
            && (r.st == SUCCESS <==>
                  && (start == 0 || start < |file|) && (start == 0 ==> EventAt(script, at).Ok?)
                  && |Taken(len, segsize, script, from)| == len && EventAt(script, synced).Ok?)
            && (r.st == SUCCESS ==> r.at == synced + 1)
            && (r.st != SUCCESS && (start == 0 || start < |file|) ==>
                  r.at > at && r.st == FailureOf(EventAt(script, r.at - 1)))
            && (start > 0 && start >= |file| ==> r == Received(EMFSEEK, at, file))
  {
    hide ReceiveAll, Taken, Calc.SegmentCount;
    var from := if start == 0 then at + 1 else at;
    ReceiveOverwritesPrefix(file, start, len, segsize, script, from);
    ReceiveCalls(file, start, len, segsize, script, from);
  }

  // ---------- what is sent is what is received ----------

  /** How a chunk is cut. */
  function Segments(data: seq<byte>, segsize: nat): seq<seq<byte>>
    requires segsize > 0
    decreases |data|
  {
    if |data| == 0 then []
    else
      var n := Min(segsize, |data|);
      [data[..n]] + Segments(data[n..], segsize)
  }

  function Datagrams(parts: seq<seq<byte>>): seq<Out> {
    seq(|parts|, k requires 0 <= k < |parts| => Datagram(parts[k]))
  }

  /** A chunk takes as many datagrams as the length divided by the segment size, rounded up. */
  lemma {:induction false} SegmentCount(data: seq<byte>, segsize: nat)
    requires segsize > 0
    ensures |Segments(data, segsize)| == Calc.SegmentCount(|data|, segsize)
    decreases |data|
  {
    hide Calc.SegmentCount;
    Calc.OneSegment(|data|, segsize);
    if |data| > 0 {
      SegmentCount(data[Min(segsize, |data|)..], segsize);
    }
  }

  lemma LogOneMore(log: seq<Out>, first: seq<byte>, rest: seq<seq<byte>>)
    ensures log + Datagrams([first] + rest) == (log + [Datagram(first)]) + Datagrams(rest)
  {
    assert Datagrams([first] + rest) == [Datagram(first)] + Datagrams(rest);
  }

  /** While every call succeeds, `push_chunk_data` emits exactly the segments of the chunk. */
  lemma {:induction false} SendAllEmitsSegments(file: seq<byte>, pos: nat, len: nat, segsize: nat,
                                                script: seq<Event>, at: nat, log: seq<Out>)
    requires segsize > 0 && pos + len <= |file|
    requires forall k | at <= k < at + |Segments(file[pos..pos + len], segsize)| :: EventAt(script, k).Ok?
    ensures var parts := Segments(file[pos..pos + len], segsize);
            SendAll(file, pos, len, segsize, script, at, log) == Sent(SUCCESS, at + |parts|, log + Datagrams(parts))
    decreases len
  {
    hide SendAll;
    if len > 0 {
      var n := Min(segsize, len);
      var data := file[pos..pos + len];
      assert data[n..] == file[pos + n..pos + n + (len - n)];
      assert data[..n] == file[pos..pos + n];
      var first := log + [Datagram(file[pos..pos + n])];
      assert |Segments(data, segsize)| > 0;
      SendTurn(file, pos, len, segsize, script, at, log);
      SendAllEmitsSegments(file, pos + n, len - n, segsize, script, at + 1, first);
      LogOneMore(log, data[..n], Segments(data[n..], segsize));
    } else {
      SendNothing(file, pos, segsize, script, at, log);
      assert Datagrams([]) == [];
    }
  }

  /**
   * In any case the calls that succeed send the first segments of the chunk in order, and the status is SUCCESS exactly
   * when that is all of them, and otherwise that of the call that failed.
   */
  lemma {:induction false} SendAllExactly(file: seq<byte>, pos: nat, len: nat, segsize: nat,
                                          script: seq<Event>, at: nat, log: seq<Out>)
    requires segsize > 0 && pos + len <= |file|
    ensures var r := SendAll(file, pos, len, segsize, script, at, log);
            var parts := Segments(file[pos..pos + len], segsize);
            if r.st == SUCCESS then r.at == at + |parts| && r.log == log + Datagrams(parts)
            else
              && at < r.at <= at + |parts| && EventAt(script, r.at - 1).Fault? && EventAt(script, r.at - 1).st == r.st
              && r.log == log + Datagrams(parts[..r.at - 1 - at])
    decreases len
  {
    hide SendAll;
    var data := file[pos..pos + len];
    if len == 0 {
      SendNothing(file, pos, segsize, script, at, log);
      assert log + Datagrams([]) == log;
    } else if EventAt(script, at).Fault? {
      SendStops(file, pos, len, segsize, script, at, log);
      assert |Segments(data, segsize)| > 0;
      assert log + Datagrams([]) == log;
    } else {
      var n := Min(segsize, len);
      assert data[n..] == file[pos + n..pos + n + (len - n)] && data[..n] == file[pos..pos + n];
      var first := log + [Datagram(file[pos..pos + n])];
      SendTurn(file, pos, len, segsize, script, at, log);
      SendAllExactly(file, pos + n, len - n, segsize, script, at + 1, first);
      var r, rest := SendAll(file, pos, len, segsize, script, at, log), Segments(data[n..], segsize);
      assert Segments(data, segsize) == [data[..n]] + rest;
      LogOneMore(log, data[..n], rest);
      if r.st != SUCCESS {
        LogOneMore(log, data[..n], rest[..r.at - 2 - at]);
        assert Segments(data, segsize)[..r.at - 1 - at] == [data[..n]] + rest[..r.at - 2 - at];
      }
    }
  }

  /** From call number `at` on, the network delivers exactly these datagrams. */
  predicate Delivers(script: seq<Event>, at: nat, parts: seq<seq<byte>>)
    decreases |parts|
  {
    |parts| == 0
    || (EventAt(script, at).Ok? && EventAt(script, at).dgram == parts[0] && Delivers(script, at + 1, parts[1..]))
  }

  /** Fed those segments in order, `pull_chunk_data` rebuilds the chunk, for every length and segment size. */
  lemma {:induction false} SegmentsRebuildChunk(data: seq<byte>, file: seq<byte>, pos: nat, segsize: nat,
                                                script: seq<Event>, at: nat)
    requires segsize > 0 && Delivers(script, at, Segments(data, segsize))
    ensures ReceiveAll(file, pos, |data|, segsize, script, at)
         == Received(SUCCESS, at + |Segments(data, segsize)|, WriteAt(file, pos, data))
    decreases |data|
  {
    if |data| > 0 {
      var n := Min(segsize, |data|);
      assert Segments(data, segsize)[1..] == Segments(data[n..], segsize);
      assert data[..n][..n] == data[..n];
      SegmentsRebuildChunk(data[n..], WriteAt(file, pos, data[..n]), pos + n, segsize, script, at + 1);
      WriteAtTwice(file, pos, data[..n], data[n..]);
      assert data[..n] + data[n..] == data;
    } else {
      assert WriteAt(file, pos, data) == file;
    }
  }
}
