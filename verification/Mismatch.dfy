/**
 * Which files a transfer can leave behind with SUCCESS, and so exactly what SUCCESS is worth at either end. The network
 * may deliver the bytes of any file that no chunk checksum tells from the pusher's; the run that does so mirrors the
 * lossless transfer of that other file.
 */
module Mismatch {
  import opened Types
  import opened Joint
  import opened Lockstep
  import opened Endings
  import opened Faithful
  import Calc
  import Safety
  import P = PusherMachine
  import Q = PullerMachine

  /** A file of the pusher's size that agrees with its file in every chunk's CRC32. */
  ghost predicate Twin(c: Params, g: seq<byte>) {
    |g| == |c.push.file| && forall k: u32 | 1 <= k <= c.push.chcount :: ChunkOk(c, g, k)
  }

  /** The same transfer for a pusher that holds `g`. */
  function Other(c: Params, g: seq<byte>): Params { c.(push := c.push.(file := g)) }

  ghost predicate PullerSucceeds(c: Params, s: State) {
    Reachable(c, s) && Q.Halted(s.q) && Q.Outcome(s.q) == SUCCESS
  }

  ghost predicate PusherSucceeds(c: Params, s: State) {
    Reachable(c, s) && P.Halted(s.p) && P.Outcome(s.p) == SUCCESS
  }

  // ---------- the mirrored run ----------

  /** Both transfers stand at the same point; only what depends on the CRC16 of the whole file may differ. */
  ghost predicate Mirrors(c: Params, g: seq<byte>, s: State, t: State) {
    && s.p == t.p && s.up == t.up
    && (s.q == t.q || (s.q.pc.VfReply? && t.q.pc.VfReply? && s.q == t.q.(pc := s.q.pc)))
    && (s.down == t.down || (s.down == [P.Goodbye(c.push)] && t.down == [P.Goodbye(Other(c, g).push)]))
  }

  /** The action that gives the first transfer what `a` gives the other. */
  function Mirrored(t: State, a: Action): Action
    requires Enabled(t, a)
  {
    if a.PullerTakes? then PullerGets(t.net[0]) else a
  }

  lemma MirrorPusherReads(c: Params, g: seq<byte>, s: State, t: State)
    requires |g| == |c.push.file| && Mirrors(c, g, s, t) && Enabled(t, PusherGo) && P.Pulls(t.p.pc)
    ensures Enabled(s, PusherGo) && Mirrors(c, g, Next(c, s, PusherGo), Next(Other(c, g), t, PusherGo))
  {
    hide Calc.Offset, P.Goodbye;
  }

  lemma MirrorPusherSends(c: Params, g: seq<byte>, s: State, t: State)
    requires c.Valid() && Twin(c, g) && Mirrors(c, g, s, t) && Inv(Other(c, g), t)
    requires Enabled(t, PusherGo) && !P.Pulls(t.p.pc)
    ensures Enabled(s, PusherGo) && Mirrors(c, g, Next(c, s, PusherGo), Next(Other(c, g), t, PusherGo))
  {
    hide Calc.Offset, P.Conf.Valid, PullerOk, Accepted, P.Goodbye;
    if t.p.pc.FlowSend? {
      assert ChunkOk(c, g, t.p.sequence);
    }
  }

  lemma MirrorPusher(c: Params, g: seq<byte>, s: State, t: State)
    requires c.Valid() && Twin(c, g) && Mirrors(c, g, s, t) && Inv(Other(c, g), t) && Enabled(t, PusherGo)
    ensures Enabled(s, PusherGo) && Mirrors(c, g, Next(c, s, PusherGo), Next(Other(c, g), t, PusherGo))
  {
    hide Next, Enabled, Mirrors, Inv, Params.Valid;
    if P.Pulls(t.p.pc) { MirrorPusherReads(c, g, s, t); } else { MirrorPusherSends(c, g, s, t); }
  }

  lemma MirrorPuller(c: Params, g: seq<byte>, s: State, t: State, a: Action)
    requires c.Valid() && Twin(c, g) && Mirrors(c, g, s, t) && Inv(Other(c, g), t)
    requires Enabled(t, a) && FaithfulAction(a) && !a.PusherGo?
    ensures Enabled(s, Mirrored(t, a))
    ensures var u, v := Next(c, s, Mirrored(t, a)), Next(Other(c, g), t, a);
            if v.q.pc.Done? then u.q == v.q else Mirrors(c, g, u, v)
  {
    hide Calc.Offset, P.Conf.Valid, PusherOk, Accepted;
  }

  lemma {:induction false} DoneStays(c: Params, s: State, actions: seq<Action>)
    requires IsRun(c, s, actions) && Q.Halted(s.q)
    ensures Final(c, s, actions).q == s.q
    decreases |actions|
  {
    if |actions| > 0 {
      DoneStays(c, Next(c, s, actions[0]), actions[1..]);
    }
  }

  /** The puller of the first transfer can end as the puller of the other does. */
  lemma {:induction false} MirrorAlong(c: Params, g: seq<byte>, s: State, t: State, actions: seq<Action>)
    returns (u: State)
    requires c.Valid() && Twin(c, g) && Reachable(c, s) && Inv(Other(c, g), t) && Other(c, g).Valid()
    requires if t.q.pc.Done? then s.q == t.q else Mirrors(c, g, s, t)
    requires s.p.fault.None?
    requires FaithfulRun(Other(c, g), t, actions) && Final(Other(c, g), t, actions).q.pc.Done?
    ensures Reachable(c, u) && u.q == Final(Other(c, g), t, actions).q && u.p.fault.None?
    decreases |actions|
  {
    hide Calc.Offset, Params.Valid, Inv, Twin, Other, Mirrors;
    if t.q.pc.Done? || |actions| == 0 {
      DoneStays(Other(c, g), t, actions);
      u := s;
    } else {
      var a := actions[0];
      InvKept(Other(c, g), t, a);
      if a.PusherGo? { MirrorPusher(c, g, s, t); } else { MirrorPuller(c, g, s, t, a); }
      u := ReachableNext(c, s, Mirrored(t, a));
      u := MirrorAlong(c, g, u, Next(Other(c, g), t, a), actions[1..]);
    }
  }

  // ---------- what SUCCESS is worth ----------

  lemma OtherIsValid(c: Params, g: seq<byte>)
    requires c.Valid() && Twin(c, g)
    ensures Other(c, g).Valid()
  {
  }

  /** Without failures the transfer can end with any twin of the file, and with the statuses its CRC16 earns. */
  lemma TwinIsReached(c: Params, g: seq<byte>) returns (s: State)
    requires c.Valid() && c.push.pchsize > 0 && Twin(c, g)
    ensures Reachable(c, s) && Verified(c, s) && s.q.file == g && s.p.fault.None? && s.q.fault.None?
  {
    hide Calc.Offset, P.Conf.Valid, Accepted, Twin, Stuck;
    var o := Other(c, g);
    OtherIsValid(c, g);
    LosslessInit(o);
    o.push.Derived();
    var actions := DeliveryIsReached(o, Init(o));
    InitReachable(c);
    s := MirrorAlong(c, g, Init(c), Init(o), actions);
    InvReachable(c, s);
    if s.p.pc.VfRecv? {
      s := ReachableNext(c, s, PusherGo);
    }
  }

  lemma SuccessLeavesTwin(c: Params, s: State)
    requires c.Valid() && PullerSucceeds(c, s)
    ensures Twin(c, s.q.file) && c.push.pchsize > 0
  {
    Safety.PullerSuccess(c, s);
    Safety.SuccessNeedsRemainder(c, s);
    c.push.Derived();
  }

  /** The files a puller can report SUCCESS for are the twins of the pusher's, no more and no fewer. */
  lemma PullerSuccessExactly(c: Params, g: seq<byte>)
    requires c.Valid()
    ensures (exists s :: PullerSucceeds(c, s) && s.q.file == g) <==> c.push.pchsize > 0 && Twin(c, g)
  {
    hide Params.Valid, Twin;
    if c.push.pchsize > 0 && Twin(c, g) {
      var s := TwinIsReached(c, g);
      assert PullerSucceeds(c, s);
    }
    forall s | PullerSucceeds(c, s)
      ensures Twin(c, s.q.file) && c.push.pchsize > 0
    {
      SuccessLeavesTwin(c, s);
    }
  }

  /** For the pusher they are those twins that have the CRC16 of its file as well. */
  lemma PusherSuccessExactly(c: Params, g: seq<byte>)
    requires c.Valid()
    ensures (exists s :: PusherSucceeds(c, s) && s.q.file == g)
            <==> c.push.pchsize > 0 && Twin(c, g) && c.push.crc16(g) == c.push.crc16(c.push.file)
  {
    hide Params.Valid, Twin;
    if c.push.pchsize > 0 && Twin(c, g) && c.push.crc16(g) == c.push.crc16(c.push.file) {
      var s := TwinIsReached(c, g);
      assert PusherSucceeds(c, s);
    }
    forall s | PusherSucceeds(c, s)
      ensures Twin(c, s.q.file) && c.push.pchsize > 0 && c.push.crc16(s.q.file) == c.push.crc16(c.push.file)
    {
      Safety.Agreement(c, s);
      SuccessLeavesTwin(c, s);
    }
  }

  /**
   * A SUCCESS of the puller vouches for the CRC16 exactly when the chunk checksums alone already decide it, or when no
   * transfer of the file succeeds.
   */
  lemma PullerVouchesExactly(c: Params)
    requires c.Valid()
    ensures (forall s | PullerSucceeds(c, s) :: c.push.crc16(s.q.file) == c.push.crc16(c.push.file))
            <==> c.push.pchsize == 0 || forall g | Twin(c, g) :: c.push.crc16(g) == c.push.crc16(c.push.file)
  {
    hide Params.Valid, Twin;
    forall s | PullerSucceeds(c, s)
      ensures Twin(c, s.q.file) && c.push.pchsize > 0
    {
      SuccessLeavesTwin(c, s);
    }
    if c.push.pchsize > 0 && forall s | PullerSucceeds(c, s) :: c.push.crc16(s.q.file) == c.push.crc16(c.push.file) {
      forall g | Twin(c, g)
        ensures c.push.crc16(g) == c.push.crc16(c.push.file)
      {
        var s := TwinIsReached(c, g);
        assert PullerSucceeds(c, s);
      }
    }
  }

  /** Every twin with another CRC16 gives a run without failures in which only the pusher learns of it. */
  lemma MismatchUnreported(c: Params, g: seq<byte>) returns (s: State)
    requires c.Valid() && c.push.pchsize > 0 && Twin(c, g) && c.push.crc16(g) != c.push.crc16(c.push.file)
    ensures Reachable(c, s) && Ended(s, ZEROACK, SUCCESS) && s.q.file == g
  {
    hide Params.Valid, Twin;
    s := TwinIsReached(c, g);
  }

  /** Two bytes, and two checksums that look at one byte each: there are twins with another CRC16. */
  lemma TwinExample() returns (c: Params, g: seq<byte>)
    ensures c.Valid() && c.push.pchsize > 0 && Twin(c, g) && c.push.crc16(g) != c.push.crc16(c.push.file)
  {
    var crc32: seq<byte> -> u32 := b => if |b| > 0 then b[0] else 0;
    var crc16: seq<byte> -> u16 := b => if |b| > 1 then b[1] else 0;
    c := Params(P.Conf([1, 1], 3, 1, crc32, crc16, 1, 2, 3), Q.Conf(1, crc32, crc16));
    g := [1, 0];
    c.push.StartsAtZero();
    assert Slice(g, 0, 2) == g && Slice([1, 1], 0, 2) == [1, 1];
  }
}
