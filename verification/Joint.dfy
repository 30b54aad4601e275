/**
 * Both ends at once: the two machines, a FIFO of control packets in each direction, and the datagram network.
 * An action lets one end make its pending kernel call; a run is any sequence of enabled actions.
 */
module Joint {
  import opened Types
  import opened Wire
  import opened Io
  import P = PusherMachine
  import Q = PullerMachine

  datatype Params = Params(push: P.Conf, pull: Q.Conf)
  {
    ghost predicate Valid() {
      push.Valid() && pull.tries > 0 && pull.crc32 == push.crc32 && pull.crc16 == push.crc16
    }
  }

  /** `down` and `up` hold the control packets in flight, `net` the datagrams; `sent` counts the datagrams sent. */
  datatype State = State(p: P.State, q: Q.State, down: seq<Packet>, up: seq<Packet>, net: seq<seq<byte>>, sent: nat)

  /**
   * `PullerGets` hands the puller any bytes at all as its next datagram: loss, duplication, reordering, corruption
   * and stale data are all such choices. `PullerTakes` hands it the oldest datagram in flight. A `Fails` action
   * makes the pending call fail, timeouts included.
   */
  datatype Action =
    | PusherGo
    | PusherFails(st: IoStatus)
    | PullerGo(created: bool)
    | PullerGets(dgram: seq<byte>)
    | PullerTakes
    | PullerFails(st: IoStatus)

  function Init(c: Params): State { State(P.Init(c.push), Q.Init(c.pull), [], [], [], 0) }

  predicate Enabled(s: State, a: Action) {
    match a
    case PusherGo => !P.Halted(s.p) && (P.Pulls(s.p.pc) ==> |s.up| > 0)
    case PusherFails(_) => !P.Halted(s.p)
    case PullerGo(_) => !Q.Halted(s.q) && !s.q.pc.DataPull? && (Q.Pulls(s.q.pc) ==> |s.down| > 0)
    case PullerGets(_) => !Q.Halted(s.q) && s.q.pc.DataPull?
    case PullerTakes => !Q.Halted(s.q) && s.q.pc.DataPull? && |s.net| > 0
    case PullerFails(_) => !Q.Halted(s.q)
  }

  function Controls(out: seq<Out>): seq<Packet> { if |out| == 1 && out[0].Control? then [out[0].packet] else [] }

  function Datagrams(out: seq<Out>): seq<seq<byte>> { if |out| == 1 && out[0].Datagram? then [out[0].bytes] else [] }

  /** A success that delivers nothing of interest. */
  const DONE: Event := Ok(Recv(0, 0, 0), [], true)

  function PusherNext(c: Params, s: State): State
    requires Enabled(s, PusherGo)
  {
    if P.Pulls(s.p.pc) then
      s.(p := P.Step(c.push, s.p, Ok(s.up[0], [], true)), up := if s.up[0].Recv? then s.up[1..] else s.up)
    else
      var out := P.Emit(c.push, s.p);
      s.(p := P.Step(c.push, s.p, DONE), down := s.down + Controls(out), net := s.net + Datagrams(out),
         sent := s.sent + |Datagrams(out)|)
  }

  function PullerNext(c: Params, s: State, created: bool): State
    requires Enabled(s, PullerGo(created))
  {
    if Q.Pulls(s.q.pc) then
      s.(q := Q.Step(c.pull, s.q, Ok(s.down[0], [], created)),
         down := if Q.Wanted(s.q.pc, s.down[0]) then s.down[1..] else s.down)
    else
      s.(q := Q.Step(c.pull, s.q, DONE), up := s.up + Controls(Q.Emit(c.pull, s.q)))
  }

  function PullerReceives(c: Params, s: State, dgram: seq<byte>): State
    requires Enabled(s, PullerGets(dgram))
  {
    s.(q := Q.Step(c.pull, s.q, Ok(Recv(0, 0, 0), dgram, true)))
  }

  function Next(c: Params, s: State, a: Action): State
    requires Enabled(s, a)
  {
    match a
    case PusherGo => PusherNext(c, s)
    case PusherFails(st) => s.(p := P.Step(c.push, s.p, Fault(st)))
    case PullerGo(created) => PullerNext(c, s, created)
    case PullerGets(dgram) => PullerReceives(c, s, dgram)
    case PullerTakes => PullerReceives(c, s, s.net[0]).(net := s.net[1..])
    case PullerFails(st) => s.(q := Q.Step(c.pull, s.q, Fault(st)))
  }

  // ---------- runs ----------

  ghost predicate IsRun(c: Params, s: State, actions: seq<Action>)
    decreases |actions|
  {
    |actions| == 0 || (Enabled(s, actions[0]) && IsRun(c, Next(c, s, actions[0]), actions[1..]))
  }

  ghost function Final(c: Params, s: State, actions: seq<Action>): State
    requires IsRun(c, s, actions)
    decreases |actions|
  {
    if |actions| == 0 then s else Final(c, Next(c, s, actions[0]), actions[1..])
  }

  /** Reachable from the start by some run. */
  ghost predicate Reachable(c: Params, s: State) {
    exists actions: seq<Action> :: IsRun(c, Init(c), actions) && Final(c, Init(c), actions) == s
  }

  lemma {:induction false} RunSnoc(c: Params, s: State, actions: seq<Action>, a: Action)
    requires IsRun(c, s, actions) && Enabled(Final(c, s, actions), a)
    ensures IsRun(c, s, actions + [a]) && Final(c, s, actions + [a]) == Next(c, Final(c, s, actions), a)
    decreases |actions|
  {
    if |actions| == 0 {
      assert actions + [a] == [a];
      assert IsRun(c, Next(c, s, a), []);
    } else {
      RunSnoc(c, Next(c, s, actions[0]), actions[1..], a);
      assert (actions + [a])[1..] == actions[1..] + [a];
    }
  }

  lemma InitReachable(c: Params)
    ensures Reachable(c, Init(c))
  {
    assert IsRun(c, Init(c), []) && Final(c, Init(c), []) == Init(c);
  }

  /** One more step from a reachable state. */
  lemma ReachableNext(c: Params, s: State, a: Action) returns (next: State)
    requires Reachable(c, s) && Enabled(s, a)
    ensures next == Next(c, s, a) && Reachable(c, next)
  {
    var actions: seq<Action> :| IsRun(c, Init(c), actions) && Final(c, Init(c), actions) == s;
    RunSnoc(c, Init(c), actions, a);
    next := Next(c, s, a);
  }
}
