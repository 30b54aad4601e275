/**
 * What one end lives through in a joint run is a script of call outcomes, and the run its loops make against that
 * script is its part of the joint run.
 */
module Local {
  import opened Types
  import opened Wire
  import opened Io
  import opened Runs
  import opened Joint
  import P = PusherMachine
  import Q = PullerMachine

  /** The outcome an action gives to a call of the pusher, if it is one. */
  function PusherEvent(s: State, a: Action): seq<Event>
    requires Enabled(s, a)
  {
    match a
    case PusherGo => [if P.Pulls(s.p.pc) then Ok(s.up[0], [], true) else DONE]
    case PusherFails(st) => [Fault(st)]
    case _ => []
  }

  ghost function PusherScript(c: Params, s: State, actions: seq<Action>): seq<Event>
    requires IsRun(c, s, actions)
    decreases |actions|
  {
    if |actions| == 0 then []
    else PusherEvent(s, actions[0]) + PusherScript(c, Next(c, s, actions[0]), actions[1..])
  }

  /** The outcome an action gives to a call of the puller, if it is one. */
  function PullerEvent(s: State, a: Action): seq<Event>
    requires Enabled(s, a)
  {
    match a
    case PullerGo(created) => [if Q.Pulls(s.q.pc) then Ok(s.down[0], [], created) else DONE]
    case PullerGets(dgram) => [Ok(Recv(0, 0, 0), dgram, true)]
    case PullerTakes => [Ok(Recv(0, 0, 0), s.net[0], true)]
    case PullerFails(st) => [Fault(st)]
    case _ => []
  }

  ghost function PullerScript(c: Params, s: State, actions: seq<Action>): seq<Event>
    requires IsRun(c, s, actions)
    decreases |actions|
  {
    if |actions| == 0 then []
    else PullerEvent(s, actions[0]) + PullerScript(c, Next(c, s, actions[0]), actions[1..])
  }

  // ---------- what is sent and what is pulled ----------

  /** What an action makes the pusher, or the puller, send. */
  function PusherOut(c: Params, s: State, a: Action): seq<Out> { if a.PusherGo? then P.Emit(c.push, s.p) else [] }

  function PullerOut(c: Params, s: State, a: Action): seq<Out> { if a.PullerGo? then Q.Emit(c.pull, s.q) else [] }

  /** What it makes them take out of their queue. */
  function PusherPicks(s: State, a: Action): seq<Packet>
    requires Enabled(s, a)
  {
    if a.PusherGo? && P.Pulls(s.p.pc) && s.up[0].Recv? then [s.up[0]] else []
  }

  function PullerPicks(s: State, a: Action): seq<Packet>
    requires Enabled(s, a)
  {
    if a.PullerGo? && Q.Pulls(s.q.pc) && Q.Wanted(s.q.pc, s.down[0]) then [s.down[0]] else []
  }

  function NetPicks(s: State, a: Action): seq<seq<byte>>
    requires Enabled(s, a)
  {
    if a.PullerTakes? then [s.net[0]] else []
  }

  lemma StepQueues(c: Params, s: State, a: Action)
    requires Enabled(s, a)
    ensures s.down + Controls(PusherOut(c, s, a)) == PullerPicks(s, a) + Next(c, s, a).down
    ensures s.up + Controls(PullerOut(c, s, a)) == PusherPicks(s, a) + Next(c, s, a).up
    ensures s.net + Datagrams(PusherOut(c, s, a)) == NetPicks(s, a) + Next(c, s, a).net
    ensures Next(c, s, a).sent == s.sent + |Datagrams(PusherOut(c, s, a))|
    ensures |PusherOut(c, s, a)| <= 1 && |PullerOut(c, s, a)| <= 1
  {
    hide P.Step, Q.Step;
  }

  /** What the two ends send in the course of a joint run. */
  ghost function PusherSent(c: Params, s: State, actions: seq<Action>): seq<Out>
    requires IsRun(c, s, actions)
    decreases |actions|
  {
    if |actions| == 0 then []
    else PusherOut(c, s, actions[0]) + PusherSent(c, Next(c, s, actions[0]), actions[1..])
  }

  ghost function PullerSent(c: Params, s: State, actions: seq<Action>): seq<Out>
    requires IsRun(c, s, actions)
    decreases |actions|
  {
    if |actions| == 0 then []
    else PullerOut(c, s, actions[0]) + PullerSent(c, Next(c, s, actions[0]), actions[1..])
  }

  /** What they take out of their queues. */
  ghost function PusherTaken(c: Params, s: State, actions: seq<Action>): seq<Packet>
    requires IsRun(c, s, actions)
    decreases |actions|
  {
    if |actions| == 0 then []
    else PusherPicks(s, actions[0]) + PusherTaken(c, Next(c, s, actions[0]), actions[1..])
  }

  ghost function PullerTaken(c: Params, s: State, actions: seq<Action>): seq<Packet>
    requires IsRun(c, s, actions)
    decreases |actions|
  {
    if |actions| == 0 then []
    else PullerPicks(s, actions[0]) + PullerTaken(c, Next(c, s, actions[0]), actions[1..])
  }

  ghost function NetTaken(c: Params, s: State, actions: seq<Action>): seq<seq<byte>>
    requires IsRun(c, s, actions)
    decreases |actions|
  {
    if |actions| == 0 then []
    else NetPicks(s, actions[0]) + NetTaken(c, Next(c, s, actions[0]), actions[1..])
  }

  /** The control packets a machine pulls off the stream while it runs against a script. */
  function PusherPulled(c: P.Conf, p: P.State, script: seq<Event>, at: nat): seq<Packet>
    decreases |script| - at
  {
    if P.Halted(p) || at >= |script| then []
    else
      var e := script[at];
      (if P.Pulls(p.pc) && e.Ok? && e.packet.Recv? then [e.packet] else [])
      + PusherPulled(c, P.Step(c, p, e), script, at + 1)
  }

  function PullerPulled(c: Q.Conf, q: Q.State, script: seq<Event>, at: nat): seq<Packet>
    decreases |script| - at
  {
    if Q.Halted(q) || at >= |script| then []
    else
      var e := script[at];
      (if Q.Pulls(q.pc) && e.Ok? && Q.Wanted(q.pc, e.packet) then [e.packet] else [])
      + PullerPulled(c, Q.Step(c, q, e), script, at + 1)
  }

  /** The control packets, and the datagrams, of a log. */
  function Packets(log: seq<Out>): seq<Packet> {
    if |log| == 0 then [] else Controls(log[..1]) + Packets(log[1..])
  }

  function Bytes(log: seq<Out>): seq<seq<byte>> {
    if |log| == 0 then [] else Datagrams(log[..1]) + Bytes(log[1..])
  }

  lemma LogSplits(first: seq<Out>, rest: seq<Out>)
    requires |first| <= 1
    ensures Packets(first + rest) == Controls(first) + Packets(rest)
    ensures Bytes(first + rest) == Datagrams(first) + Bytes(rest)
  {
    if |first| == 0 {
      assert first + rest == rest;
    } else {
      assert (first + rest)[..1] == first && (first + rest)[1..] == rest;
    }
  }

  /** A step of a FIFO, then the rest of its history. */
  lemma Chain<T>(queue: seq<T>, put: seq<T>, took: seq<T>, next: seq<T>, later: seq<T>, taken: seq<T>, last: seq<T>)
    requires queue + put == took + next && next + later == taken + last
    ensures queue + (put + later) == (took + taken) + last
  {
    assert queue + (put + later) == (queue + put) + later;
    assert (took + next) + later == took + (next + later);
    assert took + (taken + last) == (took + taken) + last;
  }

  /** Each queue is a FIFO over whole runs: what was in it and what is sent is what is taken and what is left. */
  lemma {:induction false} QueuesAreFifo(c: Params, s: State, actions: seq<Action>)
    requires IsRun(c, s, actions)
    ensures s.down + Packets(PusherSent(c, s, actions)) == PullerTaken(c, s, actions) + Final(c, s, actions).down
    ensures s.up + Packets(PullerSent(c, s, actions)) == PusherTaken(c, s, actions) + Final(c, s, actions).up
    ensures s.net + Bytes(PusherSent(c, s, actions)) == NetTaken(c, s, actions) + Final(c, s, actions).net
    ensures Final(c, s, actions).sent == s.sent + |Bytes(PusherSent(c, s, actions))|
    decreases |actions|
  {
    hide Next, Enabled, PusherOut, PullerOut, PusherPicks, PullerPicks, NetPicks, Controls, Datagrams;
    if |actions| > 0 {
      var a := actions[0];
      var next, last, rest := Next(c, s, a), Final(c, s, actions), actions[1..];
      StepQueues(c, s, a);
      LogSplits(PusherOut(c, s, a), PusherSent(c, next, rest));
      LogSplits(PullerOut(c, s, a), PullerSent(c, next, rest));
      QueuesAreFifo(c, next, rest);
      Chain(s.down, Controls(PusherOut(c, s, a)), PullerPicks(s, a), next.down,
            Packets(PusherSent(c, next, rest)), PullerTaken(c, next, rest), last.down);
      Chain(s.up, Controls(PullerOut(c, s, a)), PusherPicks(s, a), next.up,
            Packets(PullerSent(c, next, rest)), PusherTaken(c, next, rest), last.up);
      Chain(s.net, Datagrams(PusherOut(c, s, a)), NetPicks(s, a), next.net,
            Bytes(PusherSent(c, next, rest)), NetTaken(c, next, rest), last.net);
    }
  }

  // ---------- each end by itself ----------

  lemma PusherStep(c: Params, s: State, a: Action)
    requires Enabled(s, a)
    ensures if a.PusherGo? || a.PusherFails? then
              && |PusherEvent(s, a)| == 1 && !P.Halted(s.p)
              && var e := PusherEvent(s, a)[0];
              && Next(c, s, a).p == P.Step(c.push, s.p, e)
              && PusherOut(c, s, a) == (if e.Ok? then P.Emit(c.push, s.p) else [])
              && PusherPicks(s, a) == if P.Pulls(s.p.pc) && e.Ok? && e.packet.Recv? then [e.packet] else []
            else
              PusherEvent(s, a) == [] && Next(c, s, a).p == s.p && PusherOut(c, s, a) == [] && PusherPicks(s, a) == []
  {
  }

  lemma {:induction false} PusherPulledIsTaken(c: Params, s: State, actions: seq<Action>, script: seq<Event>, at: nat)
    requires IsRun(c, s, actions)
    requires at <= |script| && script[at..] == PusherScript(c, s, actions)
    ensures PusherPulled(c.push, s.p, script, at) == PusherTaken(c, s, actions)
    decreases |actions|
  {
    hide Next, Enabled, PusherEvent, PusherOut, PusherPicks, P.Step, P.Emit, P.Pulls;
    if |actions| > 0 {
      var a, rest := actions[0], actions[1..];
      var next := Next(c, s, a);
      PusherStep(c, s, a);
      if a.PusherGo? || a.PusherFails? {
        assert script[at] == PusherEvent(s, a)[0];
        assert script[at + 1..] == PusherScript(c, next, rest);
        PusherPulledIsTaken(c, next, rest, script, at + 1);
      } else {
        assert [] + PusherScript(c, next, rest) == PusherScript(c, next, rest);
        assert [] + PusherTaken(c, next, rest) == PusherTaken(c, next, rest);
        PusherPulledIsTaken(c, next, rest, script, at);
      }
    }
  }

  lemma {:induction false} PusherExec(c: Params, s: State, actions: seq<Action>, log: seq<Out>,
                                      script: seq<Event>, at: nat)
    requires IsRun(c, s, actions)
    requires at <= |script| && script[at..] == PusherScript(c, s, actions)
    ensures var run := Exec(P.Sender(c.push), Run(s.p, log), script, at);
            && run.log == log + PusherSent(c, s, actions)
            && (P.Halted(Final(c, s, actions).p) ==> run.s == Final(c, s, actions).p)
    decreases |actions|
  {
    hide Exec, Next, Enabled, PusherEvent, PusherOut, PusherPicks, P.Step, P.Emit, P.Pulls;
    ExecUnfolds(P.Sender(c.push), Run(s.p, log), script, at);
    if |actions| > 0 {
      var a, rest := actions[0], actions[1..];
      var next := Next(c, s, a);
      PusherStep(c, s, a);
      if a.PusherGo? || a.PusherFails? {
        assert script[at] == PusherEvent(s, a)[0];
        assert script[at + 1..] == PusherScript(c, next, rest);
        PusherExec(c, next, rest, P.After(c.push, Run(s.p, log), script[at]).log, script, at + 1);
        assert (log + PusherOut(c, s, a)) + PusherSent(c, next, rest) == log + PusherSent(c, s, actions);
      } else {
        assert [] + PusherScript(c, next, rest) == PusherScript(c, next, rest);
        assert [] + PusherSent(c, next, rest) == PusherSent(c, next, rest);
        PusherExec(c, next, rest, log, script, at);
      }
    }
  }

  /**
   * The loops of the pusher, run against what the joint run gave it, send what the pusher sends there and end as it
   * ends there; and what they pull is, in order, what the puller has sent, up to what is still in flight.
   */
  lemma PusherAlone(c: Params, actions: seq<Action>)
    requires IsRun(c, Init(c), actions)
    ensures var script, last := PusherScript(c, Init(c), actions), Final(c, Init(c), actions);
            var run := Exec(P.Sender(c.push), Run(P.Init(c.push), []), script, 0);
            && run.log == PusherSent(c, Init(c), actions)
            && (P.Halted(last.p) ==> run.s == last.p)
            && Packets(PullerSent(c, Init(c), actions)) == PusherPulled(c.push, P.Init(c.push), script, 0) + last.up
  {
    PusherExec(c, Init(c), actions, [], PusherScript(c, Init(c), actions), 0);
    PusherPulledIsTaken(c, Init(c), actions, PusherScript(c, Init(c), actions), 0);
    QueuesAreFifo(c, Init(c), actions);
  }

  lemma PullerStep(c: Params, s: State, a: Action)
    requires Enabled(s, a)
    ensures if a.PusherGo? || a.PusherFails? then
              PullerEvent(s, a) == [] && Next(c, s, a).q == s.q && PullerOut(c, s, a) == [] && PullerPicks(s, a) == []
            else
              && |PullerEvent(s, a)| == 1 && !Q.Halted(s.q)
              && var e := PullerEvent(s, a)[0];
              && Next(c, s, a).q == Q.Step(c.pull, s.q, e)
              && PullerOut(c, s, a) == (if e.Ok? then Q.Emit(c.pull, s.q) else [])
              && PullerPicks(s, a) == if Q.Pulls(s.q.pc) && e.Ok? && Q.Wanted(s.q.pc, e.packet) then [e.packet] else []
  {
  }

  lemma {:induction false} PullerPulledIsTaken(c: Params, s: State, actions: seq<Action>, script: seq<Event>, at: nat)
    requires IsRun(c, s, actions)
    requires at <= |script| && script[at..] == PullerScript(c, s, actions)
    ensures PullerPulled(c.pull, s.q, script, at) == PullerTaken(c, s, actions)
    decreases |actions|
  {
    hide Next, Enabled, PullerEvent, PullerOut, PullerPicks, Q.Step, Q.Emit, Q.Pulls, Q.Wanted;
    if |actions| > 0 {
      var a, rest := actions[0], actions[1..];
      var next := Next(c, s, a);
      PullerStep(c, s, a);
      if a.PusherGo? || a.PusherFails? {
        assert [] + PullerScript(c, next, rest) == PullerScript(c, next, rest);
        assert [] + PullerTaken(c, next, rest) == PullerTaken(c, next, rest);
        PullerPulledIsTaken(c, next, rest, script, at);
      } else {
        assert script[at] == PullerEvent(s, a)[0];
        assert script[at + 1..] == PullerScript(c, next, rest);
        PullerPulledIsTaken(c, next, rest, script, at + 1);
      }
    }
  }

  lemma {:induction false} PullerExec(c: Params, s: State, actions: seq<Action>, log: seq<Out>,
                                      script: seq<Event>, at: nat)
    requires IsRun(c, s, actions)
    requires at <= |script| && script[at..] == PullerScript(c, s, actions)
    ensures var run := Exec(Q.Receiver(c.pull), Run(s.q, log), script, at);
            && run.log == log + PullerSent(c, s, actions)
            && (Q.Halted(Final(c, s, actions).q) ==> run.s == Final(c, s, actions).q)
    decreases |actions|
  {
    hide Exec, Next, Enabled, PullerEvent, PullerOut, PullerPicks, Q.Step, Q.Emit, Q.Pulls, Q.Wanted;
    ExecUnfolds(Q.Receiver(c.pull), Run(s.q, log), script, at);
    if |actions| > 0 {
      var a, rest := actions[0], actions[1..];
      var next := Next(c, s, a);
      PullerStep(c, s, a);
      if a.PusherGo? || a.PusherFails? {
        assert [] + PullerScript(c, next, rest) == PullerScript(c, next, rest);
        assert [] + PullerSent(c, next, rest) == PullerSent(c, next, rest);
        PullerExec(c, next, rest, log, script, at);
      } else {
        assert script[at] == PullerEvent(s, a)[0];
        assert script[at + 1..] == PullerScript(c, next, rest);
        PullerExec(c, next, rest, Q.After(c.pull, Run(s.q, log), script[at]).log, script, at + 1);
        assert (log + PullerOut(c, s, a)) + PullerSent(c, next, rest) == log + PullerSent(c, s, actions);
      }
    }
  }

  /** The same for the puller, its file included. */
  lemma PullerAlone(c: Params, actions: seq<Action>)
    requires IsRun(c, Init(c), actions)
    ensures var script, last := PullerScript(c, Init(c), actions), Final(c, Init(c), actions);
            var run := Exec(Q.Receiver(c.pull), Run(Q.Init(c.pull), []), script, 0);
            && run.log == PullerSent(c, Init(c), actions)
            && (Q.Halted(last.q) ==> run.s == last.q)
            && Packets(PusherSent(c, Init(c), actions)) == PullerPulled(c.pull, Q.Init(c.pull), script, 0) + last.down
  {
    PullerExec(c, Init(c), actions, [], PullerScript(c, Init(c), actions), 0);
    PullerPulledIsTaken(c, Init(c), actions, PullerScript(c, Init(c), actions), 0);
    QueuesAreFifo(c, Init(c), actions);
  }
}
