/** Whole runs of one end against a script of call outcomes, for any machine that a failing call stops. */
module Runs {
  import opened Types
  import opened Io

  /** A state and everything sent on the way to it. */
  datatype Run<S> = Run(s: S, log: seq<Out>)

  /** Which states are final, and what one kernel call does to a run that is not. */
  datatype Machine<!S(!new)> = Machine(halted: S -> bool, after: (Run<S>, Event) -> Run<S>)
  {
    ghost predicate Stops() {
      forall r: Run<S> :: halted(after(r, Fault(TIMEOUT)).s)
    }
  }

  /** From a state, the end of the run: one kernel call after the other until the end halts. */
  function Exec<S(!new)>(m: Machine<S>, r: Run<S>, script: seq<Event>, at: nat): (last: Run<S>)
    ensures m.Stops() ==> m.halted(last.s)
    decreases |script| - at
  {
    if m.halted(r.s) then r
    else if at < |script| then Exec(m, m.after(r, script[at]), script, at + 1)
    else m.after(r, Fault(TIMEOUT))
  }

  lemma ExecUnfolds<S(!new)>(m: Machine<S>, r: Run<S>, script: seq<Event>, at: nat)
    ensures m.halted(r.s) ==> Exec(m, r, script, at) == r
    ensures !m.halted(r.s) && at < |script| ==>
              Exec(m, r, script, at) == Exec(m, m.after(r, script[at]), script, at + 1)
    ensures !m.halted(r.s) && at >= |script| ==> Exec(m, r, script, at) == m.after(r, Fault(TIMEOUT))
  {
  }

  /** A run from `first`, spelled out: entry `k` is where the end stands before kernel call `k`. */
  ghost predicate IsTrace<S(!new)>(m: Machine<S>, first: S, trace: seq<Run<S>>, script: seq<Event>) {
    && |trace| > 0 && trace[0] == Run(first, [])
    && forall k | 0 <= k < |trace| - 1 ::
         !m.halted(trace[k].s) && trace[k + 1] == m.after(trace[k], EventAt(script, k))
  }

  /** A trace that has come to a halt is the whole run. */
  lemma HaltedTraceIsExec<S(!new)>(m: Machine<S>, first: S, trace: seq<Run<S>>, script: seq<Event>)
    requires m.Stops() && IsTrace(m, first, trace, script) && m.halted(trace[|trace| - 1].s)
    ensures Exec(m, Run(first, []), script, 0) == trace[|trace| - 1]
  {
    TraceSuffixIsExec(m, first, trace, script, 0);
  }

  lemma {:induction false} TraceSuffixIsExec<S(!new)>(m: Machine<S>, first: S, trace: seq<Run<S>>,
                                                      script: seq<Event>, at: nat)
    requires m.Stops() && IsTrace(m, first, trace, script) && m.halted(trace[|trace| - 1].s) && at < |trace|
    ensures Exec(m, trace[at], script, at) == trace[|trace| - 1]
    decreases |trace| - at
  {
    if at < |trace| - 1 {
      TraceSuffixIsExec(m, first, trace, script, at + 1);
      if at >= |script| {
        assert trace[at + 1] == m.after(trace[at], Fault(TIMEOUT));
        assert m.halted(trace[at + 1].s);
      }
    }
  }
}
