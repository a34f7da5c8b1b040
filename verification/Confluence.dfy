/** Confluence of deterministic concurrent systems.

  A system is a partial step function `step(a, s)`: the state after actor `a` moves in
  state `s`, or `None` when `a` cannot move there.  When any two different enabled actors
  commute, one terminating schedule decides every other schedule: no run can be longer,
  none can get stuck early, and all of them can be continued to the same final state. */
module Confluence {
  datatype Option<+T> = None | Some(value: T)

  /** The state reached from `s` by letting the actors of `run` move in that order. */
  ghost function Exec<S>(step: (nat, S) -> Option<S>, s: S, run: seq<nat>): Option<S>
    decreases |run|
  {
    if run == [] then Some(s)
    else if step(run[0], s).None? then None
    else Exec(step, step(run[0], s).value, run[1..])
  }

  ghost predicate Diamond<S(!new)>(step: (nat, S) -> Option<S>) {
    forall s: S, a, b ::
      a != b && step(a, s).Some? && step(b, s).Some? ==>
        && step(b, step(a, s).value).Some?
        && step(b, step(a, s).value) == step(a, step(b, s).value)
  }

  ghost predicate Terminal<S>(step: (nat, S) -> Option<S>, s: S) {
    forall a: nat :: step(a, s).None?
  }

  lemma {:induction false} ExecAppend<S>(step: (nat, S) -> Option<S>, s: S, run: seq<nat>, more: seq<nat>)
    requires Exec(step, s, run).Some?
    ensures Exec(step, s, run + more) == Exec(step, Exec(step, s, run).value, more)
    decreases |run|
  {
    if run == [] {
      assert run + more == more;
    } else {
      ExecAppend(step, step(run[0], s).value, run[1..], more);
      assert (run + more)[0] == run[0] && (run + more)[1..] == run[1..] + more;
    }
  }

  /** Moving `b` first costs a terminating schedule exactly one of its moves. */
  lemma {:induction false} Strip<S(!new)>(step: (nat, S) -> Option<S>, s: S, sched: seq<nat>, t: S, b: nat)
    returns (rest: seq<nat>)
    requires Diamond(step)
    requires Exec(step, s, sched) == Some(t) && Terminal(step, t)
    requires step(b, s).Some?
    ensures |rest| + 1 == |sched|
    ensures Exec(step, step(b, s).value, rest) == Some(t)
    decreases |sched|
  {
    if sched == [] {
      assert false;
    } else if sched[0] == b {
      rest := sched[1..];
    } else {
      var a := sched[0];
      var viaA, viaB := step(a, s).value, step(b, s).value;
      assert step(b, viaA).Some? && step(b, viaA) == step(a, viaB);
      var rest' := Strip(step, viaA, sched[1..], t, b);
      rest := [a] + rest';
      assert rest[0] == a && rest[1..] == rest';
    }
  }

  /** One terminating schedule from `s` to `t` decides every run from `s`: it is no longer
      than the schedule, and it can be continued to `t`. */
  lemma {:induction false} EveryRunLeadsTo<S(!new)>(
    step: (nat, S) -> Option<S>, s: S, sched: seq<nat>, t: S, run: seq<nat>)
    returns (rest: seq<nat>)
    requires Diamond(step)
    requires Exec(step, s, sched) == Some(t) && Terminal(step, t)
    requires Exec(step, s, run).Some?
    ensures |run| + |rest| == |sched|
    ensures Exec(step, Exec(step, s, run).value, rest) == Some(t)
    ensures Terminal(step, Exec(step, s, run).value) ==> Exec(step, s, run).value == t
    decreases |run|
  {
    if run == [] {
      rest := sched;
    } else {
      var stripped := Strip(step, s, sched, t, run[0]);
      rest := EveryRunLeadsTo(step, step(run[0], s).value, stripped, t, run[1..]);
    }
  }
}
