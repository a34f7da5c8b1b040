/** Every asynchronous execution of a list of rounds computes the synchronous result.

  The ranks run their own code at their own pace, over FIFO channels or over channels with
  no buffering at all.  Whatever the interleaving, no run gets stuck before every rank has
  finished, and a rank that has finished holds the value the round-by-round specification
  gives it. */
module Execution {
  import opened Confluence
  import opened AsyncNet
  import opened Rounds
  import BufferedRounds
  import BlockingRounds

  /** The machine that runs buffered code, or the one that runs blocking code. */
  ghost function Step<V, M>(blocking: bool): (nat, Net<V, M>) -> Option<Net<V, M>> {
    if blocking then RendezvousStep else BufferedStep
  }

  ghost function Start<V, M>(rounds: seq<Round<V, M>>, blocking: bool): nat -> seq<Instr<V, M>> {
    (r: nat) => Program(rounds, r, blocking)
  }

  ghost function Nothing<V, M>(): nat -> seq<Instr<V, M>> {
    (r: nat) => []
  }

  lemma StepCommutes<V(!new), M(!new)>(blocking: bool)
    ensures Diamond(Step<V, M>(blocking))
  {
    hide BufferedStep, RendezvousStep;
    forall s: Net<V, M>, a, b |
      a != b && Step<V, M>(blocking)(a, s).Some? && Step<V, M>(blocking)(b, s).Some?
      ensures
        && Step(blocking)(b, Step(blocking)(a, s).value).Some?
        && Step(blocking)(b, Step(blocking)(a, s).value) == Step(blocking)(a, Step(blocking)(b, s).value)
    {
      if blocking { RendezvousCommutes(s, a, b); } else { BufferedCommutes(s, a, b); }
    }
  }

  lemma OneRound<V(!new), M(!new)>(
    rd: Round<V, M>, s: Net<V, M>, vals: seq<V>, rest: nat -> seq<Instr<V, M>>, blocking: bool)
    returns (run: seq<nat>, s': Net<V, M>)
    requires GroupOf(rd.member, |vals|)
    requires Quiet(s, vals, (r: nat) => Code(rd, r, blocking) + rest(r))
    ensures Exec(Step(blocking), s, run) == Some(s')
    ensures Quiet(s', SyncRound(rd, vals), rest)
  {
    hide Code;
    if blocking {
      assert Quiet(s, vals, (r: nat) => Code(rd, r, true) + rest(r));
      run, s' := BlockingRounds.RoundCompletes(rd, s, vals, rest);
    } else {
      assert Quiet(s, vals, (r: nat) => Code(rd, r, false) + rest(r));
      run, s' := BufferedRounds.RoundCompletes(rd, s, vals, rest);
    }
  }

  /** Some schedule runs all rounds one after the other. */
  lemma {:induction false} RoundByRound<V(!new), M(!new)>(
    rounds: seq<Round<V, M>>, s: Net<V, M>, vals: seq<V>, blocking: bool)
    returns (run: seq<nat>, s': Net<V, M>)
    requires ValidRounds(rounds, |vals|) && Quiet(s, vals, Start(rounds, blocking))
    ensures Exec(Step(blocking), s, run) == Some(s')
    ensures Quiet(s', RunRounds(rounds, vals), Nothing())
    decreases |rounds|
  {
    hide Code, SyncRound;
    if rounds == [] {
      run, s' := [], s;
    } else {
      var rest := Start(rounds[1..], blocking);
      assert Quiet(s, vals, (r: nat) => Code(rounds[0], r, blocking) + rest(r));
      var run1, s1 := OneRound(rounds[0], s, vals, rest, blocking);
      var run2;
      run2, s' := RoundByRound(rounds[1..], s1, SyncRound(rounds[0], vals), blocking);
      ExecAppend(Step(blocking), s, run1, run2);
      run := run1 + run2;
    }
  }

  lemma {:induction false} FinishedKeeps<V(!new), M(!new)>(s: Net<V, M>, run: seq<nat>, blocking: bool, r: nat)
    requires Exec(Step(blocking), s, run).Some?
    requires r < |s.ranks| && s.ranks[r].code == []
    ensures r < |Exec(Step(blocking), s, run).value.ranks|
    ensures Exec(Step(blocking), s, run).value.ranks[r] == s.ranks[r]
    decreases |run|
  {
    if run != [] {
      FinishedKeeps(Step(blocking)(run[0], s).value, run[1..], blocking, r);
    }
  }

  /** From every state that any interleaving can reach, the run can be completed to the one
      final state, where all ranks hold the synchronous result.  A state in which nobody can
      move is that final state, and a rank that is done early already holds its result. */
  lemma EveryRunComputes<V(!new), M(!new)>(
    rounds: seq<Round<V, M>>, s: Net<V, M>, vals: seq<V>, blocking: bool, run: seq<nat>)
    returns (rest: seq<nat>, t: Net<V, M>)
    requires ValidRounds(rounds, |vals|) && Quiet(s, vals, Start(rounds, blocking))
    requires Exec(Step(blocking), s, run).Some?
    ensures Quiet(t, RunRounds(rounds, vals), Nothing())
    ensures var u := Exec(Step(blocking), s, run).value;
            && Exec(Step(blocking), u, rest) == Some(t)
            && (Terminal(Step(blocking), u) ==> u == t)
            && |u.ranks| == |vals|
            && (forall r :: 0 <= r < |vals| && u.ranks[r].code == [] ==>
                  u.ranks[r].val == RunRounds(rounds, vals)[r])
  {
    hide Code;
    var sched;
    sched, t := RoundByRound(rounds, s, vals, blocking);
    StepCommutes<V, M>(blocking);
    assert Terminal(Step(blocking), t);
    rest := EveryRunLeadsTo(Step(blocking), s, sched, t, run);
    var u := Exec(Step(blocking), s, run).value;
    RanksStay(s, run, blocking);
    forall r | 0 <= r < |vals| && u.ranks[r].code == []
      ensures u.ranks[r].val == RunRounds(rounds, vals)[r]
    {
      FinishedKeeps(u, rest, blocking, r);
    }
  }

  lemma {:induction false} RanksStay<V(!new), M(!new)>(s: Net<V, M>, run: seq<nat>, blocking: bool)
    requires Exec(Step(blocking), s, run).Some?
    ensures |Exec(Step(blocking), s, run).value.ranks| == |s.ranks|
    decreases |run|
  {
    if run != [] {
      RanksStay(Step(blocking)(run[0], s).value, run[1..], blocking);
    }
  }
}
