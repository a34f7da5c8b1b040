/** Barriers.

  The messages of a barrier carry no data.  Here they carry, as a history variable, the
  set of ranks whose entry into the barrier happened before the message was sent: a rank
  starts out knowing only itself and merges what it hears.  A rank in that set, other than
  the rank itself, has really entered, and a rank that leaves has everyone in it. */
module Barrier {
  import opened Confluence
  import opened AsyncNet
  import opened Rounds
  import opened Groups
  import opened Execution
  import opened Gathering

  type Known = map<nat, ()>

  function Plain(m: Known): Known { m }

  function PlainCodec(): Codec<nat, (), Known> { Codec(Plain, Plain) }

  function BarrierRounds(member: seq<nat>, id: nat): seq<Round<Known, Known>> {
    HopRounds(member, id, GatherKind(PlainCodec()), 0)
  }

  /** Rank `q` has executed at least one instruction of its barrier code. */
  ghost predicate Entered(s: Net<Known, Known>, start: seq<nat>, q: nat) {
    q < |s.ranks| && q < |start| && |s.ranks[q].code| < start[q]
  }

  ghost predicate OnlyEntered(s: Net<Known, Known>, start: seq<nat>, m: Known) {
    forall q :: q in m ==> Entered(s, start, q)
  }

  /** The instruction passes on or merges what is known, and invents nothing. */
  ghost predicate Honest(i: Instr<Known, Known>) {
    match i
    case Send(_, msg) => forall v :: msg(v) == v
    case Compute(f) => forall v, l, r, k :: k in f(v, l, r) ==> k in v || k in l || k in r
    case _ => true
  }

  ghost predicate HonestCode(code: seq<Instr<Known, Known>>) {
    forall i :: 0 <= i < |code| ==> Honest(code[i])
  }

  ghost predicate HonestRank(s: Net<Known, Known>, start: seq<nat>, r: nat)
    requires r < |s.ranks| == |start|
  {
    var me := s.ranks[r];
    && HonestCode(me.code) && |me.code| <= start[r]
    && OnlyEntered(s, start, me.left) && OnlyEntered(s, start, me.right)
    && (forall q :: q in me.val ==> q == r || Entered(s, start, q))
  }

  /** Whatever a rank knows, and whatever is on its way, is true. */
  ghost predicate Truthful(s: Net<Known, Known>, start: seq<nat>) {
    && |s.ranks| == |start|
    && (forall r :: 0 <= r < |start| ==> HonestRank(s, start, r))
    && (forall c, i :: c in s.wires && 0 <= i < |s.wires[c]| ==> OnlyEntered(s, start, s.wires[c][i]))
  }

  lemma StillEntered(s: Net<Known, Known>, s': Net<Known, Known>, start: seq<nat>, m: Known)
    requires |s'.ranks| == |s.ranks| && OnlyEntered(s, start, m)
    requires forall r :: 0 <= r < |s.ranks| ==> |s'.ranks[r].code| <= |s.ranks[r].code|
    ensures OnlyEntered(s', start, m)
  {
  }

  lemma HonestRest(s: Net<Known, Known>, start: seq<nat>, r: nat)
    requires r < |s.ranks| == |start| && HonestRank(s, start, r) && s.ranks[r].code != []
    ensures Honest(s.ranks[r].code[0]) && HonestCode(s.ranks[r].code[1..])
  {
    hide Honest;
  }

  lemma BufferedTruthful(s: Net<Known, Known>, start: seq<nat>, a: nat)
    requires Truthful(s, start) && BufferedStep(a, s).Some?
    ensures Truthful(BufferedStep(a, s).value, start)
  {
    var s' := BufferedStep(a, s).value;
    assert HonestRank(s, start, a);
    HonestRest(s, start, a);
    var me, me' := s.ranks[a], s'.ranks[a];
    assert forall r :: 0 <= r < |s.ranks| && r != a ==> s'.ranks[r] == s.ranks[r];
    assert |me'.code| < |me.code|;
    assert Entered(s', start, a);
    hide HonestCode;
    forall r | 0 <= r < |start| && r != a ensures HonestRank(s', start, r) {
      assert HonestRank(s, start, r);
      StillEntered(s, s', start, s.ranks[r].left);
      StillEntered(s, s', start, s.ranks[r].right);
    }
    assert OnlyEntered(s', start, me.val) by {
      assert forall q :: q in me.val && q != a ==> Entered(s, start, q);
    }
    StillEntered(s, s', start, me.left);
    StillEntered(s, s', start, me.right);
    MovedRankHonest(s, s', start, a);
    forall c, i | c in s'.wires && 0 <= i < |s'.wires[c]| ensures OnlyEntered(s', start, s'.wires[c][i]) {
      WiresTruthful(s, s', start, a, c, i);
    }
  }

  lemma WiresTruthful(s: Net<Known, Known>, s': Net<Known, Known>, start: seq<nat>, a: nat, c: Channel, i: nat)
    requires Truthful(s, start) && BufferedStep(a, s) == Some(s')
    requires OnlyEntered(s', start, s.ranks[a].val) && Honest(s.ranks[a].code[0])
    requires c in s'.wires && i < |s'.wires[c]|
    ensures OnlyEntered(s', start, s'.wires[c][i])
  {
    hide HonestRank;
    assert forall r :: 0 <= r < |s.ranks| ==> |s'.ranks[r].code| <= |s.ranks[r].code|;
    if c in s.wires && s'.wires[c] == s.wires[c] {
      StillEntered(s, s', start, s.wires[c][i]);
    } else {
      var q := Queued(s.wires, c);
      assert !s.ranks[a].code[0].Compute? && c == Wire(s.ranks[a].code[0]);
      assert s'.wires[c] == QueueAfter(s.ranks[a], q);
      if s.ranks[a].code[0].Send? {
        if i < |q| { StillEntered(s, s', start, s.wires[c][i]); }
      } else {
        StillEntered(s, s', start, s.wires[c][i + 1]);
      }
    }
  }

  lemma MovedRankHonest(s: Net<Known, Known>, s': Net<Known, Known>, start: seq<nat>, a: nat)
    requires Truthful(s, start) && BufferedStep(a, s) == Some(s')
    requires Honest(s.ranks[a].code[0]) && HonestCode(s.ranks[a].code[1..])
    requires OnlyEntered(s', start, s.ranks[a].val)
    requires OnlyEntered(s', start, s.ranks[a].left) && OnlyEntered(s', start, s.ranks[a].right)
    ensures HonestRank(s', start, a)
  {
    hide HonestCode;
    assert HonestRank(s, start, a);
    var me := s.ranks[a];
    if me.code[0].RecvLeft? || me.code[0].RecvRight? {
      var c := Wire(me.code[0]);
      assert forall r :: 0 <= r < |s.ranks| ==> |s'.ranks[r].code| <= |s.ranks[r].code|;
      StillEntered(s, s', start, s.wires[c][0]);
    }
  }

  lemma RendezvousTruthful(s: Net<Known, Known>, start: seq<nat>, a: nat)
    requires Truthful(s, start) && RendezvousStep(a, s).Some?
    ensures Truthful(RendezvousStep(a, s).value, start)
  {
    var s' := RendezvousStep(a, s).value;
    assert HonestRank(s, start, a);
    HonestRest(s, start, a);
    var me := s.ranks[a];
    assert forall r :: 0 <= r < |s.ranks| ==> |s'.ranks[r].code| <= |s.ranks[r].code|;
    assert Entered(s', start, a);
    assert OnlyEntered(s', start, me.val) by {
      assert forall q :: q in me.val && q != a ==> Entered(s, start, q);
    }
    if me.code[0].Send? {
      var b := me.code[0].to.dst;
      assert HonestRank(s, start, b);
      HonestRest(s, start, b);
    }
    hide HonestCode;
    forall r | 0 <= r < |start| ensures HonestRank(s', start, r) {
      assert HonestRank(s, start, r);
      StillEntered(s, s', start, s.ranks[r].left);
      StillEntered(s, s', start, s.ranks[r].right);
    }
    forall c, i | c in s'.wires && 0 <= i < |s'.wires[c]| ensures OnlyEntered(s', start, s'.wires[c][i]) {
      StillEntered(s, s', start, s.wires[c][i]);
    }
  }

  lemma {:induction false} AlwaysTruthful(s: Net<Known, Known>, start: seq<nat>, run: seq<nat>, blocking: bool)
    requires Truthful(s, start) && Exec(Step(blocking), s, run).Some?
    ensures Truthful(Exec(Step(blocking), s, run).value, start)
    decreases |run|
  {
    if run != [] {
      hide Truthful;
      if blocking { RendezvousTruthful(s, start, run[0]); } else { BufferedTruthful(s, start, run[0]); }
      AlwaysTruthful(Step(blocking)(run[0], s).value, start, run[1..], blocking);
    }
  }

  // ----- barrier code is honest -----

  ghost predicate BarrierRound(rd: Round<Known, Known>) {
    rd.Hop? && rd.toLeft == Plain && rd.toRight == Plain && rd.merge == MergeMaps(PlainCodec())
  }

  ghost predicate AllBarrier(rounds: seq<Round<Known, Known>>) {
    forall k :: 0 <= k < |rounds| ==> BarrierRound(rounds[k])
  }

  /** Merging takes what it knows from the rank and from the two messages. */
  lemma MergeHonest(rd: Round<Known, Known>, i: nat)
    requires BarrierRound(rd) && i < |rd.member|
    ensures Honest(MergeInstr(rd, i))
  {
    var f := MergeInstr(rd, i).f;
    forall v, l, r, k | k in f(v, l, r) ensures k in v || k in l || k in r {
      var left := if HasLeft(rd, i) then Some(l) else None;
      var right := if rd.both && HasRight(rd, i) then Some(r) else None;
      assert f(v, l, r) == MergeMaps(PlainCodec())(v, left, right);
      MergedKeys(v, left, right, k);
    }
  }

  lemma MergedKeys(v: Known, l: Option<Known>, r: Option<Known>, k: nat)
    requires k in MergeMaps(PlainCodec())(v, l, r)
    ensures k in v || (l.Some? && k in l.value) || (r.Some? && k in r.value)
  {
    assert forall m: Known :: PlainCodec().dec(m) == m;
  }

  lemma CodeHonest(rd: Round<Known, Known>, r: nat, blocking: bool)
    requires BarrierRound(rd)
    ensures HonestCode(Code(rd, r, blocking))
  {
    if r in rd.member {
      var i := Pos(rd.member, r);
      MergeHonest(rd, i);
      assert HonestCode(SendLeft(rd, i)) && HonestCode(SendRight(rd, i));
      assert HonestCode(ReadLeft(rd, i)) && HonestCode(ReadRight(rd, i));
      hide Honest, SendLeft, SendRight, ReadLeft, ReadRight, MergeInstr;
    }
  }

  lemma {:induction false} ProgramHonest(rounds: seq<Round<Known, Known>>, r: nat, blocking: bool)
    requires AllBarrier(rounds)
    ensures HonestCode(Program(rounds, r, blocking))
    decreases |rounds|
  {
    if rounds != [] {
      hide Code, Honest;
      CodeHonest(rounds[0], r, blocking);
      ProgramHonest(rounds[1..], r, blocking);
    }
  }

  lemma {:induction false} HopsAreBarrier(member: seq<nat>, id: nat, k: nat)
    ensures AllBarrier(HopRounds(member, id, GatherKind(PlainCodec()), k))
    decreases |member| - Pow2(k)
  {
    if Pow2(k) < |member| {
      HopsAreBarrier(member, id, k + 1);
    }
  }

  lemma {:induction false} NodesAreBarrier(nodes: seq<seq<nat>>, id: nat)
    ensures AllBarrier(NodeRounds(nodes, id, PlainCodec()))
    decreases |nodes|
  {
    if nodes != [] {
      HopsAreBarrier(nodes[0], id, 0);
      NodesAreBarrier(nodes[1..], id + 1);
    }
  }

  // ----- safety -----

  /** At the start every rank knows only itself. */
  ghost function Selves(n: nat): (vals: seq<Known>)
    ensures |vals| == n && forall r :: 0 <= r < n ==> vals[r] == map[r := ()]
  {
    seq(n, r requires 0 <= r < n => map[r := ()])
  }

  ghost function CodeLengths(rounds: seq<Round<Known, Known>>, n: nat, blocking: bool): (start: seq<nat>)
    ensures |start| == n && forall r :: 0 <= r < n ==> start[r] == |Program(rounds, r, blocking)|
  {
    seq(n, r requires 0 <= r < n => |Program(rounds, r, blocking)|)
  }

  /** All `n` ranks are about to run the rounds, and nobody has entered. */
  ghost predicate AtTheGate(rounds: seq<Round<Known, Known>>, s: Net<Known, Known>, n: nat, blocking: bool) {
    && ValidRounds(rounds, n) && AllBarrier(rounds)
    && Quiet(s, Selves(n), Start(rounds, blocking))
    && forall r :: 0 <= r < n ==> s.ranks[r].left == map[] && s.ranks[r].right == map[]
  }

  /** In every execution, buffered or blocking: when rank `r` has left, everyone whom the rounds
      let it hear of has entered; and nobody gets stuck. */
  lemma NobodyLeavesEarly(
    rounds: seq<Round<Known, Known>>, s: Net<Known, Known>, n: nat, blocking: bool, run: seq<nat>, r: nat, q: nat)
    requires AtTheGate(rounds, s, n, blocking) && Exec(Step(blocking), s, run).Some?
    requires r < n && q in RunRounds(rounds, Selves(n))[r]
    ensures var u := Exec(Step(blocking), s, run).value;
            && |u.ranks| == n
            && (u.ranks[r].code == [] ==> q == r || Entered(u, CodeLengths(rounds, n, blocking), q))
            && (Terminal(Step(blocking), u) ==> u.ranks[r].code == [])
  {
    hide RunRounds, Exec, Terminal, Program;
    var start := CodeLengths(rounds, n, blocking);
    forall x | 0 <= x < n ensures HonestRank(s, start, x) {
      ProgramHonest(rounds, x, blocking);
    }
    assert Truthful(s, start);
    AlwaysTruthful(s, start, run, blocking);
    var u := Exec(Step(blocking), s, run).value;
    var rest, t := EveryRunComputes(rounds, s, Selves(n), blocking, run);
    assert HonestRank(u, start, r);
  }

  ghost function AllRanks(n: nat): Known {
    map r | r in Everyone(n) :: ()
  }

  lemma SelvesAreParts(n: nat)
    ensures AllPartOf(AllRanks(n), Selves(n)) && CodecLaw(PlainCodec(), AllRanks(n))
  {
    forall r | 0 <= r < n ensures r in AllRanks(n) {
      assert Everyone(n)[r] == r;
    }
  }

  lemma IsARank(n: nat, q: nat)
    requires q < n
    ensures q in AllRanks(n)
  {
    assert Everyone(n)[q] == q;
  }

  /** The barrier of one group: nobody leaves before all members have entered. */
  lemma GroupBarrier(
    member: seq<nat>, id: nat, s: Net<Known, Known>, n: nat, blocking: bool, run: seq<nat>, i: nat, j: nat)
    requires GroupOf(member, n) && i < |member| && j < |member|
    requires AtTheGate(BarrierRounds(member, id), s, n, blocking) && Exec(Step(blocking), s, run).Some?
    ensures var u := Exec(Step(blocking), s, run).value;
            && |u.ranks| == n
            && (u.ranks[member[i]].code == [] ==>
                  member[j] == member[i] || Entered(u, CodeLengths(BarrierRounds(member, id), n, blocking), member[j]))
            && (Terminal(Step(blocking), u) ==> u.ranks[member[i]].code == [])
  {
    hide RunRounds, Exec, Terminal, HopRounds, AtTheGate, Entered;
    SelvesAreParts(n);
    GroupGathers(member, id, PlainCodec(), AllRanks(n), Selves(n));
    assert member[j] in UnionOver(AllRanks(n), Selves(n), member) by {
      IsARank(n, member[j]);
      assert member[j] in Selves(n)[member[j]];
    }
    NobodyLeavesEarly(BarrierRounds(member, id), s, n, blocking, run, member[i], member[j]);
  }

  /** The two-level barrier: node barriers, a barrier of the node leaders and node barriers
      again make a barrier of all ranks. */
  lemma TwoLevelBarrier(
    nodes: seq<seq<nat>>, leaders: seq<nat>, id: nat, s: Net<Known, Known>, n: nat, blocking: bool, run: seq<nat>,
      r: nat, q: nat)
    requires TwoLevel(nodes, leaders, n) && r < n && q < n
    requires AtTheGate(TwoLevelRounds(nodes, leaders, id, PlainCodec()), s, n, blocking)
             && Exec(Step(blocking), s, run).Some?
    ensures var u := Exec(Step(blocking), s, run).value;
            && |u.ranks| == n
            && (u.ranks[r].code == [] ==>
                  q == r || Entered(u, CodeLengths(TwoLevelRounds(nodes, leaders, id, PlainCodec()), n, blocking), q))
            && (Terminal(Step(blocking), u) ==> u.ranks[r].code == [])
  {
    hide RunRounds, Exec, Terminal, TwoLevelRounds, AtTheGate, Entered, TwoLevel;
    SelvesAreParts(n);
    TwoLevelGathers(nodes, leaders, id, PlainCodec(), AllRanks(n), Selves(n), r);
    assert q in UnionOver(AllRanks(n), Selves(n), Everyone(n)) by {
      IsARank(n, q);
      assert q in Selves(n)[q] && Everyone(n)[q] == q;
    }
    NobodyLeavesEarly(TwoLevelRounds(nodes, leaders, id, PlainCodec()), s, n, blocking, run, r, q);
  }

  /** The state in which all ranks are about to run the rounds. */
  lemma GateOpens(rounds: seq<Round<Known, Known>>, n: nat, blocking: bool) returns (s: Net<Known, Known>)
    requires ValidRounds(rounds, n) && AllBarrier(rounds)
    ensures AtTheGate(rounds, s, n, blocking)
  {
    hide Program;
    var ranks := seq(n, r requires 0 <= r < n => Rank(map[r := ()], map[], map[], Program(rounds, r, blocking)));
    s := Net(ranks, map[]);
  }

  /** Both kinds of barrier can be started, on any group and on any two levels. */
  lemma BarriersStart(
    member: seq<nat>, nodes: seq<seq<nat>>, leaders: seq<nat>, id: nat, n: nat, blocking: bool)
    returns (s: Net<Known, Known>, t: Net<Known, Known>)
    requires GroupOf(member, n) && TwoLevel(nodes, leaders, n)
    ensures AtTheGate(BarrierRounds(member, id), s, n, blocking)
    ensures AtTheGate(TwoLevelRounds(nodes, leaders, id, PlainCodec()), t, n, blocking)
  {
    hide AtTheGate, BarrierRound, HopRounds, NodeRounds, RunRounds, PartOf, CodecLaw;
    assert CodecLaw(PlainCodec(), AllRanks(n)) by { SelvesAreParts(n); }
    HopsAreBarrier(member, id, 0);
    HopsAreBarrier(leaders, id, 0);
    NodesAreBarrier(nodes, id + 1);
    SelvesAreParts(n);
    NodesGather(nodes, id + 1, PlainCodec(), AllRanks(n), Selves(n));
    s := GateOpens(BarrierRounds(member, id), n, blocking);
    t := GateOpens(TwoLevelRounds(nodes, leaders, id, PlainCodec()), n, blocking);
  }
}
