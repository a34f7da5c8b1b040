/** The barrier, round by round: a rank that has finished `k` rounds has everybody less than 2^k
  places away from it in the barrier. */
module RoundBarrier {
  import opened Confluence
  import opened AsyncNet
  import opened Rounds
  import opened Groups
  import opened Execution
  import opened Gathering
  import opened Doubling
  import opened Barrier
  import opened Truncation
  import opened SplitScan

  function Hops<V, M>(member: seq<nat>, id: nat, kind: Kind<V, M>, k: nat): (rounds: seq<Round<V, M>>)
    ensures |rounds| == k && forall j :: 0 <= j < k ==> rounds[j] == HopRound(member, id, kind, j)
  {
    seq(k, j requires 0 <= j < k => HopRound(member, id, kind, j))
  }

  /** The doubling loop does at least `k` rounds. */
  predicate HasRounds(n: nat, k: nat) { k == 0 || Pow2(k - 1) < n }

  /** The first `k` rounds of the doubling loop, and the others. */
  lemma {:induction false} HopsSplit<V(!new), M(!new)>(member: seq<nat>, id: nat, kind: Kind<V, M>, k: nat)
    requires HasRounds(|member|, k)
    ensures HopRounds(member, id, kind, 0) == Hops(member, id, kind, k) + HopRounds(member, id, kind, k)
  {
    if k > 0 {
      if k > 1 { assert Pow2(k - 2) < Pow2(k - 1); }
      HopsSplit(member, id, kind, k - 1);
      assert Hops(member, id, kind, k) == Hops(member, id, kind, k - 1) + [HopRound(member, id, kind, k - 1)];
      assert HopRounds(member, id, kind, k - 1) == [HopRound(member, id, kind, k - 1)] + HopRounds(member, id, kind, k);
    }
  }

  // ----- the two parts use different channels -----

  lemma CodeUses<V(!new), M(!new)>(rd: Round<V, M>, r: nat, blocking: bool, k: nat)
    requires rd.Hop?
    ensures Uses(Code(rd, r, blocking), k, rd.hop < k)
  {
    hide Pow2;
  }

  lemma {:induction false} ProgramUses<V(!new), M(!new)>(
    rounds: seq<Round<V, M>>, r: nat, blocking: bool, k: nat, below: bool)
    requires forall j :: 0 <= j < |rounds| ==> rounds[j].Hop? && (rounds[j].hop < k) == below
    ensures Uses(Program(rounds, r, blocking), k, below)
    decreases |rounds|
  {
    if rounds != [] {
      CodeUses(rounds[0], r, blocking, k);
      ProgramUses(rounds[1..], r, blocking, k, below);
      hide Code;
    }
  }

  lemma {:induction false} LaterHops<V(!new), M(!new)>(member: seq<nat>, id: nat, kind: Kind<V, M>, k: nat)
    ensures forall j :: 0 <= j < |HopRounds(member, id, kind, k)| ==>
              HopRounds(member, id, kind, k)[j].Hop? && HopRounds(member, id, kind, k)[j].hop >= k
    decreases |member| - Pow2(k)
  {
    if Pow2(k) < |member| {
      LaterHops(member, id, kind, k + 1);
    }
  }

  // ----- what a rank knows after k rounds -----

  /** After `k` rounds every member has joined what the members less than 2^k places away had. */
  lemma {:induction false} JoinHops<V(!new), M(!new)>(
    member: seq<nat>, id: nat, kind: Kind<V, M>, k: nat, sub: seq<V>,
    good: V -> bool, join: (V, V) -> V, rep: (V, int, int) -> bool)
    requires |sub| == |member| && MergeJoins(kind, good, join) && JoinLaw(good, join, rep) && Joined(rep, sub, Pow2(0))
    ensures Joined(rep, RunGroup(Hops(member, id, kind, k), sub), Pow2(k))
  {
    hide MergeJoins, JoinLaw, GroupRound;
    if k > 0 {
      JoinHops(member, id, kind, k - 1, sub, good, join, rep);
      var rd := HopRound(member, id, kind, k - 1);
      assert Hops(member, id, kind, k) == Hops(member, id, kind, k - 1) + [rd];
      hide RunGroup;
      RunGroupAppend(Hops(member, id, kind, k - 1), [rd], sub);
      var mid := RunGroup(Hops(member, id, kind, k - 1), sub);
      OneGroupRound(rd, mid);
      JoinStep(member, id, kind, k - 1, mid, good, join, rep);
    }
  }

  lemma GatherHops<K(!new), W(!new), M(!new)>(
    member: seq<nat>, id: nat, codec: Codec<K, W, M>, U: map<K, W>, sub: seq<map<K, W>>, k: nat, i: nat)
    requires |sub| == |member| && AllPartOf(U, sub) && CodecLaw(codec, U) && i < |sub|
    ensures RunGroup(Hops(member, id, GatherKind(codec), k), sub)[i]
            == Union(U, sub, Max(0, i - Pow2(k) + 1), Min(|sub|, i + Pow2(k)))
  {
    hide RunGroup;
    var good := (v: map<K, W>) => PartOf(U, v);
    var rep := (v: map<K, W>, lo: int, hi: int) => v == Union(U, sub, lo, hi);
    GatherLaws(codec, U, sub);
    hide JoinLaw, MergeJoins, Joined;
    JoinHops(member, id, GatherKind(codec), k, sub, good, Gathering.Join, rep);
    JoinedAt(rep, RunGroup(Hops(member, id, GatherKind(codec), k), sub), Pow2(k), i);
  }

  lemma KnownAfter(member: seq<nat>, id: nat, n: nat, k: nat, i: nat, j: nat)
    requires GroupOf(member, n) && i < |member| && j < |member| && i - Pow2(k) < j < i + Pow2(k)
    ensures var rounds := Hops(member, id, GatherKind(PlainCodec()), k);
            ValidRounds(rounds, n) && member[j] in RunRounds(rounds, Selves(n))[member[i]]
  {
    hide RunGroup, RunRounds, Union, Pow2;
    var U, sub := AllRanks(n), Gather(Selves(n), member);
    var rounds := Hops(member, id, GatherKind(PlainCodec()), k);
    GroupAlone(rounds, member, Selves(n));
    SelvesAreParts(n);
    GatherHops(member, id, PlainCodec(), U, sub, k, i);
    IsARank(n, member[j]);
    assert member[j] in sub[j];
    InUnion(U, sub, Max(0, i - Pow2(k) + 1), Min(|sub|, i + Pow2(k)), j, member[j]);
  }

  lemma InUnion<K(!new), W(!new)>(U: map<K, W>, sub: seq<map<K, W>>, lo: int, hi: int, j: nat, x: K)
    requires lo <= j < hi && j < |sub| && x in sub[j] && x in U
    ensures x in Union(U, sub, lo, hi)
  {
  }

  lemma JoinedAt<V>(rep: (V, int, int) -> bool, sub: seq<V>, d: nat, i: nat)
    requires Joined(rep, sub, d) && i < |sub|
    ensures rep(sub[i], Max(0, i - d + 1), Min(|sub|, i + d))
  {
  }

  // ----- the barrier -----

  /** Rank `r` has finished its first `k` rounds. */
  ghost predicate Finished(u: Net<Known, Known>, member: seq<nat>, id: nat, blocking: bool, k: nat, r: nat)
    requires r < |u.ranks|
  {
    |u.ranks[r].code| <= |Program(HopRounds(member, id, GatherKind(PlainCodec()), k), r, blocking)|
  }

  /** In every execution, buffered or blocking: a member that has finished `k` rounds implies that
      all members less than 2^k places away have entered the barrier. */
  lemma RoundByRound(
    member: seq<nat>, id: nat, s: Net<Known, Known>, n: nat, blocking: bool, run: seq<nat>, k: nat, i: nat, j: nat)
    requires GroupOf(member, n) && i < |member| && j < |member| && i - Pow2(k) < j < i + Pow2(k)
    requires HasRounds(|member|, k)
    requires AtTheGate(BarrierRounds(member, id), s, n, blocking) && Exec(Step(blocking), s, run).Some?
    ensures var u := Exec(Step(blocking), s, run).value;
            && |u.ranks| == n
            && (Finished(u, member, id, blocking, k, member[i]) ==>
                  member[j] == member[i] || Entered(u, CodeLengths(BarrierRounds(member, id), n, blocking), member[j]))
  {
    hide Exec, Program, HopRounds, Cut;
    var kind := GatherKind(PlainCodec());
    var first, later := Hops(member, id, kind, k), HopRounds(member, id, kind, k);
    var rest := seq(n, r requires 0 <= r < n => Program(later, r, blocking));
    var v := FirstPart(member, id, s, n, blocking, k);
    var part, v' := CutRun(s, v, rest, k, blocking, run);
    KnownAfter(member, id, n, k, i, j);
    NobodyLeavesEarly(first, v, n, blocking, part, member[i], member[j]);
    var u := Exec(Step(blocking), s, run).value;
    assert |u.ranks| == n && CutRank(u.ranks[member[i]], v'.ranks[member[i]], rest[member[i]], k)
        && CutRank(u.ranks[member[j]], v'.ranks[member[j]], rest[member[j]], k) by {
      CutRanks(u, v', rest, k, member[i]);
      CutRanks(u, v', rest, k, member[j]);
    }
    CodeSplits(member, id, blocking, k, member[j]);
  }

  lemma CutRanks<V(!new), M(!new)>(u: Net<V, M>, v: Net<V, M>, rest: seq<seq<Instr<V, M>>>, k: nat, r: nat)
    requires Cut(u, v, rest, k) && r < |rest|
    ensures |u.ranks| == |v.ranks| == |rest| && CutRank(u.ranks[r], v.ranks[r], rest[r], k)
  {
  }

  lemma CodeSplits(member: seq<nat>, id: nat, blocking: bool, k: nat, r: nat)
    requires HasRounds(|member|, k)
    ensures var kind := GatherKind(PlainCodec());
            Program(BarrierRounds(member, id), r, blocking)
            == Program(Hops(member, id, kind, k), r, blocking) + Program(HopRounds(member, id, kind, k), r, blocking)
  {
    hide Program, HopRounds;
    var kind := GatherKind(PlainCodec());
    HopsSplit(member, id, kind, k);
    ProgramAppend(Hops(member, id, kind, k), HopRounds(member, id, kind, k), r, blocking);
  }

  /** The state in which all ranks have only the first `k` rounds to do. */
  lemma FirstPart(member: seq<nat>, id: nat, s: Net<Known, Known>, n: nat, blocking: bool, k: nat)
    returns (v: Net<Known, Known>)
    requires GroupOf(member, n) && HasRounds(|member|, k) && AtTheGate(BarrierRounds(member, id), s, n, blocking)
    ensures var kind := GatherKind(PlainCodec());
            && AtTheGate(Hops(member, id, kind, k), v, n, blocking)
            && Cut(s, v, seq(n, r requires 0 <= r < n => Program(HopRounds(member, id, kind, k), r, blocking)), k)
  {
    hide Program, HopRounds;
    var kind := GatherKind(PlainCodec());
    var first, later := Hops(member, id, kind, k), HopRounds(member, id, kind, k);
    var rest := seq(n, r requires 0 <= r < n => Program(later, r, blocking));
    var ranks := seq(n, r requires 0 <= r < n => Rank(map[r := ()], map[], map[], Program(first, r, blocking)));
    v := Net(ranks, map[]);
    LaterHops(member, id, kind, k);
    forall r | 0 <= r < n ensures CutRank(s.ranks[r], v.ranks[r], rest[r], k) {
      CodeSplits(member, id, blocking, k, r);
      ProgramUses(first, r, blocking, k, true);
      ProgramUses(later, r, blocking, k, false);
      assert s.ranks[r] == v.ranks[r].(code := v.ranks[r].code + rest[r]);
    }
  }
}
