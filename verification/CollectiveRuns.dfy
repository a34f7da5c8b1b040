/** The collectives over a group in every execution: whatever the order in which ranks move and
  messages travel, buffered or not, a rank that has finished holds the right result, and no
  execution gets stuck before all ranks have finished. */
module CollectiveRuns {
  import opened Confluence
  import opened AsyncNet
  import opened Rounds
  import opened Execution
  import opened Groups
  import opened Gathering
  import opened Lex
  import opened StrItems
  import opened StrPack
  import opened Buffers
  import opened StrTransfer
  import C = Collectives

  /** The state after a run. */
  ghost function After<V(!new), M(!new)>(s: Net<V, M>, blocking: bool, run: seq<nat>): Net<V, M>
    requires Exec(Step(blocking), s, run).Some?
  {
    Exec(Step(blocking), s, run).value
  }

  /** Nothing can move only when every rank has finished. */
  ghost predicate NeverStuck<V(!new), M(!new)>(u: Net<V, M>, blocking: bool) {
    Terminal(Step(blocking), u) ==> forall r :: 0 <= r < |u.ranks| ==> u.ranks[r].code == []
  }

  /** The rounds of one group, in any execution. */
  lemma GroupInEveryRun<V(!new), M(!new)>(
    rounds: seq<Round<V, M>>, member: seq<nat>, s: Net<V, M>, vals: seq<V>, blocking: bool, run: seq<nat>, i: nat)
    requires GroupOf(member, |vals|) && i < |member|
    requires forall k :: 0 <= k < |rounds| ==> rounds[k].member == member
    requires Quiet(s, vals, Start(rounds, blocking)) && Exec(Step(blocking), s, run).Some?
    ensures var u := After(s, blocking, run);
            && |u.ranks| == |vals| && NeverStuck(u, blocking)
            && (u.ranks[member[i]].code == [] ==>
                  u.ranks[member[i]].val == RunGroup(rounds, Gather(vals, member))[i])
  {
    hide RunRounds, RunGroup, Exec, Terminal;
    var rest, t := EveryRunComputes(rounds, s, vals, blocking, run);
    GroupAlone(rounds, member, vals);
  }

  /** A scan: every rank ends with the sums over itself and all ranks to its left. */
  lemma ScanInEveryRun(
    member: seq<nat>, id: nat, s: Net<C.Vec, C.Vec>, vals: seq<C.Vec>, count: nat, blocking: bool, run: seq<nat>,
      i: nat, c: nat)
    requires GroupOf(member, |vals|) && i < |member| && c < count && C.SameLength(Gather(vals, member), count)
    requires Quiet(s, vals, Start(HopRounds(member, id, C.ScanKind(), 0), blocking))
             && Exec(Step(blocking), s, run).Some?
    ensures var u := After(s, blocking, run);
            && |u.ranks| == |vals| && NeverStuck(u, blocking)
            && (u.ranks[member[i]].code == [] ==>
                  var v := u.ranks[member[i]].val;
                  |v| == count && v[c] == C.SumOf(Gather(vals, member), c, 0, i + 1) % C.TWO_64)
  {
    hide Exec, RunGroup, HopRounds;
    GroupInEveryRun(HopRounds(member, id, C.ScanKind(), 0), member, s, vals, blocking, run, i);
    C.ScanSum(member, id, Gather(vals, member), count, i, c);
  }

  /** A sum over the group: from the sums over both sides every rank gets the total. */
  lemma AllreduceSumInEveryRun(
    member: seq<nat>, id: nat, s: Net<C.Sums, C.Vec>, vals: seq<C.Sums>, sub: seq<C.Vec>, count: nat,
      blocking: bool, run: seq<nat>,
    i: nat, c: nat)
    requires GroupOf(member, |vals|) && i < |member| == |sub| && c < count && C.SameLength(sub, count)
    requires Gather(vals, member) == C.BothWays(sub)
    requires Quiet(s, vals, Start(HopRounds(member, id, C.DoubleScanKind(), 0), blocking))
             && Exec(Step(blocking), s, run).Some?
    ensures var u := After(s, blocking, run);
            && |u.ranks| == |vals| && NeverStuck(u, blocking)
            && (u.ranks[member[i]].code == [] ==>
                  var v := u.ranks[member[i]].val;
                  && |v.ltr| == |v.rtl| == count
                  && C.SumMinusOwn(v.ltr[c], v.rtl[c], sub[i][c]) == C.SumOf(sub, c, 0, |sub|) % C.TWO_64)
  {
    hide Exec, RunGroup, HopRounds, C.SumMinusOwn;
    GroupInEveryRun(HopRounds(member, id, C.DoubleScanKind(), 0), member, s, vals, blocking, run, i);
    C.AllreduceSum(member, id, sub, count, i, c);
  }

  /** A maximum over the group. */
  lemma AllreduceMaxInEveryRun(
    member: seq<nat>, id: nat, s: Net<C.Vec, C.Vec>, vals: seq<C.Vec>, count: nat, blocking: bool, run: seq<nat>,
      i: nat)
    requires GroupOf(member, |vals|) && i < |member| && C.SameLength(Gather(vals, member), count)
    requires Quiet(s, vals, Start(HopRounds(member, id, C.MaxKind(), 0), blocking))
             && Exec(Step(blocking), s, run).Some?
    ensures var u := After(s, blocking, run);
            && |u.ranks| == |vals| && NeverStuck(u, blocking)
            && (u.ranks[member[i]].code == [] ==>
                  C.IsMax(Gather(vals, member), count, u.ranks[member[i]].val, 0, |member|))
  {
    hide Exec, RunGroup, HopRounds, C.IsMax;
    GroupInEveryRun(HopRounds(member, id, C.MaxKind(), 0), member, s, vals, blocking, run, i);
    C.AllreduceMax(member, id, Gather(vals, member), count, i);
  }

  // ----- gathering string maps -----

  function ReadWire(wire: Bytes): map<CString, CString> {
    if 8 <= |wire| && 0 < BigValue(wire[..8]) <= |wire| - 8 then UnpackMap(wire[8..8 + BigValue(wire[..8])]) else map[]
  }

  /** Maps travel as the bytes that the map writer produces and the map reader takes apart. */
  ghost function StrCodec(): Codec<CString, CString, Bytes> {
    Codec(m => WireBytes(ItemsOf(m)), ReadWire)
  }

  lemma {:induction false} SubmapSize(m: map<CString, CString>, U: map<CString, CString>)
    requires PartOf(U, m)
    ensures SizeOf(ItemsOf(m)) <= SizeOf(ItemsOf(U))
    decreases |U|
  {
    if k :| k in U && k !in m {
      var rest := U - {k};
      assert U.Keys == rest.Keys + {k};
      SubmapSize(m, rest);
      OneLess(U, k);
    } else {
      assert m == U;
    }
  }

  lemma OneLess(U: map<CString, CString>, k: CString)
    requires k in U
    ensures SizeOf(ItemsOf(U - {k})) <= SizeOf(ItemsOf(U))
  {
    hide LexCmp, MapOf, SizeOf, Sorted;
    var s := ItemsOf(U);
    MapOfKeys(s, k);
    var i :| 0 <= i < |s| && s[i].0 == k;
    assert s == s[..i] + [s[i]] + s[i + 1..];
    SortedAround(s[..i], s[i], s[i + 1..]);
    RemovePairAt(s, i, s[i]);
    ItemsUnique(ItemsOf(U - {k}), WithoutPair(s, i));
  }

  lemma Survives(m: map<CString, CString>)
    requires NulFreeMap(m) && 8 + SizeOf(ItemsOf(m)) < Pow256(8)
    ensures ReadWire(WireBytes(ItemsOf(m))) == m
  {
    hide *;
    var wire := WireBytes(ItemsOf(m));
    NulFreeItems(m);
    WireRoundTrip(ItemsOf(m), []);
    assert wire + [] == wire;
    ReadsAs(wire);
  }

  lemma ReadsAs(wire: Bytes)
    requires 8 <= |wire| && 0 < BigValue(wire[..8]) <= |wire| - 8
    ensures ReadWire(wire) == UnpackMap(wire[8..8 + BigValue(wire[..8])])
  {
  }

  /** Every part of a map of proper strings survives the journey. */
  lemma StrCodecLaw(U: map<CString, CString>)
    requires NulFreeMap(U) && 8 + SizeOf(ItemsOf(U)) < Pow256(8)
    ensures CodecLaw(StrCodec(), U)
  {
    hide SizeOf, Pow256, WireBytes, ReadWire, ItemsOf, NulFree;
    forall m | PartOf(U, m) ensures StrCodec().dec(StrCodec().enc(m)) == m {
      SubmapSize(m, U);
      assert NulFreeMap(m);
      Survives(m);
    }
  }

  /** Gathering string maps over a group: every rank ends with the union. */
  lemma AllgatherInEveryRun(
    member: seq<nat>, id: nat, s: Net<map<CString, CString>, Bytes>, U: map<CString, CString>,
      vals: seq<map<CString, CString>>,
    blocking: bool, run: seq<nat>, i: nat)
    requires GroupOf(member, |vals|) && i < |member| && AllPartOf(U, vals) && NulFreeMap(U)
             && 8 + SizeOf(ItemsOf(U)) < Pow256(8)
    requires Quiet(s, vals, Start(HopRounds(member, id, GatherKind(StrCodec()), 0), blocking))
             && Exec(Step(blocking), s, run).Some?
    ensures var u := After(s, blocking, run);
            && |u.ranks| == |vals| && NeverStuck(u, blocking)
            && (u.ranks[member[i]].code == [] ==> u.ranks[member[i]].val == UnionOver(U, vals, member))
  {
    hide Exec, RunRounds, HopRounds, CodecLaw, UnionOver, StrCodec, Terminal, NulFreeMap, SizeOf, Pow256;
    var rounds := HopRounds(member, id, GatherKind(StrCodec()), 0);
    StrCodecLaw(U);
    GroupGathers(member, id, StrCodec(), U, vals);
    var rest, t := EveryRunComputes(rounds, s, vals, blocking, run);
  }

  /** Gathering on the nodes, among the node leaders and on the nodes again. */
  lemma TwoLevelAllgather(
    nodes: seq<seq<nat>>, leaders: seq<nat>, id: nat, s: Net<map<CString, CString>, Bytes>, U: map<CString, CString>,
    vals: seq<map<CString, CString>>, blocking: bool, run: seq<nat>, r: nat)
    requires TwoLevel(nodes, leaders, |vals|) && r < |vals| && AllPartOf(U, vals) && NulFreeMap(U)
             && 8 + SizeOf(ItemsOf(U)) < Pow256(8)
    requires Quiet(s, vals, Start(TwoLevelRounds(nodes, leaders, id, StrCodec()), blocking))
             && Exec(Step(blocking), s, run).Some?
    ensures var u := After(s, blocking, run);
            && |u.ranks| == |vals| && NeverStuck(u, blocking)
            && (u.ranks[r].code == [] ==> u.ranks[r].val == UnionOver(U, vals, Everyone(|vals|)))
  {
    hide Exec, RunRounds, TwoLevelRounds, CodecLaw, UnionOver, StrCodec, Terminal, NulFreeMap, SizeOf, Pow256;
    StrCodecLaw(U);
    TwoLevelGathers(nodes, leaders, id, StrCodec(), U, vals, r);
    var rest, t := EveryRunComputes(TwoLevelRounds(nodes, leaders, id, StrCodec()), s, vals, blocking, run);
  }
}
