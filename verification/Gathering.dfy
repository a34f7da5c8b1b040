/** Gathering maps over a group, and over a machine of nodes.

  In an allgather every rank starts with a map and merges the maps it receives into it.
  When the maps agree on the keys they share - when all of them are parts of one map `U` -
  every rank ends with their union.  Groups of the ranks of one node, with a group of one
  leader per node in between, gather the union over all ranks everywhere. */
module Gathering {
  import opened Confluence
  import opened Rounds
  import opened Groups
  import opened Doubling

  /** How maps travel in messages. */
  datatype Codec<!K, !W, !M> = Codec(enc: map<K, W> -> M, dec: M -> map<K, W>)

  ghost predicate PartOf<K, W>(U: map<K, W>, m: map<K, W>) {
    forall k :: k in m ==> k in U && m[k] == U[k]
  }

  ghost predicate CodecLaw<K(!new), W(!new), M(!new)>(codec: Codec<K, W, M>, U: map<K, W>) {
    forall m :: PartOf(U, m) ==> codec.dec(codec.enc(m)) == m
  }

  /** Entries of the received maps replace entries of the rank's own, the left map's first. */
  function MergeMaps<K, W, M>(codec: Codec<K, W, M>): (map<K, W>, Option<M>, Option<M>) -> map<K, W> {
    (v: map<K, W>, l: Option<M>, r: Option<M>) =>
      var w := if l.Some? then v + codec.dec(l.value) else v;
      if r.Some? then w + codec.dec(r.value) else w
  }

  function GatherKind<K, W, M>(codec: Codec<K, W, M>): Kind<map<K, W>, M> {
    Kind(true, codec.enc, codec.enc, MergeMaps(codec))
  }

  function Join<K, W>(v: map<K, W>, w: map<K, W>): map<K, W> { v + w }

  /** The part of `U` that the maps at positions `lo` to `hi - 1` cover. */
  ghost function Union<K(!new), W>(U: map<K, W>, sub: seq<map<K, W>>, lo: int, hi: int): map<K, W> {
    map k | k in U && (exists j :: lo <= j < hi && 0 <= j < |sub| && k in sub[j]) :: U[k]
  }

  ghost predicate AllPartOf<K, W>(U: map<K, W>, sub: seq<map<K, W>>) {
    forall i :: 0 <= i < |sub| ==> PartOf(U, sub[i])
  }

  lemma UnionJoins<K(!new), W(!new)>(U: map<K, W>, sub: seq<map<K, W>>, a: int, b: int, c: int, d: int)
    requires c <= a <= d <= b || a <= c <= b <= d
    ensures Join(Union(U, sub, a, b), Union(U, sub, c, d)) == Union(U, sub, Min(a, c), Max(b, d))
  {
    var u, v, w := Union(U, sub, a, b), Union(U, sub, c, d), Union(U, sub, Min(a, c), Max(b, d));
    forall k ensures k in w <==> k in u || k in v {
      if k in w {
        var j :| Min(a, c) <= j < Max(b, d) && 0 <= j < |sub| && k in sub[j];
        if a <= j < b { assert k in u; } else { assert k in v; }
      }
    }
  }

  /** One gather over a group: every member ends with the union of the members' maps. */
  lemma GatherAll<K(!new), W(!new), M(!new)>(
    member: seq<nat>, id: nat, codec: Codec<K, W, M>, U: map<K, W>, sub: seq<map<K, W>>, i: nat)
    requires |sub| == |member| && AllPartOf(U, sub) && CodecLaw(codec, U) && i < |sub|
    ensures RunGroup(HopRounds(member, id, GatherKind(codec), 0), sub)[i] == Union(U, sub, 0, |sub|)
  {
    hide RunGroup, HopRounds;
    var good := (v: map<K, W>) => PartOf(U, v);
    var rep := (v: map<K, W>, lo: int, hi: int) => v == Union(U, sub, lo, hi);
    GatherLaws(codec, U, sub);
    hide JoinLaw, MergeJoins, Joined;
    JoinAll(member, id, GatherKind(codec), 0, sub, good, Join, rep);
  }

  /** Gathering joins maps, and every rank starts with its own. */
  lemma GatherLaws<K(!new), W(!new), M(!new)>(codec: Codec<K, W, M>, U: map<K, W>, sub: seq<map<K, W>>)
    requires AllPartOf(U, sub) && CodecLaw(codec, U)
    ensures var good, rep := (v: map<K, W>) => PartOf(U, v),
            (v: map<K, W>, lo: int, hi: int) => v == Union(U, sub, lo, hi);
            MergeJoins(GatherKind(codec), good, Join) && JoinLaw(good, Join, rep) && Joined(rep, sub, Pow2(0))
  {
    var good := (v: map<K, W>) => PartOf(U, v);
    var rep := (v: map<K, W>, lo: int, hi: int) => v == Union(U, sub, lo, hi);
    assert MergeJoins(GatherKind(codec), good, Join);
    assert JoinLaw(good, Join, rep) by {
      forall v, a, b, w, c, d {:trigger Join<K, W>(v, w), rep(v, a, b), rep(w, c, d)} |
        rep(v, a, b) && rep(w, c, d) && (c <= a <= d <= b || a <= c <= b <= d)
        ensures rep(Join(v, w), Min(a, c), Max(b, d))
      {
        UnionJoins(U, sub, a, b, c, d);
      }
    }
    forall j | 0 <= j < |sub| ensures rep(sub[j], Max(0, j), Min(|sub|, j + 1)) {
      assert PartOf(U, sub[j]);
      assert sub[j] == Union(U, sub, j, j + 1);
    }
    assert Joined(rep, sub, Pow2(0));
  }

  // ----- several groups -----

  /** The part of `U` that the maps of the ranks in `who` cover. */
  ghost function UnionOver<K(!new), W>(U: map<K, W>, vals: seq<map<K, W>>, who: seq<nat>): map<K, W> {
    map k | k in U && (exists j :: 0 <= j < |who| && who[j] < |vals| && k in vals[who[j]]) :: U[k]
  }

  /** A gather over one group leaves all other ranks alone. */
  lemma GroupGathers<K(!new), W(!new), M(!new)>(
    member: seq<nat>, id: nat, codec: Codec<K, W, M>, U: map<K, W>, vals: seq<map<K, W>>)
    requires GroupOf(member, |vals|) && AllPartOf(U, vals) && CodecLaw(codec, U)
    ensures ValidRounds(HopRounds(member, id, GatherKind(codec), 0), |vals|)
    ensures var out := RunRounds(HopRounds(member, id, GatherKind(codec), 0), vals);
            && AllPartOf(U, out)
            && forall r :: 0 <= r < |vals| ==> out[r] == if r in member then UnionOver(U, vals, member) else vals[r]
  {
    hide RunRounds, RunGroup, HopRounds, CodecLaw, Union, UnionOver, PartOf, GatherKind;
    var rounds := HopRounds(member, id, GatherKind(codec), 0);
    var sub := Gather(vals, member);
    GroupAlone(rounds, member, vals);
    UnionOfGroup(U, vals, member);
    forall i | 0 <= i < |member| ensures RunGroup(rounds, sub)[i] == UnionOver(U, vals, member) {
      GatherAll(member, id, codec, U, sub, i);
    }
  }

  lemma UnionOfGroup<K(!new), W(!new)>(U: map<K, W>, vals: seq<map<K, W>>, member: seq<nat>)
    requires GroupOf(member, |vals|)
    ensures Union(U, Gather(vals, member), 0, |member|) == UnionOver(U, vals, member)
    ensures PartOf(U, UnionOver(U, vals, member))
  {
  }

  /** Groups that gather one after the other: `nodes[0]` first. */
  function NodeRounds<K, W, M>(nodes: seq<seq<nat>>, id: nat, codec: Codec<K, W, M>): seq<Round<map<K, W>, M>>
    decreases |nodes|
  {
    if nodes == [] then []
    else HopRounds(nodes[0], id, GatherKind(codec), 0) + NodeRounds(nodes[1..], id + 1, codec)
  }

  ghost predicate Disjoint(nodes: seq<seq<nat>>) {
    forall a, b, r :: 0 <= a < b < |nodes| && r in nodes[a] ==> r !in nodes[b]
  }

  ghost predicate AllGroups(nodes: seq<seq<nat>>, n: nat) {
    Disjoint(nodes) && forall a :: 0 <= a < |nodes| ==> GroupOf(nodes[a], n)
  }

  /** Each rank of a node ends with the union over its node, whatever the other nodes do. */
  lemma {:induction false} NodesGather<K(!new), W(!new), M(!new)>(
    nodes: seq<seq<nat>>, id: nat, codec: Codec<K, W, M>, U: map<K, W>, vals: seq<map<K, W>>)
    requires AllGroups(nodes, |vals|) && AllPartOf(U, vals) && CodecLaw(codec, U)
    ensures ValidRounds(NodeRounds(nodes, id, codec), |vals|)
    ensures var out := RunRounds(NodeRounds(nodes, id, codec), vals);
            && AllPartOf(U, out)
            && (forall a, r :: 0 <= a < |nodes| && r in nodes[a] ==> out[r] == UnionOver(U, vals, nodes[a]))
            && (forall r :: 0 <= r < |vals| && (forall a :: 0 <= a < |nodes| ==> r !in nodes[a]) ==> out[r] == vals[r])
    decreases |nodes|
  {
    if nodes != [] {
      hide HopRounds, CodecLaw, PartOf;
      var rest := nodes[1..];
      GroupGathers(nodes[0], id, codec, U, vals);
      var mid := RunRounds(HopRounds(nodes[0], id, GatherKind(codec), 0), vals);
      RestOfNodes(nodes, |vals|);
      NodesGather(rest, id + 1, codec, U, mid);
      RunRoundsAppend(HopRounds(nodes[0], id, GatherKind(codec), 0), NodeRounds(rest, id + 1, codec), vals);
      hide RunRounds;
      var out := RunRounds(NodeRounds(nodes, id, codec), vals);
      forall a, r | 0 <= a < |nodes| && r in nodes[a] ensures out[r] == UnionOver(U, vals, nodes[a]) {
        NodeResult(nodes, U, vals, mid, out, a, r);
      }
      forall r | 0 <= r < |vals| && (forall a :: 0 <= a < |nodes| ==> r !in nodes[a]) ensures out[r] == vals[r] {
        assert forall a :: 0 <= a < |rest| ==> rest[a] == nodes[a + 1];
      }
    }
  }

  lemma RestOfNodes(nodes: seq<seq<nat>>, n: nat)
    requires nodes != [] && AllGroups(nodes, n)
    ensures AllGroups(nodes[1..], n)
    ensures forall a, r :: 0 <= a < |nodes[1..]| && r in nodes[1..][a] ==> r < n && r !in nodes[0]
    ensures forall r :: r in nodes[0] ==> r < n
  {
    var rest := nodes[1..];
    forall a, b, r | 0 <= a < b < |rest| && r in rest[a] ensures r !in rest[b] {
      assert rest[a] == nodes[a + 1] && rest[b] == nodes[b + 1];
    }
    forall a | 0 <= a < |rest| ensures GroupOf(rest[a], n) {
      assert rest[a] == nodes[a + 1];
    }
    forall a, r | 0 <= a < |rest| && r in rest[a] ensures r < n && r !in nodes[0] {
      assert rest[a] == nodes[a + 1];
    }
  }

  lemma NodeResult<K(!new), W(!new)>(
    nodes: seq<seq<nat>>, U: map<K, W>, vals: seq<map<K, W>>, mid: seq<map<K, W>>, out: seq<map<K, W>>, a: nat, r: nat)
    requires AllGroups(nodes, |vals|) && a < |nodes| && r in nodes[a] && |mid| == |out| == |vals|
    requires forall x :: 0 <= x < |vals| ==>
               mid[x] == if x in nodes[0] then UnionOver(U, vals, nodes[0]) else vals[x]
    requires forall b, x :: 0 <= b < |nodes[1..]| && x in nodes[1..][b] ==>
               x < |vals| && out[x] == UnionOver(U, mid, nodes[1..][b])
    requires forall x :: 0 <= x < |vals| && (forall b :: 0 <= b < |nodes[1..]| ==> x !in nodes[1..][b]) ==>
             out[x] == mid[x]
    ensures r < |vals| && out[r] == UnionOver(U, vals, nodes[a])
  {
    RestOfNodes(nodes, |vals|);
    if a == 0 {
      assert forall b :: 0 <= b < |nodes[1..]| ==> r !in nodes[1..][b];
    } else {
      assert nodes[1..][a - 1] == nodes[a];
      var who := nodes[a];
      forall j | 0 <= j < |who| ensures who[j] < |vals| && mid[who[j]] == vals[who[j]] {
        assert who[j] in nodes[1..][a - 1];
      }
      assert UnionOver(U, mid, who) == UnionOver(U, vals, who);
    }
  }

  // ----- two levels -----

  /** The ranks 0 to `n - 1` are split into nodes, and `leaders` holds the first rank of each. */
  ghost predicate TwoLevel(nodes: seq<seq<nat>>, leaders: seq<nat>, n: nat) {
    && AllGroups(nodes, n) && GroupOf(leaders, n)
    && (forall a :: 0 <= a < |nodes| ==> |nodes[a]| > 0 && nodes[a][0] in leaders)
    && (forall r :: 0 <= r < n ==> OnSomeNode(nodes, r))
  }

  ghost predicate OnSomeNode(nodes: seq<seq<nat>>, r: nat) {
    exists a :: 0 <= a < |nodes| && r in nodes[a]
  }

  /** Gather on the nodes, among the leaders, and on the nodes again. */
  function TwoLevelRounds<K, W, M>(
    nodes: seq<seq<nat>>, leaders: seq<nat>, id: nat, codec: Codec<K, W, M>): seq<Round<map<K, W>, M>>
  {
    NodeRounds(nodes, id + 1, codec) + HopRounds(leaders, id, GatherKind(codec), 0) + NodeRounds(nodes, id + 1, codec)
  }

  ghost function Everyone(n: nat): (who: seq<nat>)
    ensures |who| == n && forall i :: 0 <= i < n ==> who[i] == i
  {
    seq(n, i requires 0 <= i < n => i)
  }

  lemma UnionGrows<K(!new), W(!new)>(U: map<K, W>, vals: seq<map<K, W>>, who: seq<nat>, r: nat, k: K)
    requires AllPartOf(U, vals) && r in who && r < |vals| && k in vals[r]
    ensures k in UnionOver(U, vals, who)
  {
    var j :| 0 <= j < |who| && who[j] == r;
    assert PartOf(U, vals[r]);
  }

  /** Every rank ends with the union over all ranks. */
  lemma TwoLevelGathers<K(!new), W(!new), M(!new)>(
    nodes: seq<seq<nat>>, leaders: seq<nat>, id: nat, codec: Codec<K, W, M>, U: map<K, W>, vals: seq<map<K, W>>, r: nat)
    requires TwoLevel(nodes, leaders, |vals|) && AllPartOf(U, vals) && CodecLaw(codec, U) && r < |vals|
    ensures ValidRounds(TwoLevelRounds(nodes, leaders, id, codec), |vals|)
    ensures RunRounds(TwoLevelRounds(nodes, leaders, id, codec), vals)[r] == UnionOver(U, vals, Everyone(|vals|))
  {
    hide RunRounds, HopRounds, NodeRounds, CodecLaw, UnionOver, PartOf;
    var first, between := NodeRounds(nodes, id + 1, codec), HopRounds(leaders, id, GatherKind(codec), 0);
    NodesGather(nodes, id + 1, codec, U, vals);
    var v1 := RunRounds(first, vals);
    GroupGathers(leaders, id, codec, U, v1);
    var v2 := RunRounds(between, v1);
    NodesGather(nodes, id + 1, codec, U, v2);
    var v3 := RunRounds(first, v2);
    RunRoundsAppend(first, between, vals);
    RunRoundsAppend(first + between, first, vals);
    assert OnSomeNode(nodes, r);
    var a :| 0 <= a < |nodes| && r in nodes[a];
    assert v3[r] == UnionOver(U, v2, nodes[a]);
    forall k | k in UnionOver(U, vals, Everyone(|vals|)) ensures k in UnionOver(U, v2, nodes[a]) {
      KnownEverywhere(nodes, leaders, U, vals, v1, v2, a, k);
    }
    assert v3[r] == UnionOver(U, vals, Everyone(|vals|)) by {
      OnlyFromInputs(nodes, leaders, U, vals, v1, v2, a);
      SameUnion(U, v2, nodes[a], vals, Everyone(|vals|));
    }
  }

  lemma SameUnion<K(!new), W(!new)>(
    U: map<K, W>, vals: seq<map<K, W>>, who: seq<nat>, vals': seq<map<K, W>>, who': seq<nat>)
    requires forall k :: k in UnionOver(U, vals, who) <==> k in UnionOver(U, vals', who')
    ensures UnionOver(U, vals, who) == UnionOver(U, vals', who')
  {
  }

  /** A key of any rank reaches the leader of its node, then all leaders, then every node. */
  lemma KnownEverywhere<K(!new), W(!new)>(
    nodes: seq<seq<nat>>, leaders: seq<nat>, U: map<K, W>, vals: seq<map<K, W>>, v1: seq<map<K, W>>, v2: seq<map<K, W>>,
    a: nat, k: K)
    requires TwoLevel(nodes, leaders, |vals|) && AllPartOf(U, vals) && AllPartOf(U, v1) && AllPartOf(U, v2)
    requires |v1| == |v2| == |vals| && a < |nodes|
    requires forall b, x :: 0 <= b < |nodes| && x in nodes[b] ==> x < |vals| && v1[x] == UnionOver(U, vals, nodes[b])
    requires forall x :: 0 <= x < |vals| ==> v2[x] == if x in leaders then UnionOver(U, v1, leaders) else v1[x]
    requires k in UnionOver(U, vals, Everyone(|vals|))
    ensures k in UnionOver(U, v2, nodes[a])
  {
    var x :| 0 <= x < |vals| && k in vals[x];
    assert OnSomeNode(nodes, x);
    var b :| 0 <= b < |nodes| && x in nodes[b];
    hide UnionOver, PartOf;
    UnionGrows(U, vals, nodes[b], x, k);
    assert nodes[b][0] in nodes[b];
    UnionGrows(U, v1, leaders, nodes[b][0], k);
    assert nodes[a][0] in nodes[a];
    UnionGrows(U, v2, nodes[a], nodes[a][0], k);
  }

  /** Gathering invents nothing. */
  lemma OnlyFromInputs<K(!new), W(!new)>(
    nodes: seq<seq<nat>>, leaders: seq<nat>, U: map<K, W>, vals: seq<map<K, W>>, v1: seq<map<K, W>>,
      v2: seq<map<K, W>>, a: nat)
    requires TwoLevel(nodes, leaders, |vals|)
    requires |v1| == |v2| == |vals| && a < |nodes|
    requires forall b, x :: 0 <= b < |nodes| && x in nodes[b] ==> x < |vals| && v1[x] == UnionOver(U, vals, nodes[b])
    requires forall x :: 0 <= x < |vals| ==> v2[x] == if x in leaders then UnionOver(U, v1, leaders) else v1[x]
    ensures forall k :: k in UnionOver(U, v2, nodes[a]) ==> k in UnionOver(U, vals, Everyone(|vals|))
  {
    var all := UnionOver(U, vals, Everyone(|vals|));
    forall x, k | 0 <= x < |vals| && k in v1[x] ensures k in all {
      assert OnSomeNode(nodes, x);
      var b :| 0 <= b < |nodes| && x in nodes[b];
      var j :| 0 <= j < |nodes[b]| && nodes[b][j] < |vals| && k in vals[nodes[b][j]];
      assert Everyone(|vals|)[nodes[b][j]] == nodes[b][j];
    }
    forall x, k | 0 <= x < |vals| && k in v2[x] ensures k in all {
      if x in leaders {
        var j :| 0 <= j < |leaders| && leaders[j] < |vals| && k in v1[leaders[j]];
      }
    }
    forall k | k in UnionOver(U, v2, nodes[a]) ensures k in all {
      var j :| 0 <= j < |nodes[a]| && nodes[a][j] < |vals| && k in v2[nodes[a][j]];
    }
  }
}
