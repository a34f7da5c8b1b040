/** The example communicator: two splits of the world group give a group per node and a group
  of node leaders, in the shape that the two-level collectives need. */
module Comm {
  import opened Confluence
  import opened AsyncNet
  import opened Rounds
  import opened Execution
  import opened Bitonic
  import opened Lex
  import opened SplitModel
  import opened SplitProof
  import opened Gathering
  import opened Barrier

  /** The first split: the colour is the host name, there is no key. */
  ghost function ByHost(hosts: seq<CString>, names: seq<CString>): (q: Request)
    requires |hosts| == |names|
    ensures q.Valid() && q.colors == hosts
  {
    Request(hosts, seq(|hosts|, i => 0), names)
  }

  /** The second split: the colour is the rank on the node, the key is the rank in the world. */
  ghost function ByNodeRank(nodeRanks: seq<int>, names: seq<CString>): (q: Request)
    requires |nodeRanks| == |names|
    ensures q.Valid() && |q.colors| == |names|
    ensures forall r :: 0 <= r < |names| ==> q.colors[r] == [nodeRanks[r]]
  {
    Request(seq(|names|, r requires 0 <= r < |names| => [nodeRanks[r]]), seq(|names|, r => r), names)
  }

  /** `nodes` lists the group of every host once. */
  ghost predicate NodeGroups(hosts: seq<CString>, names: seq<CString>, nodes: seq<seq<nat>>)
    requires |hosts| == |names|
  {
    && (forall a :: 0 <= a < |nodes| ==>
          |nodes[a]| > 0 && nodes[a][0] < |hosts| && IsColorGroup(ByHost(hosts, names), hosts[nodes[a][0]], nodes[a]))
    && (forall a, b :: 0 <= a < b < |nodes| ==> hosts[nodes[a][0]] != hosts[nodes[b][0]])
    && (forall r :: 0 <= r < |hosts| ==> OnSomeNode(nodes, r))
  }

  ghost predicate PlacedSomewhere(q: Request, r: nat, g: NewGroup)
    requires q.Valid() && r < |q.colors|
  {
    exists G :: Placed(q, r, G, g)
  }

  function RanksOf(groups: seq<NewGroup>): (ranks: seq<int>)
    ensures |ranks| == |groups| && forall r :: 0 <= r < |groups| ==> ranks[r] == groups[r].rank
  {
    seq(|groups|, r requires 0 <= r < |groups| => groups[r].rank)
  }

  lemma GroupDistinct(q: Request, c: CString, G: seq<nat>)
    requires q.Valid() && IsColorGroup(q, c, G)
    ensures GroupOf(G, |q.colors|)
  {
    forall i, j | 0 <= i < j < |G| ensures G[i] != G[j] {
      assert Before(q, G[i], G[j]);
    }
  }

  /** The groups that the two splits compute are the nodes and their leaders: every rank is on
      one node, and the group of colour 0 in the second split holds the first rank of each. */
  lemma CommCreate(
    hosts: seq<CString>, names: seq<CString>, nodes: seq<seq<nat>>, onNode: seq<NewGroup>, leaders: seq<nat>)
    requires |hosts| == |names| == |onNode| && NodeGroups(hosts, names, nodes)
    requires forall r :: 0 <= r < |hosts| ==> PlacedSomewhere(ByHost(hosts, names), r, onNode[r])
    requires IsColorGroup(ByNodeRank(RanksOf(onNode), names), [0], leaders)
    ensures TwoLevel(nodes, leaders, |hosts|)
  {
    var n := |hosts|;
    var q := ByHost(hosts, names);
    var q2 := ByNodeRank(RanksOf(onNode), names);
    GroupDistinct(q2, [0], leaders);
    forall a | 0 <= a < |nodes| ensures GroupOf(nodes[a], n) {
      GroupDistinct(q, hosts[nodes[a][0]], nodes[a]);
    }
    forall a, b, r | 0 <= a < b < |nodes| && r in nodes[a] ensures r !in nodes[b] {
      assert hosts[r] == hosts[nodes[a][0]];
      assert hosts[nodes[a][0]] != hosts[nodes[b][0]];
    }
    forall a | 0 <= a < |nodes| ensures nodes[a][0] in leaders {
      FirstIsLeader(q, nodes[a], onNode[nodes[a][0]]);
      assert q2.colors[nodes[a][0]] == [0];
    }
  }

  lemma FirstIsLeader(q: Request, G: seq<nat>, g: NewGroup)
    requires q.Valid() && |G| > 0 && G[0] < |q.colors| && IsColorGroup(q, q.colors[G[0]], G)
    requires PlacedSomewhere(q, G[0], g)
    ensures g.rank == 0
  {
    var H :| Placed(q, G[0], H, g);
    ColorGroupUnique(q, q.colors[G[0]], G, H);
    GroupDistinct(q, q.colors[G[0]], G);
    assert G[g.rank] == G[0];
  }

  // ----- the groups exist for every assignment of hosts -----

  lemma GroupExists(q: Request, i: nat) returns (G: seq<nat>)
    requires q.Valid() && i < |q.colors|
    ensures IsColorGroup(q, q.colors[i], G) && i in G
  {
    hide SortedItems, IsColorGroup, BitonicSort, RunRanks;
    SortGivesSortedItems(q);
    var S := BitonicSort(CmpItem, true, SplitProof.ItemsOf(q));
    var p := FindItem(q, S, i);
    RunIsColorGroup(q, S, p);
    ColorIsInRun(q, S, p, i);
    G := RunRanks(S, p);
  }

  /** The groups of the hosts of the first `k` ranks. */
  ghost predicate NodeGroupsUpTo(hosts: seq<CString>, names: seq<CString>, nodes: seq<seq<nat>>, k: nat)
    requires |hosts| == |names|
  {
    && (forall a :: 0 <= a < |nodes| ==>
          |nodes[a]| > 0 && nodes[a][0] < |hosts| && IsColorGroup(ByHost(hosts, names), hosts[nodes[a][0]], nodes[a]))
    && (forall a, b :: 0 <= a < b < |nodes| ==> hosts[nodes[a][0]] != hosts[nodes[b][0]])
    && (forall r :: 0 <= r < k && r < |hosts| ==> OnSomeNode(nodes, r))
  }

  lemma {:induction false} NodesExistUpTo(hosts: seq<CString>, names: seq<CString>, k: nat)
    returns (nodes: seq<seq<nat>>)
    requires |hosts| == |names| && k <= |hosts|
    ensures NodeGroupsUpTo(hosts, names, nodes, k)
  {
    if k == 0 {
      nodes := [];
    } else {
      nodes := NodesExistUpTo(hosts, names, k - 1);
      var r := k - 1;
      if !OnSomeNode(nodes, r) {
        var q := ByHost(hosts, names);
        var G := GroupExists(q, r);
        var more := nodes + [G];
        assert G[0] in G;
        forall a | 0 <= a < |nodes| ensures hosts[nodes[a][0]] != hosts[G[0]] {
          OtherHost(q, hosts[nodes[a][0]], nodes[a], r);
        }
        forall x | 0 <= x < k ensures OnSomeNode(more, x) {
          StillThere(nodes, G, x, r);
        }
        nodes := more;
      }
    }
  }

  lemma OtherHost(q: Request, c: CString, G: seq<nat>, r: nat)
    requires q.Valid() && IsColorGroup(q, c, G) && r < |q.colors| && r !in G
    ensures q.colors[r] != c
  {
  }

  lemma StillThere(nodes: seq<seq<nat>>, G: seq<nat>, x: nat, r: nat)
    requires OnSomeNode(nodes, x) || x == r
    requires r in G
    ensures OnSomeNode(nodes + [G], x)
  {
    var more := nodes + [G];
    if OnSomeNode(nodes, x) {
      var a :| 0 <= a < |nodes| && x in nodes[a];
      assert more[a] == nodes[a];
    } else {
      assert more[|nodes|] == G;
    }
  }

  /** Whatever the host names, there are nodes, and for whatever node ranks there are leaders. */
  lemma NodesExist(hosts: seq<CString>, names: seq<CString>) returns (nodes: seq<seq<nat>>)
    requires |hosts| == |names|
    ensures NodeGroups(hosts, names, nodes)
  {
    nodes := NodesExistUpTo(hosts, names, |hosts|);
  }

  lemma LeadersExist(nodeRanks: seq<int>, names: seq<CString>) returns (leaders: seq<nat>)
    requires |nodeRanks| == |names|
    ensures IsColorGroup(ByNodeRank(nodeRanks, names), [0], leaders)
  {
    var q := ByNodeRank(nodeRanks, names);
    if i :| 0 <= i < |q.colors| && q.colors[i] == [0] {
      leaders := GroupExists(q, i);
    } else {
      leaders := [];
    }
  }

  // ----- from the two splits to the collectives -----

  /** The ranks have finished a split of the world group with request `q` in some execution, and
      `got` is what each got from it. */
  ghost predicate SplitDone(
    q: Request, id: nat, vals: seq<Holder>, s: Net<Holder, Msg>, run: seq<nat>, got: seq<NewGroup>)
  {
    && Contributes(q, Everyone(|vals|), vals) && Quiet(s, vals, Start(SplitRounds(id, Everyone(|vals|)), false))
    && Exec(Step(false), s, run).Some?
    && var u := Exec(Step(false), s, run).value;
    && |u.ranks| == |vals| == |got|
    && forall r :: 0 <= r < |vals| ==> u.ranks[r].code == [] && got[r] == Outcome(u.ranks[r].val)
  }

  lemma SplitGives(
    q: Request, id: nat, vals: seq<Holder>, s: Net<Holder, Msg>, run: seq<nat>, got: seq<NewGroup>, r: nat)
    requires SplitDone(q, id, vals, s, run, got) && r < |vals|
    ensures q.Valid() && |q.colors| == |vals| && PlacedSomewhere(q, r, got[r])
  {
    hide Exec, SplitRounds, Outcome, Placed;
    SplitIsCorrect(id, Everyone(|vals|), vals, q, s, run);
    var u := Exec(Step(false), s, run).value;
    assert Everyone(|vals|)[r] == r;
    assert u.ranks[Everyone(|vals|)[r]].code == [];
    assert exists G :: Placed(q, r, G, Outcome(u.ranks[r].val));
  }

  /** The barrier of two levels keeps everybody until all have entered, in every execution. */
  ghost predicate IsBarrier(rounds: seq<Round<Known, Known>>, n: nat) {
    forall s, blocking, run, r, q {:trigger LeftTooEarly(rounds, s, n, blocking, run, r, q)} ::
      0 <= r < n && 0 <= q < n ==> !LeftTooEarly(rounds, s, n, blocking, run, r, q)
  }

  ghost predicate LeftTooEarly(
    rounds: seq<Round<Known, Known>>, s: Net<Known, Known>, n: nat, blocking: bool, run: seq<nat>, r: nat, q: nat)
    requires r < n && q < n
  {
    && AtTheGate(rounds, s, n, blocking) && Exec(Step(blocking), s, run).Some?
    && var u := Exec(Step(blocking), s, run).value;
    && |u.ranks| == n && u.ranks[r].code == [] && q != r && !Entered(u, CodeLengths(rounds, n, blocking), q)
  }

  /** The example programs from end to end: the world group is split by host name and then by node
      rank, in any two executions; then the groups are the nodes and the leaders, each leader has
      its place in the leaders' list, and the barrier over both levels is a barrier of all ranks. */
  lemma CommBarrier(
    hosts: seq<CString>, names: seq<CString>, id: nat,
    vals1: seq<Holder>, s1: Net<Holder, Msg>, run1: seq<nat>, onNode: seq<NewGroup>,
    vals2: seq<Holder>, s2: Net<Holder, Msg>, run2: seq<nat>, among: seq<NewGroup>)
    returns (nodes: seq<seq<nat>>, leaders: seq<nat>)
    requires |hosts| == |names| == |vals1| == |vals2| == |onNode|
    requires SplitDone(ByHost(hosts, names), id, vals1, s1, run1, onNode)
    requires SplitDone(ByNodeRank(RanksOf(onNode), names), id, vals2, s2, run2, among)
    ensures NodeGroups(hosts, names, nodes) && TwoLevel(nodes, leaders, |hosts|) && |among| == |hosts|
    ensures forall r :: 0 <= r < |hosts| && onNode[r].rank == 0 ==>
              0 <= among[r].rank < |leaders| == among[r].size && leaders[among[r].rank] == r
    ensures IsBarrier(TwoLevelRounds(nodes, leaders, id, PlainCodec()), |hosts|)
  {
    hide Exec, SplitDone, IsColorGroup, Before, Placed, NodeGroups, TwoLevel, IsBarrier, TwoLevelRounds;
    var n, q1, q2 := |hosts|, ByHost(hosts, names), ByNodeRank(RanksOf(onNode), names);
    assert |among| == n by { SplitSizes(q2, id, vals2, s2, run2, among); }
    nodes := NodesExist(hosts, names);
    leaders := LeadersExist(RanksOf(onNode), names);
    forall r | 0 <= r < n ensures PlacedSomewhere(q1, r, onNode[r]) {
      SplitGives(q1, id, vals1, s1, run1, onNode, r);
    }
    CommCreate(hosts, names, nodes, onNode, leaders);
    forall r | 0 <= r < n && onNode[r].rank == 0
      ensures 0 <= among[r].rank < |leaders| == among[r].size && leaders[among[r].rank] == r
    {
      SplitGives(q2, id, vals2, s2, run2, among, r);
      LeaderPlace(q2, r, leaders, among[r]);
    }
    BarrierOf(nodes, leaders, id, n);
  }

  lemma SplitSizes(q: Request, id: nat, vals: seq<Holder>, s: Net<Holder, Msg>, run: seq<nat>, got: seq<NewGroup>)
    requires SplitDone(q, id, vals, s, run, got)
    ensures |got| == |vals|
  {
  }

  lemma LeaderPlace(q: Request, r: nat, leaders: seq<nat>, g: NewGroup)
    requires q.Valid() && r < |q.colors| && q.colors[r] == [0] && IsColorGroup(q, [0], leaders)
    requires PlacedSomewhere(q, r, g)
    ensures 0 <= g.rank < |leaders| == g.size && leaders[g.rank] == r
  {
    hide IsColorGroup;
    var G :| Placed(q, r, G, g);
    ColorGroupUnique(q, [0], G, leaders);
  }

  lemma BarrierOf(nodes: seq<seq<nat>>, leaders: seq<nat>, id: nat, n: nat)
    requires TwoLevel(nodes, leaders, n)
    ensures IsBarrier(TwoLevelRounds(nodes, leaders, id, PlainCodec()), n)
  {
    hide TwoLevel, Exec, AtTheGate, TwoLevelRounds, Entered;
    var rounds := TwoLevelRounds(nodes, leaders, id, PlainCodec());
    forall s, blocking, run, r, q | 0 <= r < n && 0 <= q < n
      ensures !LeftTooEarly(rounds, s, n, blocking, run, r, q)
    {
      if LeftTooEarly(rounds, s, n, blocking, run, r, q) {
        TwoLevelBarrier(nodes, leaders, id, s, n, blocking, run, r, q);
      }
    }
  }
}
