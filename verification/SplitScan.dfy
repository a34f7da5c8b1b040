/** The middle of the split: borders, and the double segmented scan.

  `S` is the sequence of items after the sort, one per position.  The results are compared
  with the direct definitions: where the run of equal colours around a position begins and
  ends, and how many runs begin before it. */
module SplitScan {
  import opened Confluence
  import opened Rounds
  import opened Groups
  import opened Doubling
  import opened Lex
  import opened SplitModel

  // ----- direct definitions -----

  predicate FirstAt(S: seq<Item>, p: nat)
    requires p < |S|
  {
    p == 0 || S[p - 1].color != S[p].color
  }

  predicate LastAt(S: seq<Item>, p: nat)
    requires p < |S|
  {
    p == |S| - 1 || S[p + 1].color != S[p].color
  }

  /** The position where the run of equal colours around `p` begins. */
  function SegStart(S: seq<Item>, p: nat): (q: nat)
    requires p < |S|
    ensures q <= p && FirstAt(S, q)
    ensures forall t :: q < t <= p ==> !FirstAt(S, t)
    ensures forall t :: q <= t <= p ==> S[t].color == S[p].color
  {
    if FirstAt(S, p) then p else SegStart(S, p - 1)
  }

  /** The position where the run of equal colours around `p` ends. */
  function SegEnd(S: seq<Item>, p: nat): (q: nat)
    requires p < |S|
    ensures p <= q < |S| && LastAt(S, q)
    ensures forall t :: p <= t < q ==> !LastAt(S, t)
    ensures forall t :: p <= t <= q ==> S[t].color == S[p].color
    decreases |S| - p
  {
    if LastAt(S, p) then p else SegEnd(S, p + 1)
  }

  /** The number of runs that begin at a position before `p`. */
  function RunsBefore(S: seq<Item>, p: nat): nat
    requires p <= |S|
  {
    if p == 0 then 0 else RunsBefore(S, p - 1) + if FirstAt(S, p - 1) then 1 else 0
  }

  // ----- what the scans start from and combine -----

  ghost function RightInit(S: seq<Item>): (s: seq<Scan>)
    ensures |s| == |S| && forall p :: 0 <= p < |S| ==> s[p] == BorderFlag(FirstAt(S, p))
  {
    seq(|S|, p requires 0 <= p < |S| => BorderFlag(FirstAt(S, p)))
  }

  ghost function LeftInit(S: seq<Item>): (s: seq<Scan>)
    ensures |s| == |S| && forall p :: 0 <= p < |S| ==> s[p] == BorderFlag(LastAt(S, p))
  {
    seq(|S|, p requires 0 <= p < |S| => BorderFlag(LastAt(S, p)))
  }

  /** Left-going data: the farther operand is the later one. */
  function CombLeft(near: Scan, far: Scan): Scan { Comb(far, near) }

  lemma CombIsAssociative()
    ensures Associative(Comb) && Associative(CombLeft)
  {
  }

  lemma {:induction false} RightFold(S: seq<Item>, p: nat)
    requires p < |S|
    ensures Fold(Comb, RightInit(S), 0, p + 1) == Scan(RunsBefore(S, p + 1), 1, p - SegStart(S, p) + 1)
  {
    if p > 0 {
      RightFold(S, p - 1);
    }
  }

  lemma {:induction false} LeftFold(S: seq<Item>, p: nat)
    requires p < |S|
    ensures Fold(CombLeft, LeftInit(S), p, |S|) ==
            Scan(RunsBefore(S, |S|) - RunsBefore(S, p + 1) + 1, 1, SegEnd(S, p) - p + 1)
    decreases |S| - p
  {
    hide Associative;
    CombIsAssociative();
    if p < |S| - 1 {
      LeftFold(S, p + 1);
      FoldSplit(CombLeft, LeftInit(S), p, p + 1, |S|);
      assert Fold(CombLeft, LeftInit(S), p, p + 1) == LeftInit(S)[p];
      assert FirstAt(S, p + 1) == LastAt(S, p);
    }
  }

  // ----- the rounds -----

  /** The rank holding position `p` of the sorted items. */
  ghost predicate HoldsItems(S: seq<Item>, sub: seq<Holder>) {
    |sub| == |S| && forall p :: 0 <= p < |S| ==> sub[p].item == S[p]
  }

  /** The result for the item at position `p`. */
  ghost predicate ChainAt(S: seq<Item>, c: Chain, p: nat)
    requires p < |S|
  {
    && c.src == S[p].rank
    && c.rank == p - SegStart(S, p)
    && c.size == SegEnd(S, p) - SegStart(S, p) + 1
    && c.id == RunsBefore(S, p + 1) - 1
    && c.count == RunsBefore(S, |S|)
    && (p > 0 ==> c.left == S[p - 1].name)
    && (p < |S| - 1 ==> c.right == S[p + 1].name)
  }

  ghost predicate Bordered(S: seq<Item>, v: Holder, p: nat)
    requires p < |S|
  {
    && v.item == S[p]
    && v.chain.src == S[p].rank
    && (p > 0 ==> v.chain.left == S[p - 1].name)
    && (p < |S| - 1 ==> v.chain.right == S[p + 1].name)
  }

  lemma BordersComputed(S: seq<Item>, member: seq<nat>, id: nat, sub: seq<Holder>, p: nat)
    requires HoldsItems(S, sub) && |member| == |S| && p < |S|
    ensures var out := GroupRound(HopRound(member, id, BorderKind(), 0), sub);
            && Bordered(S, out[p], p)
            && out[p].right == RightInit(S)[p] && out[p].left == LeftInit(S)[p]
  {
    LexIsTotal();
    var rd := HopRound(member, id, BorderKind(), 0);
    assert Pow2(rd.hop) == 1;
    assert GroupRound(rd, sub)[p] == Merged(rd, sub, p);
  }

  function RightOf(v: Holder): Scan { v.right }

  function LeftOf(v: Holder): Scan { v.left }

  function Unscanned(v: Holder): (Item, Chain) { (v.item, v.chain) }

  lemma ScanKindLaws(good: Holder -> bool)
    requires forall v :: good(v)
    ensures ScanLaw(ScanKind(), good, RightOf, Comb) && ScanBackLaw(ScanKind(), good, LeftOf, CombLeft)
    ensures KeepsGood(ScanKind(), good)
  {
    CombIsAssociative();
    hide Comb;
  }

  /** After the scan rounds, every position knows its place in its run, the size of the run, the
      number of runs up to it and the number of runs altogether. */
  lemma {:induction false} ScanComputed(S: seq<Item>, member: seq<nat>, id: nat, sub: seq<Holder>, p: nat)
    requires |sub| == |member| == |S| && p < |S|
    requires forall q :: 0 <= q < |S| ==> sub[q].right == RightInit(S)[q] && sub[q].left == LeftInit(S)[q]
    ensures var out := RunGroup(HopRounds(member, id, ScanKind(), 0), sub);
            && out[p].item == sub[p].item && out[p].chain == sub[p].chain
            && out[p].right == Scan(RunsBefore(S, p + 1), 1, p - SegStart(S, p) + 1)
            && out[p].left == Scan(RunsBefore(S, |S|) - RunsBefore(S, p + 1) + 1, 1, SegEnd(S, p) - p + 1)
  {
    hide RunGroup, HopRounds, ScanLaw, ScanBackLaw, KeepsGood, Fold, SegStart, SegEnd, RunsBefore, Scanned, ScannedBack;
    var good := (v: Holder) => true;
    ScanKindLaws(good);
    RightFold(S, p);
    LeftFold(S, p);
    ScanKeeps(member, id, sub, p);
    ScanStart(S, sub);
    ScanAll(member, id, ScanKind(), 0, sub, good, RightOf, Comb, RightInit(S));
    ScanBackAll(member, id, ScanKind(), 0, sub, good, LeftOf, CombLeft, LeftInit(S));
    assert RightOf(RunGroup(HopRounds(member, id, ScanKind(), 0), sub)[p]) == Fold(Comb, RightInit(S), 0, p + 1);
    assert LeftOf(RunGroup(HopRounds(member, id, ScanKind(), 0), sub)[p]) == Fold(CombLeft, LeftInit(S), p, |S|);
  }

  /** Before the first round every rank has its own contribution. */
  lemma ScanStart(S: seq<Item>, sub: seq<Holder>)
    requires |sub| == |S| && forall q :: 0 <= q < |S| ==>
               sub[q].right == RightInit(S)[q] && sub[q].left == LeftInit(S)[q]
    ensures Scanned(RightOf, Comb, RightInit(S), sub, Pow2(0))
            && ScannedBack(LeftOf, CombLeft, LeftInit(S), sub, Pow2(0))
  {
  }

  lemma ScanKeeps(member: seq<nat>, id: nat, sub: seq<Holder>, p: nat)
    requires |sub| == |member| && p < |sub|
    ensures var out := RunGroup(HopRounds(member, id, ScanKind(), 0), sub);
            out[p].item == sub[p].item && out[p].chain == sub[p].chain
  {
    var rounds := HopRounds(member, id, ScanKind(), 0);
    HopsMerge(member, id, ScanKind(), 0);
    forall j, v, l, r | 0 <= j < |rounds| && rounds[j].Hop?
      ensures Unscanned(rounds[j].merge(v, l, r)) == Unscanned(v)
    {
    }
    Keeps(rounds, sub, Unscanned);
    assert Unscanned(RunGroup(rounds, sub)[p]) == Unscanned(sub[p]);
  }

  lemma {:induction false} HopsMerge<V, M>(member: seq<nat>, id: nat, kind: Kind<V, M>, k: nat)
    ensures forall j :: 0 <= j < |HopRounds(member, id, kind, k)| ==>
              HopRounds(member, id, kind, k)[j].Hop? && HopRounds(member, id, kind, k)[j].merge == kind.merge
    decreases |member| - Pow2(k)
  {
    if Pow2(k) < |member| {
      HopsMerge(member, id, kind, k + 1);
    }
  }

  /** The rounds between the two sorts leave at every position the result for its item. */
  lemma MiddleComputes(S: seq<Item>, member: seq<nat>, id: nat, sub: seq<Holder>, p: nat)
    requires HoldsItems(S, sub) && |member| == |S| && p < |S|
    ensures ChainAt(S, RunGroup(SplitMiddle(id, member), sub)[p].chain, p)
  {
    hide RunGroup, HopRounds, GroupRound, SegStart, SegEnd, RunsBefore, RightInit, LeftInit, ChainAt, Finish;
    var border, finish := HopRound(member, id, BorderKind(), 0), Local(member, Finish);
    var scans := HopRounds(member, id, ScanKind(), 0);
    RunGroupAppend([border] + scans, [finish], sub);
    RunGroupAppend([border], scans, sub);
    OneGroupRound(border, sub);
    var sub1 := GroupRound(border, sub);
    forall q | 0 <= q < |S|
      ensures Bordered(S, sub1[q], q) && sub1[q].right == RightInit(S)[q] && sub1[q].left == LeftInit(S)[q]
    {
      BordersComputed(S, member, id, sub, q);
    }
    var sub2 := RunGroup(scans, sub1);
    ScanComputed(S, member, id, sub1, p);
    OneGroupRound(finish, sub2);
    assert GroupRound(finish, sub2)[p] == Finish(sub2[p]) by { FinishAt(finish, sub2, p); }
    FinishChain(S, sub2[p], p);
  }

  /** Finishing turns the scan results into the chain. */
  lemma FinishChain(S: seq<Item>, v: Holder, p: nat)
    requires p < |S| && Bordered(S, v, p)
    requires v.right == Scan(RunsBefore(S, p + 1), 1, p - SegStart(S, p) + 1)
    requires v.left == Scan(RunsBefore(S, |S|) - RunsBefore(S, p + 1) + 1, 1, SegEnd(S, p) - p + 1)
    ensures ChainAt(S, Finish(v).chain, p)
  {
    hide RunsBefore, SegStart, SegEnd;
  }

  lemma OneGroupRound<V(!new), M(!new)>(rd: Round<V, M>, sub: seq<V>)
    requires |rd.member| == |sub|
    ensures RunGroup([rd], sub) == GroupRound(rd, sub)
  {
    hide GroupRound;
    assert [rd][1..] == [];
  }

  lemma FinishAt(rd: Round<Holder, Msg>, sub: seq<Holder>, p: nat)
    requires rd.Local? && rd.update == Finish && |sub| == |rd.member| && p < |sub|
    ensures GroupRound(rd, sub)[p] == Finish(sub[p])
  {
    assert GroupRound(rd, sub)[p] == Merged(rd, sub, p);
  }
}
