/** The split is MPI_Comm_split: every rank ends in the group of the ranks with its colour,
  ordered by key and then by rank in the parent, and learns its size, its place and the
  names of its two neighbours there. */
module SplitProof {
  import opened Confluence
  import opened Lists
  import opened AsyncNet
  import opened Rounds
  import opened Groups
  import opened Execution
  import opened Bitonic
  import opened Lex
  import opened GroupSort
  import opened SplitModel
  import opened SplitScan
  import opened Doubling
  import C = Collectives

  // ----- the specification -----

  /** What the ranks of a group of size |colors| pass to the split. */
  datatype Request = Request(colors: seq<CString>, keys: seq<int>, names: seq<CString>) {
    ghost predicate Valid() { |colors| == |keys| == |names| }
  }

  ghost predicate Before(q: Request, a: nat, b: nat)
    requires q.Valid() && a < |q.colors| && b < |q.colors|
  {
    q.keys[a] < q.keys[b] || (q.keys[a] == q.keys[b] && a < b)
  }

  /** `G` lists the ranks with colour `c`, ordered by key and then by rank. */
  ghost predicate IsColorGroup(q: Request, c: CString, G: seq<nat>)
    requires q.Valid()
  {
    && (forall t :: 0 <= t < |G| ==> G[t] < |q.colors| && q.colors[G[t]] == c)
    && (forall j :: 0 <= j < |q.colors| && q.colors[j] == c ==> j in G)
    && (forall s, t :: 0 <= s < t < |G| ==> Before(q, G[s], G[t]))
  }

  /** What rank `i` must get, when `G` is the group of its colour. */
  ghost predicate Placed(q: Request, i: nat, G: seq<nat>, g: NewGroup)
    requires q.Valid() && i < |q.colors|
  {
    && IsColorGroup(q, q.colors[i], G)
    && g.size == |G| && 0 <= g.rank < |G| && G[g.rank] == i
    && g.left == (if g.rank > 0 then Some(q.names[G[g.rank - 1]]) else None)
    && g.right == (if g.rank < |G| - 1 then Some(q.names[G[g.rank + 1]]) else None)
  }

  /** There is only one such list for each colour. */
  lemma {:induction false} ColorGroupUnique(q: Request, c: CString, G: seq<nat>, H: seq<nat>)
    requires q.Valid() && IsColorGroup(q, c, G) && IsColorGroup(q, c, H)
    ensures G == H
  {
    forall t | 0 <= t < |G| && t < |H| ensures G[t] == H[t] {
      SameAt(q, c, G, H, t);
    }
    NoLonger(q, c, G, H);
    NoLonger(q, c, H, G);
  }

  lemma NoLonger(q: Request, c: CString, G: seq<nat>, H: seq<nat>)
    requires q.Valid() && IsColorGroup(q, c, G) && IsColorGroup(q, c, H)
    requires forall t :: 0 <= t < |G| && t < |H| ==> G[t] == H[t]
    ensures |H| <= |G|
  {
    if |G| < |H| {
      var x := H[|G|];
      forall t | 0 <= t < |G| ensures G[t] != x {
        assert Before(q, H[t], H[|G|]);
      }
    }
  }

  lemma {:induction false} SameAt(q: Request, c: CString, G: seq<nat>, H: seq<nat>, t: nat)
    requires q.Valid() && IsColorGroup(q, c, G) && IsColorGroup(q, c, H) && t < |G| && t < |H|
    ensures G[t] == H[t]
    decreases t
  {
    forall s | 0 <= s < t ensures G[s] == H[s] && G[s] != G[t] && H[s] != H[t] {
      SameAt(q, c, G, H, s);
      assert Before(q, G[s], G[t]) && Before(q, H[s], H[t]);
    }
    var a :| 0 <= a < |H| && H[a] == G[t];
    var b :| 0 <= b < |G| && G[b] == H[t];
    assert a >= t && b >= t;
    assert t < a ==> Before(q, H[t], G[t]);
    assert t < b ==> Before(q, G[t], H[t]);
  }

  // ----- orders -----

  lemma ItemOrder()
    ensures TotalOrder(CmpItem)
    ensures forall a, b :: CmpItem(a, b) == 0 ==> a.rank == b.rank
    ensures forall a, b :: CmpItem(a, b) <= 0 ==> LexCmp(a.color, b.color) <= 0
    ensures forall a, b :: CmpItem(a, b) < 0 && a.color == b.color ==>
              a.key < b.key || (a.key == b.key && a.rank < b.rank)
  {
    LexIsTotal();
    hide LexCmp;
    forall a, b, c | CmpItem(a, b) <= 0 && CmpItem(b, c) <= 0 ensures CmpItem(a, c) <= 0 {
      ItemTransitive(a, b, c);
    }
  }

  lemma ItemTransitive(a: Item, b: Item, c: Item)
    requires CmpItem(a, b) <= 0 && CmpItem(b, c) <= 0
    ensures CmpItem(a, c) <= 0
  {
    hide LexCmp;
    LexTransitive(a.color, b.color, c.color);
    LexAntisymmetric(a.color, b.color);
    LexAntisymmetric(b.color, c.color);
    LexAntisymmetric(a.color, c.color);
    if a.color == c.color { LexTransitive(b.color, c.color, a.color); }
  }

  lemma SrcOrder()
    ensures TotalOrder(CmpSrc)
  {
  }

  // ----- permutations without repetition -----

  lemma {:induction false} OccursOnce<T>(s: seq<T>, x: T)
    requires NoDup(s)
    ensures multiset(s)[x] <= 1
    decreases |s|
  {
    if s != [] {
      var rest := s[1..];
      assert s == [s[0]] + rest;
      assert NoDup(rest) by {
        forall i, j | 0 <= i < j < |rest| ensures rest[i] != rest[j] {
          assert rest[i] == s[i + 1] && rest[j] == s[j + 1];
        }
      }
      OccursOnce(rest, x);
      if x == s[0] {
        assert x !in rest;
      }
    }
  }

  lemma OccursTwice<T>(t: seq<T>, i: nat, j: nat)
    requires i < j < |t| && t[i] == t[j]
    ensures multiset(t)[t[i]] >= 2
  {
    assert t == t[..j] + t[j..];
    assert t[i] in t[..j] && t[j] in t[j..];
    assert multiset(t)[t[i]] == multiset(t[..j])[t[i]] + multiset(t[j..])[t[i]];
  }

  lemma PermutationNoDup<T>(s: seq<T>, t: seq<T>)
    requires NoDup(s) && multiset(s) == multiset(t)
    ensures NoDup(t)
  {
    forall i, j | 0 <= i < j < |t| ensures t[i] != t[j] {
      OccursOnce(s, t[i]);
      if t[i] == t[j] {
        OccursTwice(t, i, j);
      }
    }
  }

  lemma PermutationCovers<T>(s: seq<T>, t: seq<T>, i: nat) returns (p: nat)
    requires multiset(s) == multiset(t) && i < |s|
    ensures p < |t| && t[p] == s[i]
  {
    assert s[i] in multiset(t);
    p :| 0 <= p < |t| && t[p] == s[i];
  }

  // ----- the sorted items -----

  ghost function ItemsOf(q: Request): (items: seq<Item>)
    requires q.Valid()
    ensures |items| == |q.colors|
    ensures forall i :: 0 <= i < |items| ==> items[i] == Item(q.colors[i], q.keys[i], i, q.names[i])
  {
    seq(|q.colors|, i requires 0 <= i < |q.colors| => Item(q.colors[i], q.keys[i], i, q.names[i]))
  }

  ghost predicate Somewhere(S: seq<Item>, r: nat) {
    exists p :: 0 <= p < |S| && S[p].rank == r
  }

  /** `S` holds the item of every rank once, strictly ordered by colour, key and rank. */
  ghost predicate SortedItems(q: Request, S: seq<Item>)
    requires q.Valid()
  {
    && |S| == |q.colors|
    && (forall p :: 0 <= p < |S| ==> S[p].rank < |S| && S[p] == ItemsOf(q)[S[p].rank])
    && (forall r :: 0 <= r < |S| ==> Somewhere(S, r))
    && (forall a, b :: 0 <= a < b < |S| ==> S[a].rank != S[b].rank && CmpItem(S[a], S[b]) < 0)
  }

  lemma SortGivesSortedItems(q: Request)
    requires q.Valid()
    ensures SortedItems(q, BitonicSort(CmpItem, true, ItemsOf(q)))
  {
    hide BitonicSort;
    var items := ItemsOf(q);
    var S := BitonicSort(CmpItem, true, items);
    ItemOrder();
    hide TotalOrder, CmpItem;
    SortPermutes(CmpItem, true, items);
    SortSorts(CmpItem, true, items);
    assert NoDup(items);
    PermutationNoDup(items, S);
    forall p | 0 <= p < |S| ensures S[p].rank < |S| && S[p] == items[S[p].rank] {
      var i := PermutationCovers(S, items, p);
    }
    forall r | 0 <= r < |S| ensures Somewhere(S, r) {
      var p := PermutationCovers(items, S, r);
    }
    forall a, b | 0 <= a < b < |S| ensures S[a].rank != S[b].rank && CmpItem(S[a], S[b]) < 0 {
      assert Ord(CmpItem, true)(S[a], S[b]) <= 0;
      assert S[a] != S[b];
    }
  }

  // ----- a run of equal colours is a group -----

  ghost function RunRanks(S: seq<Item>, p: nat): (G: seq<nat>)
    requires p < |S|
    ensures |G| == SegEnd(S, p) - SegStart(S, p) + 1
    ensures forall t :: 0 <= t < |G| ==> G[t] == S[SegStart(S, p) + t].rank
  {
    seq(SegEnd(S, p) - SegStart(S, p) + 1,
      t requires 0 <= t < SegEnd(S, p) - SegStart(S, p) + 1 => S[SegStart(S, p) + t].rank)
  }

  lemma ColorsSorted(q: Request, S: seq<Item>, a: nat, b: nat)
    requires q.Valid() && SortedItems(q, S) && a <= b < |S|
    ensures LexCmp(S[a].color, S[b].color) <= 0
  {
    ItemOrder();
    LexIsTotal();
  }

  /** A colour occurs only in one run. */
  lemma OutsideRun(q: Request, S: seq<Item>, p: nat, t: nat)
    requires q.Valid() && SortedItems(q, S) && p < |S| && t < |S|
    requires !(SegStart(S, p) <= t <= SegEnd(S, p))
    ensures S[t].color != S[p].color
  {
    hide SortedItems;
    LexIsTotal();
    var a, b := SegStart(S, p), SegEnd(S, p);
    if t < a {
      ColorsSorted(q, S, t, a - 1);
      ColorsSorted(q, S, a - 1, a);
    } else {
      ColorsSorted(q, S, b, b + 1);
      ColorsSorted(q, S, b + 1, t);
    }
  }

  lemma RunHasColor(q: Request, S: seq<Item>, p: nat, t: nat)
    requires q.Valid() && SortedItems(q, S) && p < |S| && t < |RunRanks(S, p)|
    ensures RunRanks(S, p)[t] < |q.colors| && q.colors[RunRanks(S, p)[t]] == S[p].color
  {
    hide SegStart, SegEnd, CmpItem;
    assert S[SegStart(S, p) + t].color == S[p].color;
  }

  lemma FindItem(q: Request, S: seq<Item>, j: nat) returns (t: nat)
    requires q.Valid() && SortedItems(q, S) && j < |q.colors|
    ensures t < |S| && S[t].rank == j && S[t].color == q.colors[j]
  {
    assert Somewhere(S, j);
    t :| 0 <= t < |S| && S[t].rank == j;
  }

  lemma ColorIsInRun(q: Request, S: seq<Item>, p: nat, j: nat)
    requires q.Valid() && SortedItems(q, S) && p < |S| && j < |q.colors| && q.colors[j] == S[p].color
    ensures j in RunRanks(S, p)
  {
    hide SegStart, SegEnd, SortedItems;
    var t := FindItem(q, S, j);
    var a, b := SegStart(S, p), SegEnd(S, p);
    if a <= t <= b {
      assert RunRanks(S, p)[t - a] == j;
    } else {
      OutsideRun(q, S, p, t);
    }
  }

  lemma RunIsOrdered(q: Request, S: seq<Item>, p: nat, s: nat, t: nat)
    requires q.Valid() && SortedItems(q, S) && p < |S| && s < t < |RunRanks(S, p)|
    requires RunRanks(S, p)[s] < |q.colors| && RunRanks(S, p)[t] < |q.colors|
    ensures Before(q, RunRanks(S, p)[s], RunRanks(S, p)[t])
  {
    hide SegStart, SegEnd, CmpItem, TotalOrder;
    ItemOrder();
    var a := SegStart(S, p);
    assert S[a + s].color == S[p].color && S[a + t].color == S[p].color;
    assert CmpItem(S[a + s], S[a + t]) < 0;
  }

  lemma RunIsColorGroup(q: Request, S: seq<Item>, p: nat)
    requires q.Valid() && SortedItems(q, S) && p < |S|
    ensures IsColorGroup(q, S[p].color, RunRanks(S, p))
  {
    hide SegStart, SegEnd, SortedItems, RunRanks;
    var G := RunRanks(S, p);
    assert |S| == |q.colors| by { SortedLength(q, S); }
    forall t | 0 <= t < |G| ensures G[t] < |q.colors| && q.colors[G[t]] == S[p].color {
      RunHasColor(q, S, p, t);
    }
    forall j | 0 <= j < |q.colors| && q.colors[j] == S[p].color ensures j in G {
      ColorIsInRun(q, S, p, j);
    }
    forall s, t | 0 <= s < t < |G| ensures Before(q, G[s], G[t]) {
      RunIsOrdered(q, S, p, s, t);
    }
  }

  lemma SortedLength(q: Request, S: seq<Item>)
    requires q.Valid() && SortedItems(q, S)
    ensures |S| == |q.colors|
    ensures forall p :: 0 <= p < |S| ==>
              S[p].rank < |S| && S[p].name == q.names[S[p].rank] && S[p].color == q.colors[S[p].rank]
  {
  }

  /** The result computed for the item at position `p` places the rank that contributed it. */
  lemma ChainPlaces(q: Request, S: seq<Item>, c: Chain, p: nat, v: Holder)
    requires q.Valid() && SortedItems(q, S) && p < |S| && ChainAt(S, c, p) && v.chain == c
    ensures c.src == S[p].rank < |q.colors|
    ensures Placed(q, S[p].rank, RunRanks(S, p), Outcome(v))
  {
    hide SegStart, SegEnd, RunsBefore, SortedItems, IsColorGroup;
    SortedLength(q, S);
    RunIsColorGroup(q, S, p);
    assert RunRanks(S, p)[p - SegStart(S, p)] == S[p].rank;
  }

  // ----- sorting back -----

  lemma {:induction false} IncreasingAtLeast(B: seq<Chain>, i: nat)
    requires i < |B| && forall a, b :: 0 <= a < b < |B| ==> B[a].src < B[b].src
    ensures i <= B[i].src
    decreases i
  {
    if i > 0 { IncreasingAtLeast(B, i - 1); }
  }

  lemma {:induction false} IncreasingAtMost(B: seq<Chain>, i: nat)
    requires i < |B| && forall a, b :: 0 <= a < b < |B| ==> B[a].src < B[b].src
    requires forall a :: 0 <= a < |B| ==> B[a].src < |B|
    ensures B[i].src <= i
    decreases |B| - i
  {
    if i < |B| - 1 { IncreasingAtMost(B, i + 1); }
  }

  /** Sorting by return address puts every result back at the rank that it belongs to. */
  lemma SortBack(chains: seq<Chain>, i: nat) returns (p: nat)
    requires i < |chains|
    requires forall a, b :: 0 <= a < b < |chains| ==> chains[a].src != chains[b].src
    requires forall a :: 0 <= a < |chains| ==> chains[a].src < |chains|
    ensures p < |chains| && chains[p].src == i && BitonicSort(CmpSrc, true, chains)[i] == chains[p]
  {
    hide BitonicSort;
    var B := BitonicSort(CmpSrc, true, chains);
    SrcOrder();
    SortPermutes(CmpSrc, true, chains);
    SortSorts(CmpSrc, true, chains);
    assert NoDup(chains);
    PermutationNoDup(chains, B);
    forall a | 0 <= a < |B| ensures B[a] in chains {
      var x := PermutationCovers(B, chains, a);
    }
    forall a, b | 0 <= a < b < |B| ensures B[a].src < B[b].src {
      assert Ord(CmpSrc, true)(B[a], B[b]) <= 0;
      assert B[a] != B[b];
      var x := PermutationCovers(B, chains, a);
      var y := PermutationCovers(B, chains, b);
    }
    forall a | 0 <= a < |B| ensures B[a].src < |B| {
      var x := PermutationCovers(B, chains, a);
    }
    IncreasingAtLeast(B, i);
    IncreasingAtMost(B, i);
    p := PermutationCovers(B, chains, i);
  }

  // ----- the whole split -----

  lemma LensesLawful()
    ensures LensLaw(ItemLens()) && LensLaw(ChainLens())
  {
  }

  /** Every member holds the item it contributes. */
  ghost predicate Contributes(q: Request, member: seq<nat>, vals: seq<Holder>) {
    && q.Valid() && |q.colors| == |member| && GroupOf(member, |vals|)
    && forall i :: 0 <= i < |member| ==> vals[member[i]].item == Item(q.colors[i], q.keys[i], i, q.names[i])
  }

  lemma AfterFirstSort(id: nat, member: seq<nat>, vals: seq<Holder>, q: Request)
    returns (S: seq<Item>, out: seq<Holder>)
    requires Contributes(q, member, vals)
    ensures var rounds := SortRounds(ItemLens(), CmpItem, id, member, true);
            ValidRounds(rounds, |vals|) && out == RunRounds(rounds, vals)
    ensures |out| == |vals| && SortedItems(q, S) && HoldsItems(S, Gather(out, member))
  {
    hide RunRounds, BitonicSort, SortRounds, SortedItems, CmpItem;
    var at := ItemLens();
    LensesLawful();
    var items := Items(at, vals, member);
    assert items == ItemsOf(q);
    S := BitonicSort(CmpItem, true, items);
    SortGivesSortedItems(q);
    SortComputes(at, CmpItem, id, member, true, vals);
    out := PutItems(at, vals, member, S);
    PutThenGet(at, vals, member, S);
    assert Items(at, out, member) == S;
    SortedLength(q, S);
    forall p | 0 <= p < |S| ensures Gather(out, member)[p].item == S[p] {
      assert Items(at, out, member)[p] == at.get(out[member[p]]);
    }
  }

  lemma AfterMiddle(id: nat, member: seq<nat>, vals: seq<Holder>, S: seq<Item>) returns (out: seq<Holder>)
    requires GroupOf(member, |vals|) && |S| == |member| && HoldsItems(S, Gather(vals, member))
    ensures ValidRounds(SplitMiddle(id, member), |vals|) && out == RunRounds(SplitMiddle(id, member), vals)
    ensures |out| == |vals|
    ensures forall p :: 0 <= p < |S| ==> ChainAt(S, out[member[p]].chain, p)
  {
    hide RunRounds, RunGroup, SplitMiddle, ChainAt;
    var rounds, sub := SplitMiddle(id, member), Gather(vals, member);
    assert ValidRounds(rounds, |vals|);
    GroupAlone(rounds, member, vals);
    out := RunRounds(rounds, vals);
    forall p | 0 <= p < |S| ensures ChainAt(S, out[member[p]].chain, p) {
      PosUnique(member, p);
      MiddleComputes(S, member, id, sub, p);
    }
  }

  lemma AfterSecondSort(id: nat, member: seq<nat>, vals: seq<Holder>, q: Request, S: seq<Item>, i: nat)
    requires GroupOf(member, |vals|) && q.Valid() && |q.colors| == |member| && SortedItems(q, S) && i < |member| == |S|
    requires forall p :: 0 <= p < |S| ==> ChainAt(S, vals[member[p]].chain, p)
    ensures var rounds := SortRounds(ChainLens(), CmpSrc, id, member, true);
            && ValidRounds(rounds, |vals|)
            && exists G :: Placed(q, i, G, Outcome(RunRounds(rounds, vals)[member[i]]))
  {
    hide RunRounds, BitonicSort, SortRounds, CmpSrc, SegStart, SegEnd, RunsBefore, Outcome, IsColorGroup;
    var at := ChainLens();
    LensesLawful();
    var chains := Items(at, vals, member);
    forall p | 0 <= p < |S| ensures chains[p] == vals[member[p]].chain && chains[p].src == S[p].rank < |S| {
      assert ChainAt(S, vals[member[p]].chain, p);
    }
    forall a, b | 0 <= a < b < |S| ensures chains[a].src != chains[b].src {
      assert S[a].rank != S[b].rank;
    }
    hide SortedItems;
    SortComputes(at, CmpSrc, id, member, true, vals);
    var p := SortBack(chains, i);
    var out := PutItems(at, vals, member, BitonicSort(CmpSrc, true, chains));
    PosUnique(member, i);
    assert out[member[i]].chain == chains[p];
    ChainPlaces(q, S, chains[p], p, out[member[i]]);
  }

  /** Round by round, the split places every rank. */
  lemma SplitComputes(id: nat, member: seq<nat>, vals: seq<Holder>, q: Request, i: nat)
    requires Contributes(q, member, vals) && i < |member|
    ensures ValidRounds(SplitRounds(id, member), |vals|)
    ensures exists G :: Placed(q, i, G, Outcome(RunRounds(SplitRounds(id, member), vals)[member[i]]))
  {
    hide RunRounds, HopRounds, SortRounds, SplitMiddle, SortedItems, ChainAt, CmpItem, CmpSrc, Placed, Outcome;
    var lengths, middle := HopRounds(member, id, LengthKind(), 0), SplitMiddle(id, member);
    var first, last := SortRounds(ItemLens(), CmpItem, id, member, true),
      SortRounds(ChainLens(), CmpSrc, id, member, true);
    var v0 := AfterLengths(id, member, vals, q);
    var S, v1 := AfterFirstSort(id, member, v0, q);
    SortedLength(q, S);
    var v2 := AfterMiddle(id, member, v1, S);
    AfterSecondSort(id, member, v2, q, S, i);
    RunRoundsAppend(lengths, first, vals);
    RunRoundsAppend(lengths + first, middle, vals);
    RunRoundsAppend(lengths + first + middle, last, vals);
  }

  function Unmeasured(v: Holder): (Item, Chain, Scan, Scan) { (v.item, v.chain, v.right, v.left) }

  /** Determining the lengths leaves everything else alone. */
  lemma AfterLengths(id: nat, member: seq<nat>, vals: seq<Holder>, q: Request) returns (out: seq<Holder>)
    requires Contributes(q, member, vals)
    ensures var rounds := HopRounds(member, id, LengthKind(), 0);
            ValidRounds(rounds, |vals|) && out == RunRounds(rounds, vals)
    ensures |out| == |vals| && Contributes(q, member, out)
  {
    hide RunRounds, RunGroup;
    var rounds, sub := HopRounds(member, id, LengthKind(), 0), Gather(vals, member);
    HopsMerge(member, id, LengthKind(), 0);
    hide HopRounds;
    forall j, v, l, r | 0 <= j < |rounds| && rounds[j].Hop?
      ensures Unmeasured(rounds[j].merge(v, l, r)) == Unmeasured(v)
    {
    }
    Keeps(rounds, sub, Unmeasured);
    GroupAlone(rounds, member, vals);
    out := RunRounds(rounds, vals);
    forall i | 0 <= i < |member| ensures out[member[i]].item == vals[member[i]].item {
      PosUnique(member, i);
      assert Unmeasured(RunGroup(rounds, sub)[i]) == Unmeasured(sub[i]);
    }
  }

  ghost function AllLengths(sub: seq<Holder>): (lens: seq<C.Vec>)
    ensures |lens| == |sub| && forall i :: 0 <= i < |sub| ==> lens[i] == sub[i].lengths
  {
    seq(|sub|, i requires 0 <= i < |sub| => sub[i].lengths)
  }

  function LongerOf(v: Holder, w: Holder): Holder { v.(lengths := C.MaxVec(v.lengths, w.lengths)) }

  /** Before anything is sorted, every rank knows the longest length of each kind of string, so that
      the buffers of all ranks have the same size and every string fits. */
  lemma LengthsAgree(member: seq<nat>, id: nat, sub: seq<Holder>, count: nat, i: nat)
    requires |sub| == |member| && C.SameLength(AllLengths(sub), count) && i < |sub|
    ensures C.IsMax(AllLengths(sub), count, RunGroup(HopRounds(member, id, LengthKind(), 0), sub)[i].lengths, 0, |sub|)
  {
    hide RunGroup, HopRounds;
    var lens := AllLengths(sub);
    var rep := (v: Holder, lo: int, hi: int) => C.IsMax(lens, count, v.lengths, lo, hi);
    var good := (v: Holder) => true;
    assert MergeJoins(LengthKind(), good, LongerOf);
    assert Joined(rep, sub, Pow2(0)) by {
      forall j | 0 <= j < |sub| ensures C.IsMax(lens, count, lens[j], j, j + 1) {}
    }
    hide C.IsMax, C.MaxVec, MergeJoins;
    forall v, a, b, w, c, d {:trigger LongerOf(v, w), rep(v, a, b), rep(w, c, d)} |
      rep(v, a, b) && rep(w, c, d) && (c <= a <= d <= b || a <= c <= b <= d)
      ensures rep(LongerOf(v, w), Min(a, c), Max(b, d))
    {
      C.MaxJoins(lens, count, v.lengths, a, b, w.lengths, c, d);
    }
    JoinAll(member, id, LengthKind(), 0, sub, good, LongerOf, rep);
  }

  /** The split is right in every execution: whatever the order in which the ranks move and
      messages travel, a rank that has finished the split has been placed in its colour's
      group, and the execution cannot get stuck before all ranks have finished. */
  lemma SplitIsCorrect(
    id: nat, member: seq<nat>, vals: seq<Holder>, q: Request, s: Net<Holder, Msg>, run: seq<nat>)
    requires Contributes(q, member, vals)
    requires Quiet(s, vals, Start(SplitRounds(id, member), false))
    requires Exec(Step(false), s, run).Some?
    ensures var u := Exec(Step(false), s, run).value;
            && |u.ranks| == |vals|
            && (forall i :: 0 <= i < |member| && u.ranks[member[i]].code == [] ==>
                  exists G :: Placed(q, i, G, Outcome(u.ranks[member[i]].val)))
            && (Terminal(Step(false), u) ==> forall r :: 0 <= r < |vals| ==> u.ranks[r].code == [])
  {
    hide RunRounds, SplitRounds, Placed, Outcome, Exec, Terminal;
    var rounds := SplitRounds(id, member);
    assert ValidRounds(rounds, |vals|) by {
      if |member| > 0 { SplitComputes(id, member, vals, q, 0); } else { EmptySplit(id, member, vals, q); }
    }
    var rest, t := EveryRunComputes(rounds, s, vals, false, run);
    var u := Exec(Step(false), s, run).value;
    forall i | 0 <= i < |member| && u.ranks[member[i]].code == []
      ensures exists G :: Placed(q, i, G, Outcome(u.ranks[member[i]].val))
    {
      SplitComputes(id, member, vals, q, i);
    }
  }

  lemma EmptySplit(id: nat, member: seq<nat>, vals: seq<Holder>, q: Request)
    requires Contributes(q, member, vals) && |member| == 0
    ensures ValidRounds(SplitRounds(id, member), |vals|)
  {
  }
}
