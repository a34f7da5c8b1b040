/** The content of a string map as a list of key/value pairs in ascending key order, and the
  finite map that such a list stands for. */
module StrItems {
  import opened Bitonic
  import opened Lex

  type Pair = (CString, CString)

  ghost predicate Sorted(s: seq<Pair>) {
    forall i, j :: 0 <= i < j < |s| ==> LexCmp(s[i].0, s[j].0) < 0
  }

  function MapOf(s: seq<Pair>): map<CString, CString> {
    if s == [] then map[] else MapOf(s[..|s| - 1])[s[|s| - 1].0 := s[|s| - 1].1]
  }

  lemma {:induction false} MapOfAppend(a: seq<Pair>, b: seq<Pair>)
    ensures MapOf(a + b) == MapOf(a) + MapOf(b)
    decreases |b|
  {
    if b == [] {
      assert a + b == a;
    } else {
      var k := |b| - 1;
      assert (a + b)[..|a + b| - 1] == a + b[..k];
      MapOfAppend(a, b[..k]);
    }
  }

  lemma {:induction false} MapOfKeys(s: seq<Pair>, k: CString)
    ensures k in MapOf(s) <==> exists i :: 0 <= i < |s| && s[i].0 == k
  {
    if s != [] {
      var init := s[..|s| - 1];
      MapOfKeys(init, k);
      if k in MapOf(init) {
        var i :| 0 <= i < |init| && init[i].0 == k;
        assert s[i].0 == k;
      }
      if i :| 0 <= i < |s| && s[i].0 == k && k !in MapOf(init) {
        assert i < |init| ==> init[i].0 == k;
      }
    }
  }

  ghost predicate AllBelow(s: seq<Pair>, k: CString) {
    forall i :: 0 <= i < |s| ==> LexCmp(s[i].0, k) < 0
  }

  ghost predicate AllAbove(s: seq<Pair>, k: CString) {
    forall i :: 0 <= i < |s| ==> LexCmp(k, s[i].0) < 0
  }

  lemma NotAmong(s: seq<Pair>, k: CString)
    requires AllBelow(s, k) || AllAbove(s, k)
    ensures k !in MapOf(s)
  {
    MapOfKeys(s, k);
    LexIsTotal();
  }

  /** Putting a pair between the smaller and the larger keys is an insertion. */
  lemma InsertPair(a: seq<Pair>, b: seq<Pair>, k: CString, v: CString)
    requires AllBelow(a, k) && AllAbove(b, k)
    ensures MapOf(a + [(k, v)] + b) == MapOf(a + b)[k := v]
    ensures k !in MapOf(a + b)
    ensures MapOf(a + b) == MapOf(a + [(k, v)] + b) - {k}
  {
    var p := [(k, v)];
    hide *;
    NotAmong(a, k);
    NotAmong(b, k);
    MapOfAppend(a, b);
    MapOfAppend(a, p);
    MapOfAppend(a + p, b);
    assert MapOf(p) == map[k := v] by { SinglePair(k, v); }
  }

  lemma SinglePair(k: CString, v: CString)
    ensures MapOf([(k, v)]) == map[k := v]
  {
    assert [(k, v)][..0] == [];
  }

  lemma SortedAround(a: seq<Pair>, p: Pair, b: seq<Pair>)
    ensures Sorted(a + [p] + b) ==> AllBelow(a, p.0) && AllAbove(b, p.0)
    ensures Sorted(a + [p] + b) ==> Sorted(a + b)
    ensures Sorted(a + b) && AllBelow(a, p.0) && AllAbove(b, p.0) ==> Sorted(a + [p] + b)
  {
    hide LexCmp;
    var s, t := a + [p] + b, a + b;
    if Sorted(s) {
      forall i | 0 <= i < |a| ensures LexCmp(a[i].0, p.0) < 0 { assert s[i] == a[i] && s[|a|] == p; }
      forall i | 0 <= i < |b| ensures LexCmp(p.0, b[i].0) < 0 { assert s[|a| + 1 + i] == b[i] && s[|a|] == p; }
      forall i, j | 0 <= i < j < |t| ensures LexCmp(t[i].0, t[j].0) < 0 {
        assert t[i] == s[if i < |a| then i else i + 1] && t[j] == s[if j < |a| then j else j + 1];
      }
    }
    if Sorted(t) && AllBelow(a, p.0) && AllAbove(b, p.0) {
      forall i, j | 0 <= i < j < |s| ensures LexCmp(s[i].0, s[j].0) < 0 {
        if i < |a| { assert s[i] == t[i] == a[i]; }
        if i > |a| { assert s[i] == t[i - 1]; }
        if j < |a| { assert s[j] == t[j]; }
        if j > |a| { assert s[j] == t[j - 1] == b[j - |a| - 1]; }
      }
    }
  }

  /** Bytes that the pairs occupy, each string with its terminating zero. */
  function SizeOf(s: seq<Pair>): nat {
    if s == [] then 0 else |s[0].0| + 1 + (|s[0].1| + 1) + SizeOf(s[1..])
  }

  lemma {:induction false} SizeOfAppend(a: seq<Pair>, b: seq<Pair>)
    ensures SizeOf(a + b) == SizeOf(a) + SizeOf(b)
  {
    if a == [] {
      assert a + b == b;
    } else {
      assert (a + b)[1..] == a[1..] + b;
      SizeOfAppend(a[1..], b);
    }
  }

  lemma SizeOfPair(a: seq<Pair>, p: Pair, b: seq<Pair>)
    ensures SizeOf(a + [p] + b) == SizeOf(a + b) + (|p.0| + 1) + (|p.1| + 1)
  {
    SizeOfAppend(a, b);
    SizeOfAppend(a, [p]);
    SizeOfAppend(a + [p], b);
    assert SizeOf([p]) == |p.0| + 1 + (|p.1| + 1) by { assert [p][1..] == []; }
  }

  /** The list without the pair at position `k`. */
  function WithoutPair(items: seq<Pair>, k: nat): seq<Pair>
    requires k < |items|
  {
    items[..k] + items[k + 1..]
  }

  /** The pair at position `k` separates the smaller keys from the larger ones. */
  ghost predicate PairAt(items: seq<Pair>, k: nat, p: Pair) {
    k < |items| && items[k] == p && AllBelow(items[..k], p.0) && AllAbove(items[k + 1..], p.0)
  }

  lemma UpdatePairAt(items: seq<Pair>, k: nat, p: Pair, v: CString)
    requires PairAt(items, k, p)
    ensures var now := items[k := (p.0, v)];
            && MapOf(now) == MapOf(items)[p.0 := v] && p.0 in MapOf(items)
            && SizeOf(now) == SizeOf(items) - (|p.1| + 1) + (|v| + 1)
  {
    var a, b := items[..k], items[k + 1..];
    assert items == a + [p] + b && items[k := (p.0, v)] == a + [(p.0, v)] + b;
    hide *;
    InsertPair(a, b, p.0, v);
    InsertPair(a, b, p.0, p.1);
    SizeOfPair(a, (p.0, v), b);
    SizeOfPair(a, p, b);
  }

  lemma RemovePairAt(items: seq<Pair>, k: nat, p: Pair)
    requires PairAt(items, k, p)
    ensures var now := WithoutPair(items, k);
            && MapOf(now) == MapOf(items) - {p.0} && p.0 in MapOf(items) && MapOf(items)[p.0] == p.1
            && SizeOf(now) == SizeOf(items) - (|p.0| + 1) - (|p.1| + 1)
  {
    var a, b := items[..k], items[k + 1..];
    assert items == a + [p] + b && WithoutPair(items, k) == a + b;
    hide *;
    InsertPair(a, b, p.0, p.1);
    SizeOfPair(a, p, b);
  }

  // ----- one list for each map -----

  lemma {:induction false} FindPair(s: seq<Pair>, k: CString) returns (i: nat)
    requires Sorted(s)
    ensures i <= |s| && AllBelow(s[..i], k)
    ensures i == |s| || s[i].0 == k || AllAbove(s[i..], k)
    ensures i < |s| && s[i].0 == k ==> AllAbove(s[i + 1..], k)
  {
    hide LexCmp;
    i := 0;
    while i < |s| && LexCmp(s[i].0, k) < 0
      invariant i <= |s| && AllBelow(s[..i], k)
    {
      i := i + 1;
    }
    if i < |s| {
      LexAntisymmetric(k, s[i].0);
      forall j | i < j < |s| ensures LexCmp(k, s[j].0) < 0 {
        LexStrict(k, s[i].0, s[j].0);
      }
    }
  }

  lemma LexStrict(a: CString, b: CString, c: CString)
    requires LexCmp(a, b) <= 0 && LexCmp(b, c) <= 0 && (LexCmp(a, b) < 0 || LexCmp(b, c) < 0)
    ensures LexCmp(a, c) < 0
  {
    LexIsTotal();
    LexTransitive(a, b, c);
    if LexCmp(a, c) == 0 {
      LexTransitive(b, c, a);
      LexTransitive(c, a, b);
    }
  }

  /** Every map has a sorted list. */
  lemma {:induction false} HasItems(m: map<CString, CString>) returns (s: seq<Pair>)
    ensures Sorted(s) && MapOf(s) == m
    decreases |m|
  {
    if m == map[] {
      s := [];
    } else {
      var k :| k in m;
      var rest := m - {k};
      assert m == rest[k := m[k]];
      assert m.Keys == rest.Keys + {k};
      var t := HasItems(rest);
      var i := FindPair(t, k);
      var a, b := t[..i], t[i..];
      assert t == a + b;
      MapOfKeys(t, k);
      assert AllAbove(b, k);
      SortedAround(a, (k, m[k]), b);
      InsertPair(a, b, k, m[k]);
      s := a + [(k, m[k])] + b;
    }
  }

  /** Sorted lists of the same map are equal. */
  lemma {:induction false} ItemsUnique(s: seq<Pair>, t: seq<Pair>)
    requires Sorted(s) && Sorted(t) && MapOf(s) == MapOf(t)
    ensures s == t
    decreases |s|
  {
    hide LexCmp;
    if s == [] || t == [] {
      var k := if s != [] then s[0].0 else if t != [] then t[0].0 else [];
      MapOfKeys(s, k);
      MapOfKeys(t, k);
    } else {
      SameHead(s, t);
      var a, b := s[1..], t[1..];
      SplitHead(s);
      SplitHead(t);
      ItemsUnique(a, b);
      assert s == [s[0]] + a && t == [t[0]] + b;
    }
  }

  lemma SplitHead(s: seq<Pair>)
    requires Sorted(s) && s != []
    ensures Sorted(s[1..]) && s[0].0 in MapOf(s) && MapOf(s)[s[0].0] == s[0].1 && MapOf(s[1..]) == MapOf(s) - {s[0].0}
  {
    hide LexCmp, MapOf;
    assert s == [] + [s[0]] + s[1..];
    SortedAround([], s[0], s[1..]);
    InsertPair([], s[1..], s[0].0, s[0].1);
    assert [] + s[1..] == s[1..];
  }

  /** The smallest key of a map is the first one of every sorted list. */
  lemma SameHead(s: seq<Pair>, t: seq<Pair>)
    requires Sorted(s) && Sorted(t) && MapOf(s) == MapOf(t) && s != [] && t != []
    ensures s[0].0 == t[0].0
  {
    hide LexCmp, MapOf;
    var k, w := s[0].0, t[0].0;
    MapOfKeys(s, k);
    MapOfKeys(t, k);
    MapOfKeys(s, w);
    MapOfKeys(t, w);
    var i :| 0 <= i < |t| && t[i].0 == k;
    var j :| 0 <= j < |s| && s[j].0 == w;
    LexAntisymmetric(k, w);
    HeadIsLeast(t, i);
    HeadIsLeast(s, j);
  }

  lemma HeadIsLeast(s: seq<Pair>, i: nat)
    requires Sorted(s) && i < |s|
    ensures LexCmp(s[0].0, s[i].0) <= 0
  {
    hide LexCmp;
    LexAntisymmetric(s[0].0, s[0].0);
  }

  /** In the list of a map the keys stand in the order of `strcmp`. */
  lemma SortedByStrcmp(s: seq<Pair>)
    ensures Sorted(s) <==> forall i, j :: 0 <= i < j < |s| ==> StrBefore(s[i].0, s[j].0)
    ensures Sorted(s) ==> forall i, j :: 0 <= i < |s| && 0 <= j < |s| && StrBefore(s[i].0, s[j].0) ==> i < j
  {
    hide LexCmp, StrBefore;
    forall i, j | 0 <= i < |s| && 0 <= j < |s|
      ensures LexCmp(s[i].0, s[j].0) < 0 <==> StrBefore(s[i].0, s[j].0)
      ensures LexCmp(s[j].0, s[i].0) < 0 <==> StrBefore(s[j].0, s[i].0)
      ensures LexCmp(s[i].0, s[j].0) < 0 ==> LexCmp(s[j].0, s[i].0) >= 0 && s[i].0 != s[j].0
    {
      LexIsStrcmp(s[i].0, s[j].0);
      LexIsStrcmp(s[j].0, s[i].0);
      LexAntisymmetric(s[i].0, s[j].0);
    }
  }
}
