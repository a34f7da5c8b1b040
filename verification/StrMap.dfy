/** The string map: a tree of nodes that is always sorted, linked, balanced and of known packed
  size, and whose operations are those of a finite map. */
module StrMaps {
  import opened Lex
  import opened AvlTree
  import opened StrNodes
  import opened StrItems
  import opened StrSearch
  import opened StrSurgery

  type Values = map<StrNode, CString>

  ghost function ValuesOf(own: set<StrNode>): Values
    reads own
  {
    map x | x in own :: x.value
  }

  /** The nodes `ns` hold the pairs `items`. */
  ghost predicate Holds(vals: Values, ns: seq<StrNode>, items: seq<Pair>) {
    && |ns| == |items|
    && forall i :: 0 <= i < |ns| ==> ns[i] in vals && items[i] == (ns[i].key, vals[ns[i]])
  }

  /** A balanced search tree of the nodes `own`, which hold the pairs `items`. */
  ghost predicate Good(g: Shape, vals: Values, own: set<StrNode>, tree: Tree<StrNode>, items: seq<Pair>) {
    && Located(g, own, tree, Top) && Balanced(tree) && Listed(vals, InOrder(tree), items)
  }

  lemma GoodIsSorted(g: Shape, vals: Values, own: set<StrNode>, tree: Tree<StrNode>, items: seq<Pair>)
    requires Good(g, vals, own, tree, items)
    ensures Sorted(items)
  {
    hide LexCmp;
  }

  /** Where the place `y` of a key lies in the list of pairs. */
  lemma SplitItems(vals: Values, tree: Tree<StrNode>, items: seq<Pair>, u: Tree<StrNode>, y: Zip<StrNode>, key: CString)
    requires tree == Plug(u, y) && Holds(vals, InOrder(tree), items) && Between(y, key)
    ensures var (i, j) := (|Before(y)|, |Before(y)| + |InOrder(u)|);
            && j <= |items| && AllBelow(items[..i], key) && AllAbove(items[j..], key)
            && Holds(vals, Before(y), items[..i]) && Holds(vals, InOrder(u), items[i..j])
              && Holds(vals, After(y), items[j..])
  {
    hide LexCmp, InOrder, Before, After, Plug, Holds, AllBelow, AllAbove, Below, Beyond;
    PlugInOrder(u, y);
    SplitHolds(vals, Before(y), InOrder(u), After(y), items, key);
  }

  lemma SplitHolds(
    vals: Values, a: seq<StrNode>, b: seq<StrNode>, c: seq<StrNode>, items: seq<Pair>, key: CString)
    requires Holds(vals, a + b + c, items) && Below(a, key) && Beyond(c, key)
    ensures var (i, j) := (|a|, |a| + |b|);
            && j <= |items| && AllBelow(items[..i], key) && AllAbove(items[j..], key)
            && Holds(vals, a, items[..i]) && Holds(vals, b, items[i..j]) && Holds(vals, c, items[j..])
  {
    hide Holds, AllBelow, AllAbove, Below, Beyond;
    var ns, i, j := a + b + c, |a|, |a| + |b|;
    HoldsSlice(vals, ns, items, 0, i);
    HoldsSlice(vals, ns, items, i, j);
    HoldsSlice(vals, ns, items, j, |ns|);
    assert ns[0..i] == a && ns[i..j] == b && ns[j..|ns|] == c;
    assert items[0..i] == items[..i] && items[j..|ns|] == items[j..];
    HeldKeys(vals, a, items[..i], key);
    HeldKeys(vals, c, items[j..], key);
  }

  lemma HoldsSlice(vals: Values, ns: seq<StrNode>, items: seq<Pair>, i: nat, j: nat)
    requires Holds(vals, ns, items) && i <= j <= |ns|
    ensures |items| == |ns| && Holds(vals, ns[i..j], items[i..j])
  {
  }

  lemma HeldKeys(vals: Values, ns: seq<StrNode>, items: seq<Pair>, key: CString)
    requires Holds(vals, ns, items)
    ensures Below(ns, key) ==> AllBelow(items, key)
    ensures Beyond(ns, key) ==> AllAbove(items, key)
  {
    hide LexCmp;
  }

  lemma HoldsAppend(vals: Values, a: seq<StrNode>, b: seq<StrNode>, s: seq<Pair>, t: seq<Pair>)
    requires Holds(vals, a, s) && Holds(vals, b, t)
    ensures Holds(vals, a + b, s + t)
  {
  }

  lemma HoldsSame(vals: Values, more: Values, a: seq<StrNode>, s: seq<Pair>)
    requires Holds(vals, a, s) && forall x <- a :: x in vals ==> x in more && more[x] == vals[x]
    ensures Holds(more, a, s)
  {
  }

  /** Nodes with a key between those before it and those after it. */
  lemma AscendingJoin(a: seq<StrNode>, n: StrNode, b: seq<StrNode>)
    requires Ascending(a + b) && Below(a, n.key) && Beyond(b, n.key)
    ensures Ascending(a + [n] + b)
  {
    hide LexCmp;
    var s, t := a + [n] + b, a + b;
    forall i, j | 0 <= i < j < |s| ensures LexCmp(s[i].key, s[j].key) < 0 {
      if i < |a| { assert s[i] == t[i] == a[i]; }
      if i > |a| { assert s[i] == t[i - 1]; }
      if j < |a| { assert s[j] == t[j]; }
      if j > |a| { assert s[j] == t[j - 1] == b[j - |a| - 1]; }
    }
  }

  /** A node of the tree holds one pair of the list, and the others lie on either side of it. */
  lemma NodePair(vals: Values, tree: Tree<StrNode>, items: seq<Pair>, u: Tree<StrNode>, y: Zip<StrNode>)
    requires u.Br? && tree == Plug(u, y) && Holds(vals, InOrder(tree), items) && Ascending(InOrder(tree))
    ensures var k := |Before(y)| + |InOrder(u.l)|;
            k < |items| && InOrder(tree)[k] == u.n && u.n in vals && PairAt(items, k, (u.n.key, vals[u.n]))
  {
    PlugInOrder(u, y);
    hide LexCmp, Before, After, Plug;
    Regroup(Before(y), InOrder(u.l), u.n, InOrder(u.r), After(y));
    var a, b := Before(y) + InOrder(u.l), InOrder(u.r) + After(y);
    var ns := InOrder(tree);
    assert ns == a + [u.n] + b;
    hide InOrder;
    var k := |a|;
    assert ns[k] == u.n;
    assert forall i {:trigger items[..k][i]} :: 0 <= i < k ==>
             items[..k][i] == items[i] && LexCmp(ns[i].key, ns[k].key) < 0;
    assert forall i {:trigger items[k + 1..][i]} :: 0 <= i < |items| - k - 1 ==>
             items[k + 1..][i] == items[k + 1 + i] && LexCmp(ns[k].key, ns[k + 1 + i].key) < 0;
  }

  lemma Lookup(vals: Values, tree: Tree<StrNode>, items: seq<Pair>, u: Tree<StrNode>, y: Zip<StrNode>, key: CString)
    requires tree == Plug(u, y) && Listed(vals, InOrder(tree), items) && Between(y, key)
    ensures u.Leaf? ==> key !in MapOf(items)
    ensures u.Br? && u.n.key == key ==> u.n in vals && key in MapOf(items) && MapOf(items)[key] == vals[u.n]
  {
    hide LexCmp, Holds, Between, MapOf, AllBelow, AllAbove;
    if u.Leaf? {
      SplitItems(vals, tree, items, u, y, key);
      var i := |Before(y)|;
      assert items == items[..i] + items[i..];
      InsertPair(items[..i], items[i..], key, []);
    } else if u.n.key == key {
      NodePair(vals, tree, items, u, y);
      RemovePairAt(items, |Before(y)| + |InOrder(u.l)|, (u.n.key, vals[u.n]));
    }
  }

  /** The nodes `ns` in key order hold the pairs `items`. */
  ghost predicate Listed(vals: Values, ns: seq<StrNode>, items: seq<Pair>) {
    Ascending(ns) && Holds(vals, ns, items)
  }

  lemma InsertListed(
    vals: Values, tree: Tree<StrNode>, items: seq<Pair>, y: Zip<StrNode>, node: StrNode, value: CString)
    returns (now: seq<Pair>)
    requires Listed(vals, InOrder(tree), items) && tree == Plug(Leaf, y) && Between(y, node.key) && node !in vals
    ensures Listed(vals[node := value], Before(y) + [node] + After(y), now)
    ensures MapOf(now) == MapOf(items)[node.key := value] && node.key !in MapOf(items)
    ensures SizeOf(now) == SizeOf(items) + (|node.key| + 1) + (|value| + 1)
  {
    hide MapOf, LexCmp, SizeOf, Holds;
    var key, i := node.key, |Before(y)|;
    var a, b := Before(y), After(y);
    SplitItems(vals, tree, items, Leaf, y, key);
    PlugInOrder(Leaf, y);
    assert InOrder(tree) == a + b;
    assert items == items[..i] + items[i..];
    hide InOrder, Before, After, Plug;
    now := items[..i] + [(key, value)] + items[i..];
    AscendingJoin(a, node, b);
    InsertPair(items[..i], items[i..], key, value);
    SizeOfPair(items[..i], (key, value), items[i..]);
    var more := vals[node := value];
    HoldsSame(vals, more, a, items[..i]);
    HoldsSame(vals, more, b, items[i..]);
    assert Holds(more, [node], [(key, value)]) by { HoldsOne(more, node); }
    HoldsAppend(more, a, [node], items[..i], [(key, value)]);
    HoldsAppend(more, a + [node], b, items[..i] + [(key, value)], items[i..]);
  }

  lemma HoldsOne(vals: Values, node: StrNode)
    requires node in vals
    ensures Holds(vals, [node], [(node.key, vals[node])])
  {
  }

  /** Changing the value of one node changes the value of its key. */
  lemma UpdateListed(
    vals: Values, tree: Tree<StrNode>, items: seq<Pair>, u: Tree<StrNode>, y: Zip<StrNode>, value: CString)
    returns (now: seq<Pair>)
    requires Listed(vals, InOrder(tree), items) && u.Br? && tree == Plug(u, y)
    ensures u.n in vals && Listed(vals[u.n := value], InOrder(tree), now)
    ensures MapOf(now) == MapOf(items)[u.n.key := value] && u.n.key in MapOf(items)
    ensures SizeOf(now) == SizeOf(items) - (|vals[u.n]| + 1) + (|value| + 1)
  {
    hide MapOf, LexCmp, SizeOf, PairAt, InOrder, Before, After, Plug, Ascending, Holds;
    var k := |Before(y)| + |InOrder(u.l)|;
    NodePair(vals, tree, items, u, y);
    UpdatePairAt(items, k, (u.n.key, vals[u.n]), value);
    UpdateHolds(vals, InOrder(tree), items, k, value);
    now := items[k := (u.n.key, value)];
  }

  lemma UpdateHolds(vals: Values, ns: seq<StrNode>, items: seq<Pair>, k: nat, value: CString)
    requires Ascending(ns) && Holds(vals, ns, items) && k < |items|
    ensures Holds(vals[ns[k] := value], ns, items[k := (ns[k].key, value)])
  {
    hide LexCmp;
    OnceInOrder(ns, k);
  }

  lemma OnceInOrder(ns: seq<StrNode>, k: nat)
    requires Ascending(ns) && k < |ns|
    ensures forall i :: 0 <= i < |ns| && i != k ==> ns[i] != ns[k]
  {
    LexIsTotal();
  }

  lemma RemoveListed(vals: Values, tree: Tree<StrNode>, items: seq<Pair>, u: Tree<StrNode>, y: Zip<StrNode>)
    returns (now: seq<Pair>)
    requires Listed(vals, InOrder(tree), items) && u.Br? && tree == Plug(u, y)
    ensures u.n in vals && Listed(vals - {u.n}, Before(y) + InOrder(u.l) + InOrder(u.r) + After(y), now)
    ensures MapOf(now) == MapOf(items) - {u.n.key}
    ensures SizeOf(now) == SizeOf(items) - (|u.n.key| + 1) - (|vals[u.n]| + 1)
  {
    hide MapOf, LexCmp, SizeOf, PairAt, InOrder, Before, After, Plug, Ascending, Holds, WithoutPair;
    var k := |Before(y)| + |InOrder(u.l)|;
    NodePair(vals, tree, items, u, y);
    RemovePairAt(items, k, (u.n.key, vals[u.n]));
    AroundNode(u, y);
    RemoveOrder(vals, Before(y) + InOrder(u.l), u.n, InOrder(u.r) + After(y), items);
    now := WithoutPair(items, k);
  }

  lemma AroundNode(u: Tree<StrNode>, y: Zip<StrNode>)
    requires u.Br?
    ensures InOrder(Plug(u, y)) == (Before(y) + InOrder(u.l)) + [u.n] + (InOrder(u.r) + After(y))
    ensures Before(y) + InOrder(u.l) + InOrder(u.r) + After(y) == (Before(y) + InOrder(u.l)) + (InOrder(u.r) + After(y))
  {
    PlugInOrder(u, y);
    Regroup(Before(y), InOrder(u.l), u.n, InOrder(u.r), After(y));
    assert InOrder(u) == InOrder(u.l) + [u.n] + InOrder(u.r);
    hide *;
  }

  lemma RemoveOrder(vals: Values, c: seq<StrNode>, n: StrNode, d: seq<StrNode>, items: seq<Pair>)
    requires Ascending(c + [n] + d) && Holds(vals, c + [n] + d, items)
    ensures Ascending(c + d) && Holds(vals - {n}, c + d, WithoutPair(items, |c|))
  {
    hide LexCmp;
    var s, t, k := c + [n] + d, c + d, |c|;
    OnceInOrder(s, k);
    assert s[k] == n;
    assert forall i :: 0 <= i < |t| ==> t[i] == s[if i < k then i else i + 1];
  }

  class StrMap {
    var root: StrNode?
    var len: int
    ghost var tree: Tree<StrNode>
    ghost var own: set<StrNode>
    ghost var items: seq<Pair>

    ghost predicate Valid()
      reads this, own
    {
      && root == Root(tree) && Good(ShapeOf(own), ValuesOf(own), own, tree, items) && len == SizeOf(items)
    }

    ghost function Contents(): map<CString, CString>
      reads this
    {
      MapOf(items)
    }

    constructor ()
      ensures Valid() && fresh(own) && Contents() == map[]
    {
      root, len := null, 0;
      tree, own, items := Leaf, {}, [];
    }

    method Get(key: CString) returns (value: CString, ok: bool)
      requires Valid()
      ensures ok == (key in Contents())
      ensures ok ==> value == Contents()[key]
    {
      assert Between(Top, key);
      hide Good, Located, Holds, Ascending, Between, LexCmp;
      var found, _, _, u, y := Search(root, key, own, tree, Top);
      Lookup(ValuesOf(own), tree, items, u, y, key);
      if found != null {
        return found.value, true;
      }
      return [], false;
    }

    /** Add a node with a key that is not there yet, in its place `y`. */
    method Add(node: StrNode, parent: StrNode?, leftChild: bool, ghost y: Zip<StrNode>)
      requires Valid() && Located(ShapeOf(own), own, Leaf, y) && Plug(Leaf, y) == tree && Between(y, node.key)
      requires parent == Above(y) && (!y.Top? ==> leftChild == y.InLeft?)
      requires node !in own && node.parent == null && node.left == null && node.right == null && node.height == 1
      modifies this, (own + {node})`height, (own + {node})`parent, (own + {node})`left, (own + {node})`right
      ensures Valid() && own == old(own) + {node}
      ensures node.key !in old(Contents()) && Contents() == old(Contents())[node.key := node.value]
    {
      hide Located, Listed, Between, LexCmp, Plug, InOrder, Before, After, MapOf, SizeOf, Balanced, ShapeOf;
      ghost var vals := ValuesOf(own);
      ghost var now := InsertListed(vals, tree, items, y, node, node.value);
      len := len + ((|node.key| + 1) + (|node.value| + 1));
      var next;
      ghost var nextTree;
      next, nextTree := InsertNode(node, parent, leftChild, own, y);
      root := next;
      items, tree, own := now, nextTree, own + {node};
      assert ValuesOf(own) == vals[node := node.value];
    }

    /** Change the value of a node. */
    method Overwrite(node: StrNode, value: CString, ghost u: Tree<StrNode>, ghost y: Zip<StrNode>)
      requires Valid() && node in own && u.Br? && u.n == node && Plug(u, y) == tree
      modifies this`len, this`items, node`value
      ensures Valid() && node.key in old(Contents()) && Contents() == old(Contents())[node.key := value]
    {
      hide Located, Listed, LexCmp, Plug, InOrder, Before, After, MapOf, SizeOf, Balanced;
      ghost var g, vals := ShapeOf(own), ValuesOf(own);
      ghost var now := UpdateListed(vals, tree, items, u, y, value);
      len := len - (|node.value| + 1);
      node.value := value;
      len := len + (|node.value| + 1);
      items := now;
      assert ShapeOf(own) == g;
      assert ValuesOf(own) == vals[node := value];
    }

    /** Insert a key or change its value. */
    method Set(key: CString, value: CString)
      requires Valid()
      modifies this, own
      ensures Valid() && fresh(own - old(own))
      ensures Contents() == old(Contents())[key := value]
      ensures key in old(Contents()) ==> tree == old(tree) && own == old(own)
    {
      StartSearch(ValuesOf(own), tree, items, key);
      hide *;
      var found, parent, leftChild, u, y := Search(root, key, own, tree, Top);
      if found == null {
        var node := new StrNode(key, value);
        Add(node, parent, leftChild, y);
      } else {
        LocatedNode(ShapeOf(own), own, u, y);
        Overwrite(found, value, u, y);
      }
    }

    /** Remove a node. */
    method Remove(node: StrNode, parent: StrNode?, leftChild: bool, ghost u: Tree<StrNode>, ghost y: Zip<StrNode>)
      requires Valid() && Located(ShapeOf(own), own, u, y) && u.Br? && u.n == node && node in own && Plug(u, y) == tree
      requires parent == Above(y) && (!y.Top? ==> leftChild == y.InLeft?)
      modifies this, own`height, own`parent, own`left, own`right
      ensures Valid() && own == old(own) - {node}
      ensures Contents() == old(Contents()) - {node.key}
    {
      hide Located, Listed, Between, LexCmp, Plug, InOrder, Before, After, MapOf, SizeOf, Balanced, ShapeOf;
      ghost var vals, rest := ValuesOf(own), own - {node};
      ghost var now := RemoveListed(vals, tree, items, u, y);
      len := len - ((|node.key| + 1) + (|node.value| + 1));
      var next;
      ghost var nextTree;
      next, nextTree := RemoveNode(node, parent, leftChild, own, u, y);
      root := next;
      assert ValuesOf(rest) == vals - {node};
      items, tree, own := now, nextTree, rest;
      node.height := 1;
      node.parent, node.left, node.right := null, null, null;
    }

    /** Remove a key if it is there. */
    method Unset(key: CString)
      requires Valid()
      modifies this, own
      ensures Valid() && own <= old(own)
      ensures Contents() == old(Contents()) - {key}
    {
      StartSearch(ValuesOf(own), tree, items, key);
      hide *;
      var node, parent, leftChild, u, y := Search(root, key, own, tree, Top);
      if node != null {
        LocatedNode(ShapeOf(own), own, u, y);
        Remove(node, parent, leftChild, u, y);
      } else {
        Lookup(ValuesOf(own), tree, items, u, y, key);
      }
    }
  }

  lemma StartSearch(vals: Values, tree: Tree<StrNode>, items: seq<Pair>, key: CString)
    requires Listed(vals, InOrder(tree), items)
    ensures Ascending(InOrder(tree)) && Between(Top, key) && Plug(tree, Top) == tree
  {
  }
}
