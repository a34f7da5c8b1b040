/** Searching the tree of a string map for a key, and walking it in order. */
module StrSearch {
  import opened Lex
  import opened AvlTree
  import opened StrNodes
  import opened StrItems

  ghost predicate Ascending(ns: seq<StrNode>) {
    forall i, j :: 0 <= i < j < |ns| ==> LexCmp(ns[i].key, ns[j].key) < 0
  }

  ghost predicate Below(ns: seq<StrNode>, key: CString) {
    forall i :: 0 <= i < |ns| ==> LexCmp(ns[i].key, key) < 0
  }

  ghost predicate Beyond(ns: seq<StrNode>, key: CString) {
    forall i :: 0 <= i < |ns| ==> LexCmp(key, ns[i].key) < 0
  }

  lemma AscendingParts(a: seq<StrNode>, n: StrNode, b: seq<StrNode>)
    requires Ascending(a + [n] + b)
    ensures Ascending(a) && Ascending(b) && Below(a, n.key) && Beyond(b, n.key)
  {
    hide LexCmp;
    var s := a + [n] + b;
    assert forall i :: 0 <= i < |a| ==> s[i] == a[i];
    assert s[|a|] == n;
    assert forall i {:trigger b[i]} :: 0 <= i < |b| ==> s[|a| + 1 + i] == b[i];
  }

  lemma BelowAll(a: seq<StrNode>, key: CString, bound: CString)
    requires Below(a, key) && LexCmp(key, bound) < 0
    ensures Below(a, bound)
  {
    hide LexCmp;
    forall i | 0 <= i < |a| ensures LexCmp(a[i].key, bound) < 0 { LexStrict(a[i].key, key, bound); }
  }

  lemma BeyondAll(b: seq<StrNode>, key: CString, bound: CString)
    requires Beyond(b, key) && LexCmp(bound, key) < 0
    ensures Beyond(b, bound)
  {
    hide LexCmp;
    forall i | 0 <= i < |b| ensures LexCmp(bound, b[i].key) < 0 { LexStrict(bound, key, b[i].key); }
  }

  lemma JoinBelow(a: seq<StrNode>, b: seq<StrNode>, key: CString)
    ensures Below(a, key) && Below(b, key) ==> Below(a + b, key)
    ensures Beyond(a, key) && Beyond(b, key) ==> Beyond(a + b, key)
  {
  }

  /** The key lies between the nodes before the hole of `z` and the nodes after it. */
  ghost predicate Between(z: Zip<StrNode>, key: CString) {
    Below(Before(z), key) && Beyond(After(z), key)
  }

  lemma SearchLeft(key: CString, t: Tree<StrNode>, z: Zip<StrNode>)
    requires t.Br? && LexCmp(key, t.n.key) < 0 && Ascending(InOrder(t)) && Between(z, key)
    ensures Ascending(InOrder(t.l)) && Between(InLeft(t.n, z, t.r), key)
  {
    hide LexCmp, Ascending;
    assert Below([], key) && Beyond([t.n], key);
    AscendingParts(InOrder(t.l), t.n, InOrder(t.r));
    BeyondAll(InOrder(t.r), t.n.key, key);
    JoinBelow([t.n], InOrder(t.r), key);
    JoinBelow([t.n] + InOrder(t.r), After(z), key);
  }

  lemma SearchRight(key: CString, t: Tree<StrNode>, z: Zip<StrNode>)
    requires t.Br? && LexCmp(t.n.key, key) < 0 && Ascending(InOrder(t)) && Between(z, key)
    ensures Ascending(InOrder(t.r)) && Between(InRight(t.n, t.l, z), key)
  {
    hide LexCmp, Ascending;
    assert Below([t.n], key);
    AscendingParts(InOrder(t.l), t.n, InOrder(t.r));
    BelowAll(InOrder(t.l), t.n.key, key);
    JoinBelow(Before(z), InOrder(t.l), key);
    JoinBelow(Before(z) + InOrder(t.l), [t.n], key);
  }

  /** The tree `u` stands at the hole of `y`. */
  ghost predicate Located(g: Shape, own: set<StrNode>, u: Tree<StrNode>, y: Zip<StrNode>) {
    Sub(g, u, Above(y)) && Around(g, y, Root(u)) && ProperAt(u, y) && Nodes(u) + PathNodes(y) == own
  }

  lemma DownLeft(g: Shape, own: set<StrNode>, t: Tree<StrNode>, z: Zip<StrNode>)
    requires t.Br? && Located(g, own, t, z)
    ensures Located(g, own, t.l, InLeft(t.n, z, t.r))
  {
    SubIsLinked(g, t, Above(z));
    IntoLeft(g, t, z);
  }

  lemma DownRight(g: Shape, own: set<StrNode>, t: Tree<StrNode>, z: Zip<StrNode>)
    requires t.Br? && Located(g, own, t, z)
    ensures Located(g, own, t.r, InRight(t.n, t.l, z))
  {
    SubIsLinked(g, t, Above(z));
    IntoRight(g, t, z);
  }

  lemma LocatedNode(g: Shape, own: set<StrNode>, t: Tree<StrNode>, z: Zip<StrNode>)
    requires Located(g, own, t, z)
    ensures t.Br? ==> t.n in g && t.n in own && At(g, t.n, Above(z), Root(t.l), Root(t.r))
    ensures !z.Top? ==> z.n in g && z.n in own && Above(z) == z.n
  {
  }

  /** Find the node with the given key, or the place where it belongs. */
  method Search(node: StrNode?, key: CString, ghost own: set<StrNode>, ghost t: Tree<StrNode>, ghost z: Zip<StrNode>)
    returns (found: StrNode?, parent: StrNode?, leftChild: bool, ghost u: Tree<StrNode>, ghost y: Zip<StrNode>)
    requires node == Root(t) && Located(ShapeOf(own), own, t, z)
    requires Ascending(InOrder(t)) && Between(z, key)
    requires z.Top? || (t.Br? && t.n.key != key)
    ensures found == Root(u) && parent == Above(y) && (!y.Top? ==> leftChild == y.InLeft?)
    ensures Located(ShapeOf(own), own, u, y) && Plug(u, y) == Plug(t, z) && Between(y, key)
    ensures found != null ==> found.key == key
    decreases t
  {
    leftChild := true;
    u, y := t, z;
    if node != null {
      LocatedNode(ShapeOf(own), own, t, z);
      DownLeft(ShapeOf(own), own, t, z);
      DownRight(ShapeOf(own), own, t, z);
      LocatedNode(ShapeOf(own), own, t.l, InLeft(t.n, z, t.r));
      LocatedNode(ShapeOf(own), own, t.r, InRight(t.n, t.l, z));
      assert node.left == Root(t.l) && node.right == Root(t.r);
      hide ShapeOf, Located, Between, Ascending, LexCmp;
      var cmp := LexCmp(key, node.key);
      LexAntisymmetric(key, node.key);
      if cmp == 0 {
        return node, null, true, t, z;
      } else if cmp < 0 {
        SearchLeft(key, t, z);
        u, y := t.l, InLeft(t.n, z, t.r);
        if node.left == null {
          return null, node, true, u, y;
        }
        var cmpChild := LexCmp(key, node.left.key);
        LexAntisymmetric(key, node.left.key);
        if cmpChild == 0 {
          return node.left, node, true, u, y;
        }
        found, parent, leftChild, u, y := Search(node.left, key, own, u, y);
        return;
      } else {
        SearchRight(key, t, z);
        u, y := t.r, InRight(t.n, t.l, z);
        if node.right == null {
          return null, node, false, u, y;
        }
        var cmpChild := LexCmp(key, node.right.key);
        LexAntisymmetric(key, node.right.key);
        if cmpChild == 0 {
          return node.right, node, false, u, y;
        }
        found, parent, leftChild, u, y := Search(node.right, key, own, u, y);
        return;
      }
    }
    return null, null, true, t, z;
  }

  // ----- walking -----

  /** The leftmost node of a subtree. */
  method Leftmost(node: StrNode?, ghost own: set<StrNode>, ghost t: Tree<StrNode>, ghost z: Zip<StrNode>)
    returns (target: StrNode?)
    requires node == Root(t) && Located(ShapeOf(own), own, t, z)
    ensures target == if InOrder(t) == [] then null else InOrder(t)[0]
  {
    if node == null { return null; }
    target := node;
    ghost var u, y := t, z;
    LocatedNode(ShapeOf(own), own, u, y);
    while target.left != null
      invariant u.Br? && target == u.n && Located(ShapeOf(own), own, u, y)
      invariant target in own && target.left == Root(u.l)
      invariant InOrder(u)[0] == InOrder(t)[0]
      decreases u
    {
      DownLeft(ShapeOf(own), own, u, y);
      u, y := u.l, InLeft(u.n, y, u.r);
      LocatedNode(ShapeOf(own), own, u, y);
      target := target.left;
    }
  }

  /** The rightmost node of a subtree, with the path of right turns that leads to it. */
  method Rightmost(node: StrNode, ghost own: set<StrNode>, ghost t: Tree<StrNode>, ghost z: Zip<StrNode>)
    returns (target: StrNode, ghost u: Tree<StrNode>, ghost w: Zip<StrNode>)
    requires node == Root(t) && Located(ShapeOf(own), own, t, z)
    ensures u.Br? && u.n == target && u.r.Leaf? && Located(ShapeOf(own), own, u, Under(w, z))
    ensures Plug(u, w) == t && After(w) == [] && !w.InLeft?
  {
    target := node;
    u, w := t, Top;
    LocatedNode(ShapeOf(own), own, u, z);
    while target.right != null
      invariant u.Br? && target == u.n && Located(ShapeOf(own), own, u, Under(w, z))
      invariant target in own && target.right == Root(u.r)
      invariant Plug(u, w) == t && After(w) == [] && !w.InLeft?
      decreases u
    {
      DownRight(ShapeOf(own), own, u, Under(w, z));
      u, w := u.r, InRight(u.n, u.l, w);
      LocatedNode(ShapeOf(own), own, u, Under(w, z));
      target := target.right;
    }
  }

  /** Every position of the in-order list is a place in the tree. */
  lemma {:induction false} FindAt(g: Shape, own: set<StrNode>, t: Tree<StrNode>, z: Zip<StrNode>, i: nat)
    returns (u: Tree<StrNode>, y: Zip<StrNode>)
    requires Located(g, own, t, z) && i < |InOrder(t)|
    ensures Located(g, own, u, y) && u.Br? && u.n == InOrder(t)[i] && Plug(u, y) == Plug(t, z)
    ensures |Before(y)| + |InOrder(u.l)| == |Before(z)| + i
    decreases t
  {
    hide Located;
    var k := |InOrder(t.l)|;
    if i == k {
      u, y := t, z;
    } else if i < k {
      DownLeft(g, own, t, z);
      u, y := FindAt(g, own, t.l, InLeft(t.n, z, t.r), i);
    } else {
      DownRight(g, own, t, z);
      u, y := FindAt(g, own, t.r, InRight(t.n, t.l, z), i - k - 1);
    }
  }

  lemma Successor(u: Tree<StrNode>, y: Zip<StrNode>)
    requires u.Br?
    ensures var (ns, rest) := (InOrder(Plug(u, y)), InOrder(u.r) + After(y));
            var i := |Before(y)| + |InOrder(u.l)|;
            (i + 1 < |ns| <==> rest != []) && (rest != [] ==> ns[i + 1] == rest[0])
  {
    PlugInOrder(u, y);
    Regroup(Before(y), InOrder(u.l), u.n, InOrder(u.r), After(y));
    assert InOrder(u) == InOrder(u.l) + [u.n] + InOrder(u.r);
    hide *;
    assert InOrder(Plug(u, y)) == (Before(y) + InOrder(u.l) + [u.n]) + (InOrder(u.r) + After(y));
  }

  lemma Regroup<T>(a: seq<T>, b: seq<T>, n: T, c: seq<T>, d: seq<T>)
    ensures a + (b + [n] + c) + d == (a + b + [n]) + (c + d)
  {
  }

  /** The next node in order: the first of the right subtree, or else the nearest node above
      whose left subtree this is. */
  method Next(node: StrNode, ghost own: set<StrNode>, ghost tree: Tree<StrNode>, ghost i: nat) returns (next: StrNode?)
    requires Located(ShapeOf(own), own, tree, Top) && i < |InOrder(tree)| && InOrder(tree)[i] == node
    ensures next == if i + 1 < |InOrder(tree)| then InOrder(tree)[i + 1] else null
  {
    ghost var g := ShapeOf(own);
    ghost var u, y := FindAt(g, own, tree, Top, i);
    LocatedNode(g, own, u, y);
    DownRight(g, own, u, y);
    Successor(u, y);
    assert node.right == Root(u.r);
    hide Located, InOrder, Plug, Before, After, ShapeOf;
    var target := Leftmost(node.right, own, u.r, InRight(u.n, u.l, y));
    if target != null {
      return target;
    }
    next := FirstAfter(node, own, u, y);
  }

  lemma Up(g: Shape, own: set<StrNode>, u: Tree<StrNode>, y: Zip<StrNode>)
    requires !y.Top? && u.Br? && Around(g, y, u.n) && ProperAt(u, y) && Nodes(u) + PathNodes(y) == own
    ensures Around(g, y.up, y.n) && ProperAt(Fill(u, y), y.up) && Nodes(Fill(u, y)) + PathNodes(y.up) == own
    ensures y.n in own && y.n in g && g[y.n].parent == Above(y.up) && (g[y.n].left == u.n <==> y.InLeft?)
  {
  }

  /** The nearest node above `node` that comes after it. */
  method FirstAfter(node: StrNode, ghost own: set<StrNode>, ghost u: Tree<StrNode>, ghost y: Zip<StrNode>)
    returns (next: StrNode?)
    requires Located(ShapeOf(own), own, u, y) && u.Br? && u.n == node
    ensures next == if After(y) == [] then null else After(y)[0]
  {
    LocatedNode(ShapeOf(own), own, u, y);
    var current := node;
    var parent := current.parent;
    ghost var v, z := u, y;
    while parent != null
      invariant v.Br? && current == v.n && parent == Above(z)
      invariant Around(ShapeOf(own), z, v.n) && ProperAt(v, z) && Nodes(v) + PathNodes(z) == own
      invariant After(z) == After(y)
      decreases z
    {
      Up(ShapeOf(own), own, v, z);
      if parent.left == current {
        return parent;
      }
      current := parent;
      parent := current.parent;
      v, z := Fill(v, z), z.up;
    }
    return null;
  }
}
