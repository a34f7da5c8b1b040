/** Adding a node to the tree of a string map and taking one out, before the tree is rebalanced. */
module StrSurgery {
  import opened Lex
  import opened AvlTree
  import opened StrNodes
  import opened StrSearch

  lemma {:induction false} RebalanceProper(t: Tree<StrNode>, z: Zip<StrNode>)
    requires t.Br? && ProperAt(t, z)
    ensures Proper(Rebalance(t, z)) && Nodes(Rebalance(t, z)) == Nodes(t) + PathNodes(z)
    decreases z
  {
    hide Fix;
    FixProper(t);
    match z
    case Top =>
    case InLeft(n, up, r) => RebalanceProper(Br(n, Fix(t), r), up);
    case InRight(n, l, up) => RebalanceProper(Br(n, l, Fix(t)), up);
  }

  /** A new node in the hole. */
  lemma Attach(g: Shape, h: Shape, own: set<StrNode>, y: Zip<StrNode>, node: StrNode)
    requires !y.Top? && Located(g, own, Leaf, y) && node !in own
    requires Same(g, h, own - {y.n}) && Swung(g, h, y, node) && At(h, node, y.n, null, null) && h[node].height == 1
    ensures Located(h, own + {node}, Br(node, Leaf, Leaf), y)
  {
    var u: Tree<StrNode> := Br(node, Leaf, Leaf);
    assert Height(u) == 1 && u.l == u.r == Leaf;
    Refilled(g, h, y, null, node);
  }

  /** Take out a node that has at most one child. */
  method ExtractSingle(node: StrNode, ghost own: set<StrNode>, ghost u: Tree<StrNode>, ghost y: Zip<StrNode>)
    returns (child: StrNode?)
    requires u.Br? && u.n == node && (u.l.Leaf? || u.r.Leaf?) && Located(ShapeOf(own), own, u, y)
    modifies own`parent, own`left, own`right
    ensures var c := if u.l.Br? then u.l else u.r;
            child == Root(c) && Located(ShapeOf(own - {node}), own - {node}, c, y)
    ensures node.left == old(node.left) && node.right == old(node.right) && node.parent == old(node.parent)
    ensures !y.Top? ==> y.n in own && y.n.parent == old(y.n.parent)
  {
    ghost var g := ShapeOf(own);
    ghost var c := if u.l.Br? then u.l else u.r;
    SingleCorners(g, own, u, y);
    hide Sub, Around, Nodes, PathNodes, Proper, ProperPath, Located;
    child := null;
    if node.left != null {
      child := node.left;
    } else if node.right != null {
      child := node.right;
    }
    var parent := node.parent;
    if child != null {
      child.parent := parent;
    }
    if parent != null {
      if parent.left == node {
        parent.left := child;
      } else {
        parent.right := child;
      }
    }
    Detach(g, ShapeOf(own - {node}), own, u, y);
  }

  lemma SingleCorners(g: Shape, own: set<StrNode>, u: Tree<StrNode>, y: Zip<StrNode>)
    requires u.Br? && (u.l.Leaf? || u.r.Leaf?) && Located(g, own, u, y)
    ensures u.n in own && At(g, u.n, Above(y), Root(u.l), Root(u.r))
    ensures u.l.Br? ==> u.l.n in own && u.l.n != u.n
    ensures u.r.Br? ==> u.r.n in own && u.r.n != u.n
    ensures !y.Top? ==>
        y.n in own && y.n in g && y.n !in {u.n, Root(u.l), Root(u.r)} && (y.InLeft? <==> g[y.n].left == u.n)
  {
    SubHeight(g, u.l, u.n);
    SubHeight(g, u.r, u.n);
    AboveHole(g, u, y);
  }

  lemma Detach(g: Shape, h: Shape, own: set<StrNode>, u: Tree<StrNode>, y: Zip<StrNode>)
    requires u.Br? && (u.l.Leaf? || u.r.Leaf?) && Located(g, own, u, y)
    requires var c := if u.l.Br? then u.l else u.r;
             && Same(g, h, own - {u.n, Root(c), Above(y)}) && Swung(g, h, y, Root(c))
             && (c.Br? ==> c.n in g && c.n in h && h[c.n] == g[c.n].(parent := Above(y)))
    ensures Located(h, own - {u.n}, if u.l.Br? then u.l else u.r, y)
  {
    var c := if u.l.Br? then u.l else u.r;
    SubHeight(g, c, u.n);
    Moved(g, h, c, u.n, Above(y));
    AboveHole(g, u, y);
    Refilled(g, h, y, u.n, Root(c));
  }

  // ----- replacing a node that has two children -----

  /** The outermost node of a path. */
  ghost function Outer(w: Zip<StrNode>): StrNode?
    ensures Outer(w) != null ==> Outer(w) in PathNodes(w)
  {
    if w.Top? then null else if w.up.Top? then w.n else Outer(w.up)
  }

  /** The nodes of a path whose outermost node hangs below `p`. */
  ghost predicate Path(g: Shape, w: Zip<StrNode>, c: StrNode?, p: StrNode?) {
    match w
    case Top => true
    case InLeft(n, up, r) => At(g, n, if up.Top? then p else up.n, c, Root(r)) && Sub(g, r, n) && Path(g, up, n, p)
    case InRight(n, l, up) => At(g, n, if up.Top? then p else up.n, Root(l), c) && Sub(g, l, n) && Path(g, up, n, p)
  }

  lemma {:induction false} AroundUnder(g: Shape, w: Zip<StrNode>, z: Zip<StrNode>, c: StrNode?)
    ensures Around(g, Under(w, z), c) <==> Path(g, w, c, Above(z)) && Around(g, z, if w.Top? then c else Outer(w))
    decreases w
  {
    if !w.Top? { AroundUnder(g, w.up, z, w.n); }
  }

  lemma {:induction false} ProperUnder(w: Zip<StrNode>, z: Zip<StrNode>)
    ensures PathNodes(Under(w, z)) == PathNodes(w) + PathNodes(z)
    ensures ProperPath(Under(w, z)) <==> ProperPath(w) && ProperPath(z) && PathNodes(w) !! PathNodes(z)
    decreases w
  {
    if !w.Top? { ProperUnder(w.up, z); }
  }

  lemma {:induction false} PathMoved(g: Shape, h: Shape, w: Zip<StrNode>, c: StrNode?, p: StrNode?, q: StrNode?)
    requires ProperPath(w) && Path(g, w, c, p) && Same(g, h, PathNodes(w) - {Outer(w)})
    requires !w.Top? ==> Outer(w) in g && Outer(w) in h && h[Outer(w)] == g[Outer(w)].(parent := q)
    ensures Path(h, w, c, q)
    decreases w
  {
    if !w.Top? {
      Kept(g, h, if w.InLeft? then w.r else w.l, w.n);
      PathMoved(g, h, w.up, w.n, p, q);
    }
  }

  /** The tree `a` at the end of the path `w` in the left subtree of `n`, whose right subtree is `r`. */
  ghost predicate DeepLeft(
    g: Shape, own: set<StrNode>, a: Tree<StrNode>, w: Zip<StrNode>, n: StrNode, y: Zip<StrNode>, r: Tree<StrNode>) {
    && Sub(g, a, Above(w)) && Path(g, w, Root(a), n) && Sub(g, r, n) && Around(g, y, n)
      && At(g, n, Above(y), Outer(w), Root(r))
    && ProperDeep(own, a, w, n, y, r)
  }

  ghost predicate ProperDeep(
    own: set<StrNode>, a: Tree<StrNode>, w: Zip<StrNode>, n: StrNode, y: Zip<StrNode>, r: Tree<StrNode>) {
    && Proper(a) && ProperPath(w) && Proper(r) && ProperPath(y)
    && n !in Nodes(a) + PathNodes(w) + Nodes(r) + PathNodes(y)
    && Nodes(a) !! PathNodes(w) && Nodes(a) !! Nodes(r) && Nodes(a) !! PathNodes(y)
    && PathNodes(w) !! Nodes(r) && PathNodes(w) !! PathNodes(y) && Nodes(r) !! PathNodes(y)
    && own == {n} + Nodes(a) + PathNodes(w) + Nodes(r) + PathNodes(y)
  }

  lemma ProperDeepUnder(
    own: set<StrNode>, a: Tree<StrNode>, w: Zip<StrNode>, n: StrNode, y: Zip<StrNode>, r: Tree<StrNode>)
    ensures var z := Under(w, InLeft(n, y, r));
            ProperAt(a, z) && Nodes(a) + PathNodes(z) == own <==> ProperDeep(own, a, w, n, y, r)
  {
    hide Nodes, Proper, PathNodes, ProperPath, Under;
    var z := InLeft(n, y, r);
    ProperUnder(w, z);
    ProperInLeft(n, y, r);
    var A, W, R, Y := Nodes(a), PathNodes(w), Nodes(r), PathNodes(y);
    assert A !! W + ({n} + Y + R) <==> A !! W && n !in A && A !! Y && A !! R;
    assert W !! {n} + Y + R <==> n !in W && W !! Y && W !! R;
    assert A + (W + ({n} + Y + R)) == {n} + A + W + R + Y;
  }

  lemma ProperInLeft(n: StrNode, y: Zip<StrNode>, r: Tree<StrNode>)
    ensures var z := InLeft(n, y, r);
            && PathNodes(z) == {n} + PathNodes(y) + Nodes(r)
            && (ProperPath(z) <==>
                  && n !in Nodes(r) && n !in PathNodes(y) && Nodes(r) !! PathNodes(y)
                  && Proper(r) && ProperPath(y))
  {
  }

  lemma LocatedDeepLeft(
    g: Shape, own: set<StrNode>, a: Tree<StrNode>, w: Zip<StrNode>, n: StrNode, y: Zip<StrNode>, r: Tree<StrNode>)
    requires !w.Top?
    ensures Located(g, own, a, Under(w, InLeft(n, y, r))) <==> DeepLeft(g, own, a, w, n, y, r)
  {
    hide ProperDeep, ProperAt;
    ProperDeepUnder(own, a, w, n, y, r);
    AroundUnder(g, w, InLeft(n, y, r), Root(a));
    hide Sub, Nodes, Proper, Path;
  }

  lemma ProperDeepSwap(
    own: set<StrNode>, a: Tree<StrNode>, w: Zip<StrNode>, n: StrNode, m: StrNode, y: Zip<StrNode>, r: Tree<StrNode>)
    requires ProperDeep(own, a, w, n, y, r) && m !in own
    ensures ProperDeep(own - {n} + {m}, a, w, m, y, r)
  {
    hide Nodes, Proper, PathNodes, ProperPath;
  }

  lemma SameDeep(
    g: Shape, h: Shape, own: set<StrNode>, a: Tree<StrNode>, w: Zip<StrNode>, n: StrNode, y: Zip<StrNode>,
    r: Tree<StrNode>)
    requires ProperDeep(own, a, w, n, y, r) && r.Br? && Same(g, h, own - {n, r.n, Outer(w), Above(y)})
    ensures Same(g, h, Nodes(a)) && Same(g, h, Nodes(r) - {r.n})
    ensures Same(g, h, PathNodes(y) - {Above(y)}) && Same(g, h, PathNodes(w) - {Outer(w)})
    ensures Proper(r) && ProperPath(y) && ProperPath(w)
  {
    assert r.n in Nodes(r);
    assert y.Top? || y.n in PathNodes(y);
    hide Nodes, Proper, PathNodes, ProperPath, Outer;
  }

  /** `m`, until now outside the tree, takes the place of `n`. */
  lemma Graft(
    g: Shape, h: Shape, own: set<StrNode>, a: Tree<StrNode>, w: Zip<StrNode>, n: StrNode, m: StrNode,
    y: Zip<StrNode>, r: Tree<StrNode>)
    requires !w.Top? && r.Br? && DeepLeft(g, own, a, w, n, y, r) && m !in own
    requires Same(g, h, own - {n, r.n, Outer(w), Above(y)}) && Swung(g, h, y, m) && At(h, m, Above(y), Outer(w), r.n)
    requires Outer(w) in g && Outer(w) in h && h[Outer(w)] == g[Outer(w)].(parent := m)
    requires r.n in g && r.n in h && h[r.n] == g[r.n].(parent := m)
    ensures DeepLeft(h, own - {n} + {m}, a, w, m, y, r)
  {
    hide Sub, Nodes, Proper, Path, PathNodes, ProperPath, ProperDeep, Around, Outer, Same;
    ProperDeepSwap(own, a, w, n, m, y, r);
    SameDeep(g, h, own, a, w, n, y, r);
    Kept(g, h, a, w.n);
    Moved(g, h, r, n, m);
    Refilled(g, h, y, n, m);
    PathMoved(g, h, w, Root(a), n, m);
  }

  /** The left child `u.l.n` of `u.n`, which has no right child, takes the place of its parent. */
  lemma Hoist(g: Shape, h: Shape, own: set<StrNode>, u: Tree<StrNode>, y: Zip<StrNode>)
    requires u.Br? && u.l.Br? && u.r.Br? && u.l.r.Leaf? && Located(g, own, u, y)
    requires var m := u.l.n;
             && Same(g, h, own - {u.n, m, u.r.n, Above(y)}) && Swung(g, h, y, m)
             && At(h, m, Above(y), Root(u.l.l), u.r.n)
             && u.r.n in g && u.r.n in h && h[u.r.n] == g[u.r.n].(parent := m)
    ensures var t := Br(u.l.n, u.l.l, u.r);
            Linked(h, t, Above(y)) && Around(h, y, t.n) && ProperAt(t, y) && Nodes(t) + PathNodes(y) == own - {u.n}
  {
    var m, a, r := u.l.n, u.l.l, u.r;
    assert Sub(g, u.l, u.n) && Sub(g, r, u.n);
    assert Nodes(u.l) == {m} + Nodes(a) && Proper(u.l);
    assert y.Top? || y.n in PathNodes(y);
    Kept(g, h, a, m);
    Moved(g, h, r, u.n, m);
    Refilled(g, h, y, u.n, m);
  }

  /** Give the right child and the place of `node` to `replacement`; returns the parent that it had. */
  method Promote(node: StrNode, replacement: StrNode, parent: StrNode?, leftChild: bool)
    returns (formerParent: StrNode?)
    requires node.right != null && node.right !in {node, replacement, parent} && replacement != node
             && parent !in {node, replacement}
    modifies replacement`right, replacement`parent, node.right`parent, {parent}`left, {parent}`right
    ensures formerParent == old(replacement.parent)
    ensures replacement.right == node.right && replacement.parent == parent && node.right.parent == replacement
    ensures parent != null ==>
              && parent.left == (if leftChild then replacement else old(parent.left))
              && parent.right == (if leftChild then old(parent.right) else replacement)
  {
    replacement.right := node.right;
    node.right.parent := replacement;
    formerParent := replacement.parent;
    replacement.parent := parent;
    if parent != null {
      if leftChild {
        parent.left := replacement;
      } else {
        parent.right := replacement;
      }
    }
  }

  lemma DeepCorners(
    g: Shape, own: set<StrNode>, a: Tree<StrNode>, w: Zip<StrNode>, n: StrNode, y: Zip<StrNode>, r: Tree<StrNode>)
    requires DeepLeft(g, own, a, w, n, y, r) && !w.Top? && r.Br?
    ensures At(g, n, Above(y), Outer(w), r.n) && r.n in g && Outer(w) in g && r.n in own && Outer(w) in own && n in own
    ensures Outer(w) !in {n, r.n, Above(y)} && r.n !in {n, Above(y)} && Above(y) != n
    ensures !y.Top? ==> y.n in own && y.n in g
  {
    SubHeight(g, r, n);
    assert r.n in Nodes(r);
    assert y.Top? || y.n in PathNodes(y);
    hide Nodes, Proper, PathNodes, ProperPath, Sub;
    OuterLinked(g, w, Root(a), n);
  }

  lemma {:induction false} OuterLinked(g: Shape, w: Zip<StrNode>, c: StrNode?, p: StrNode?)
    requires Path(g, w, c, p) && !w.Top?
    ensures Outer(w) != null && Outer(w) in g
    decreases w
  {
    if !w.up.Top? { OuterLinked(g, w.up, w.n, p); }
  }

  /** Put `replacement`, a node outside the tree, in the place of `node`. */
  method PromoteFree(node: StrNode, replacement: StrNode, parent: StrNode?, leftChild: bool,
      ghost own: set<StrNode>, ghost a: Tree<StrNode>, ghost w: Zip<StrNode>, ghost y: Zip<StrNode>,
        ghost r: Tree<StrNode>)
    returns (formerParent: StrNode?)
    requires r.Br? && !w.Top? && replacement in own
    requires DeepLeft(ShapeOf(own - {replacement}), own - {replacement}, a, w, node, y, r)
    requires parent == Above(y) && (!y.Top? ==> leftChild == y.InLeft?)
    modifies own`parent, own`left, own`right
    ensures formerParent == old(replacement.parent)
    ensures DeepLeft(ShapeOf(own - {node}), own - {node}, a, w, replacement, y, r)
  {
    hide DeepLeft, Under, Outer;
    ghost var rest := own - {replacement};
    ghost var g := ShapeOf(rest);
    DeepCorners(g, rest, a, w, node, y, r);
    replacement.left := node.left;
    node.left.parent := replacement;
    formerParent := Promote(node, replacement, parent, leftChild);
    assert rest - {node} + {replacement} == own - {node};
    Graft(g, ShapeOf(own - {node}), rest, a, w, node, replacement, y, r);
  }

  /** The case that the rightmost node of the left subtree is not its top node: it is taken out
      of there first. */
  method PromoteDeep(node: StrNode, replacement: StrNode, parent: StrNode?, leftChild: bool,
      ghost own: set<StrNode>, ghost v: Tree<StrNode>, ghost w: Zip<StrNode>, ghost y: Zip<StrNode>,
        ghost r: Tree<StrNode>)
    returns (formerParent: StrNode?)
    requires v.Br? && v.n == replacement && v.r.Leaf? && r.Br? && !w.Top?
             && Located(ShapeOf(own), own, v, Under(w, InLeft(node, y, r)))
    requires parent == Above(y) && (!y.Top? ==> leftChild == y.InLeft?)
    modifies own`parent, own`left, own`right
    ensures formerParent == w.n != node
            && Located(ShapeOf(own - {node}), own - {node}, v.l, Under(w, InLeft(replacement, y, r)))
  {
    ghost var z := Under(w, InLeft(node, y, r));
    assert Above(z) == w.n;
    assert w.n != node by { ProperUnder(w, InLeft(node, y, r)); }
    LocatedNode(ShapeOf(own), own, v, z);
    assert replacement.parent == w.n;
    hide *;
    var _ := ExtractSingle(replacement, own, v, z);
    assert v.l.Leaf? ==> v.l == v.r;
    LocatedDeepLeft(ShapeOf(own - {replacement}), own - {replacement}, v.l, w, node, y, r);
    formerParent := PromoteFree(node, replacement, parent, leftChild, own, v.l, w, y, r);
    LocatedDeepLeft(ShapeOf(own - {node}), own - {node}, v.l, w, replacement, y, r);
  }

  /** The case that it is the left child itself. */
  method PromoteChild(node: StrNode, replacement: StrNode, parent: StrNode?, leftChild: bool,
      ghost own: set<StrNode>, ghost u: Tree<StrNode>, ghost y: Zip<StrNode>)
    returns (formerParent: StrNode?)
    requires u.Br? && u.n == node && u.l.Br? && u.r.Br? && u.l.r.Leaf? && u.l.n == replacement
             && Located(ShapeOf(own), own, u, y)
    requires parent == Above(y) && (!y.Top? ==> leftChild == y.InLeft?)
    modifies own`parent, own`left, own`right
    ensures formerParent == node
    ensures var t, h := Br(replacement, u.l.l, u.r), ShapeOf(own - {node});
            Linked(h, t, Above(y)) && Around(h, y, t.n) && ProperAt(t, y) && Nodes(t) + PathNodes(y) == own - {node}
  {
    ghost var g := ShapeOf(own);
    ChildCorners(g, own, u, y);
    hide Sub, Nodes, PathNodes, Proper, ProperPath, Around, Located;
    formerParent := Promote(node, replacement, parent, leftChild);
    Hoist(g, ShapeOf(own - {node}), own, u, y);
  }

  lemma ChildCorners(g: Shape, own: set<StrNode>, u: Tree<StrNode>, y: Zip<StrNode>)
    requires u.Br? && u.l.Br? && u.r.Br? && u.l.r.Leaf? && Located(g, own, u, y)
    ensures At(g, u.n, Above(y), u.l.n, u.r.n) && At(g, u.l.n, u.n, Root(u.l.l), null)
    ensures u.n in own && u.l.n in own && u.r.n in own && u.l.n in g && u.r.n in g
    ensures u.n !in {u.l.n, u.r.n} && u.l.n != u.r.n && Above(y) !in {u.n, u.l.n, u.r.n}
    ensures !y.Top? ==> y.n in own && y.n in g
  {
    SubHeight(g, u.l, u.n);
    SubHeight(g, u.r, u.n);
    assert y.Top? || y.n in PathNodes(y);
  }

  lemma FillOrder(t: Tree<StrNode>, z: Zip<StrNode>)
    requires !z.Top?
    ensures Before(z.up) + InOrder(Fill(t, z)) + After(z.up) == Before(z) + InOrder(t) + After(z)
  {
    PlugInOrder(t, z);
    PlugInOrder(Fill(t, z), z.up);
  }

  /** The node `m = v.n` is the last one before `n`; moving it there leaves everything else in order. */
  lemma DeepOrder(v: Tree<StrNode>, w: Zip<StrNode>, n: StrNode, y: Zip<StrNode>, r: Tree<StrNode>)
    requires v.Br? && v.r.Leaf? && After(w) == [] && !w.Top?
    ensures var z := Under(w, InLeft(v.n, y, r));
            Before(z) + InOrder(v.l) + After(z) == Before(y) + InOrder(Plug(v, w)) + InOrder(r) + After(y)
  {
    var z := InLeft(v.n, y, r);
    PlugUnder(v.l, w, z);
    PlugInOrder(v, w);
    var a, b, c, d, e := Before(y), Before(w), InOrder(v.l), InOrder(r), After(y);
    assert InOrder(v) == c + [v.n] + [];
    assert Before(z) == a && After(z) == [v.n] + d + e;
    hide *;
    Reassociate(a, b, c, v.n, d, e);
  }

  lemma Reassociate<T>(a: seq<T>, b: seq<T>, c: seq<T>, m: T, d: seq<T>, e: seq<T>)
    ensures (a + b) + c + ([] + ([m] + d + e)) == a + (b + (c + [m] + []) + []) + d + e
  {
  }

  /** Removing the node `m` from below and rebalancing from there up restores the balance. */
  lemma DeepBalance(v: Tree<StrNode>, w: Zip<StrNode>, n: StrNode, y: Zip<StrNode>, r: Tree<StrNode>)
    requires v.Br? && v.r.Leaf? && !w.Top? && Balanced(Plug(Br(n, Plug(v, w), r), y))
    ensures var z := Under(w, InLeft(v.n, y, r)); !z.Top? && Balanced(Rebalance(Fill(v.l, z), z.up))
  {
    hide Rebalance;
    PlugUnder(v, w, InLeft(n, y, r));
    PlugBalanced(v, Under(w, InLeft(n, y, r)));
    BalancedAroundRename(w, n, v.n, y, r, Height(v));
    ResizeBalances(v.l, Under(w, InLeft(v.n, y, r)), Height(v));
  }

  lemma ChildBalance(u: Tree<StrNode>, y: Zip<StrNode>)
    requires u.Br? && u.l.Br? && u.l.r.Leaf? && Balanced(Plug(u, y))
    ensures Balanced(Rebalance(Br(u.l.n, u.l.l, u.r), y))
  {
    hide Rebalance, Fix;
    PlugBalanced(u, y);
    assert Balanced(u.l) && Balanced(u.r) && Balanced(u.l.l);
    assert Height(u.l) == 1 + Height(u.l.l);
    var t := Br(u.l.n, u.l.l, u.r);
    hide Balanced;
    StepUp(u.l.l, u.r, t, Height(u.l));
    RebalanceBalances(t, y, Height(u));
  }

  lemma {:induction false} RootOfPlug(v: Tree<StrNode>, w: Zip<StrNode>)
    requires v.Br?
    ensures Plug(v, w).Br? && Plug(v, w).n == if w.Top? then v.n else Outer(w)
    decreases w
  {
    if !w.Top? { RootOfPlug(Fill(v, w), w.up); }
  }

  /** The rightmost node of a subtree is its top node only if the path to it is empty. */
  lemma RightmostIsTop(g: Shape, own: set<StrNode>, v: Tree<StrNode>, w: Zip<StrNode>, z: Zip<StrNode>)
    requires v.Br? && Located(g, own, v, Under(w, z))
    ensures v.n == Root(Plug(v, w)) <==> w.Top?
    ensures w.Top? ==> Plug(v, w) == v
  {
    RootOfPlug(v, w);
    ProperUnder(w, z);
    hide Proper, ProperPath, Sub, Around;
    assert v.n in Nodes(v);
    assert !w.Top? ==> Outer(w) != null && Outer(w) in PathNodes(w) by { if !w.Top? { OuterThere(w); } }
  }

  lemma {:induction false} OuterThere(w: Zip<StrNode>)
    requires !w.Top?
    ensures Outer(w) != null
    decreases w
  {
    if !w.up.Top? { OuterThere(w.up); }
  }

  /** Put the rightmost node of the left subtree in the place of a node with two children.
      Rebalancing is to begin at `start`, the top of `t` at the hole of `z`. */
  method ReplaceNode(
    node: StrNode, parent: StrNode?, leftChild: bool, ghost own: set<StrNode>, ghost u: Tree<StrNode>,
    ghost y: Zip<StrNode>)
    returns (start: StrNode, ghost t: Tree<StrNode>, ghost z: Zip<StrNode>)
    requires u.Br? && u.n == node && u.l.Br? && u.r.Br? && Located(ShapeOf(own), own, u, y) && Balanced(Plug(u, y))
    requires parent == Above(y) && (!y.Top? ==> leftChild == y.InLeft?)
    modifies own`parent, own`left, own`right
    ensures t.Br? && t.n == start
    ensures Ready(ShapeOf(own - {node}), own - {node}, t, z, Before(y) + InOrder(u.l) + InOrder(u.r) + After(y))
  {
    ghost var r := u.r;
    LocatedNode(ShapeOf(own), own, u, y);
    DownLeft(ShapeOf(own), own, u, y);
    assert node.left == u.l.n;
    hide Located, ShapeOf, InOrder, Before, After, Plug, Under, Around, Rebalance, Balanced, Nodes, PathNodes,
      Linked, ProperAt, Height;
    assert u == Br(node, u.l, r);
    var replacement, v, w := Rightmost(node.left, own, u.l, InLeft(node, y, r));
    RightmostIsTop(ShapeOf(own), own, v, w, InLeft(node, y, r));
    var formerParent: StrNode?;
    if replacement != node.left {
      formerParent := PromoteDeep(node, replacement, parent, leftChild, own, v, w, y, r);
      DeepStart(ShapeOf(own - {node}), own - {node}, v, w, node, y, r);
      ghost var x := Under(w, InLeft(replacement, y, r));
      t, z := Fill(v.l, x), x.up;
    } else {
      formerParent := PromoteChild(node, replacement, parent, leftChild, own, u, y);
      ChildStart(u, y);
      t, z := Br(replacement, u.l.l, r), y;
    }
    if formerParent != node {
      start := formerParent;
    } else {
      start := replacement;
    }
  }

  /** Ready for rebalancing from the top of `t`, with the nodes `ns` in order. */
  ghost predicate Ready(h: Shape, own: set<StrNode>, t: Tree<StrNode>, z: Zip<StrNode>, ns: seq<StrNode>) {
    && t.Br? && Linked(h, t, Above(z)) && Around(h, z, t.n) && ProperAt(t, z) && Nodes(t) + PathNodes(z) == own
    && Before(z) + InOrder(t) + After(z) == ns && Balanced(Rebalance(t, z))
  }

  lemma DeepStart(
    h: Shape, own: set<StrNode>, v: Tree<StrNode>, w: Zip<StrNode>, n: StrNode, y: Zip<StrNode>, r: Tree<StrNode>)
    requires v.Br? && v.r.Leaf? && After(w) == [] && !w.Top? && Balanced(Plug(Br(n, Plug(v, w), r), y))
    requires Located(h, own, v.l, Under(w, InLeft(v.n, y, r)))
    ensures var x := Under(w, InLeft(v.n, y, r));
            !x.Top? && x.n == w.n && Ready(h, own, Fill(v.l, x), x.up,
              Before(y) + InOrder(Plug(v, w)) + InOrder(r) + After(y))
  {
    hide Rebalance, InOrder, Before, After, Plug, ProperPath, Proper, PathNodes, Nodes;
    var x := Under(w, InLeft(v.n, y, r));
    DeepBalance(v, w, n, y, r);
    DeepOrder(v, w, n, y, r);
    FillOrder(v.l, x);
    OutOf(h, v.l, x);
  }

  lemma ChildStart(u: Tree<StrNode>, y: Zip<StrNode>)
    requires u.Br? && u.l.Br? && u.l.r.Leaf? && Balanced(Plug(u, y))
    ensures var t := Br(u.l.n, u.l.l, u.r);
            && Before(y) + InOrder(t) + After(y) == Before(y) + InOrder(u.l) + InOrder(u.r) + After(y)
            && Balanced(Rebalance(t, y))
  {
    ChildBalance(u, y);
  }

  /** A tree ready for rebalancing is rebalanced. */
  lemma Rebalanced(h: Shape, own: set<StrNode>, t: Tree<StrNode>, z: Zip<StrNode>, ns: seq<StrNode>, g: Shape)
    requires Ready(h, own, t, z, ns) && Sub(g, Rebalance(t, z), null)
    ensures Located(g, own, Rebalance(t, z), Top) && Balanced(Rebalance(t, z)) && InOrder(Rebalance(t, z)) == ns
  {
    hide Sub, Linked, Around, Rebalance, Before, After, InOrder;
    RebalanceProper(t, z);
    RebalanceKeepsOrder(t, z);
    AtTop(g, Rebalance(t, z));
  }

  lemma AtTop(g: Shape, t: Tree<StrNode>)
    requires Sub(g, t, null) && Proper(t)
    ensures Located(g, Nodes(t), t, Top)
  {
  }

  lemma Lone(g: Shape, node: StrNode, p: StrNode?)
    ensures var u := Br(node, Leaf, Leaf);
            && Height(u) == 1 && Balanced(u) && InOrder(u) == [node] && Proper(u) && Nodes(u) == {node}
            && (At(g, node, p, null, null) && g[node].height == 1 ==> Sub(g, u, p))
  {
    var u: Tree<StrNode> := Br(node, Leaf, Leaf);
    assert u.l == Leaf && u.r == Leaf;
    assert InOrder(u) == [] + [node] + [];
  }

  lemma AttachReady(h: Shape, own: set<StrNode>, y: Zip<StrNode>, node: StrNode)
    requires !y.Top? && Located(h, own, Br(node, Leaf, Leaf), y) && Balanced(Plug(Leaf, y))
    ensures Ready(h, own, Fill(Br(node, Leaf, Leaf), y), y.up, Before(y) + [node] + After(y))
  {
    var u: Tree<StrNode> := Br(node, Leaf, Leaf);
    Lone(h, node, null);
    PlugBalanced(Leaf, y);
    hide Rebalance, Before, After, InOrder, Plug, Nodes, PathNodes, Proper, ProperPath, Sub, Linked, Around;
    ResizeBalances(u, y, 0);
    FillOrder(u, y);
    OutOf(h, u, y);
  }

  /** Insert a new node in the hole of `y` and rebalance; returns the new root. */
  method InsertNode(node: StrNode, parent: StrNode?, leftChild: bool, ghost own: set<StrNode>, ghost y: Zip<StrNode>)
    returns (root: StrNode, ghost tree: Tree<StrNode>)
    requires Located(ShapeOf(own), own, Leaf, y) && Balanced(Plug(Leaf, y)) && parent == Above(y)
             && (!y.Top? ==> leftChild == y.InLeft?)
    requires node !in own && node.parent == null && node.left == null && node.right == null && node.height == 1
    modifies (own + {node})`height, (own + {node})`parent, (own + {node})`left, (own + {node})`right
    ensures root == Root(tree) && Located(ShapeOf(own + {node}), own + {node}, tree, Top)
    ensures Balanced(tree) && InOrder(tree) == Before(y) + [node] + After(y)
  {
    ghost var g := ShapeOf(own);
    ghost var more := own + {node};
    if parent != null {
      LocatedNode(g, own, Leaf, y);
      hide Located, Nodes, PathNodes, Proper, ProperPath, Around, Sub, InOrder, Before, After, Plug;
      node.parent := parent;
      if leftChild {
        parent.left := node;
      } else {
        parent.right := node;
      }
      ghost var h := ShapeOf(more);
      Attach(g, h, own, y, node);
      AttachReady(h, more, y, node);
      hide ShapeOf, Rebalance, Balanced;
      ghost var t := Fill(Br(node, Leaf, Leaf), y);
      root := RebalanceFrom(parent, more, t, y.up);
      tree := Rebalance(t, y.up);
      Rebalanced(h, more, t, y.up, Before(y) + [node] + After(y), ShapeOf(more));
    } else {
      root := node;
      tree := Br(node, Leaf, Leaf);
      assert own == {} && Before(y) == After(y) == [];
      Lone(ShapeOf(more), node, null);
      AtTop(ShapeOf(more), tree);
      assert more == {node};
    }
  }

  /** Remove a node and rebalance; returns the new root. */
  method RemoveNode(
    node: StrNode, parent: StrNode?, leftChild: bool, ghost own: set<StrNode>, ghost u: Tree<StrNode>,
    ghost y: Zip<StrNode>)
    returns (root: StrNode?, ghost tree: Tree<StrNode>)
    requires u.Br? && u.n == node && Located(ShapeOf(own), own, u, y) && Balanced(Plug(u, y))
    requires parent == Above(y) && (!y.Top? ==> leftChild == y.InLeft?)
    modifies own`height, own`parent, own`left, own`right
    ensures root == Root(tree) && Located(ShapeOf(own - {node}), own - {node}, tree, Top)
    ensures Balanced(tree) && InOrder(tree) == Before(y) + InOrder(u.l) + InOrder(u.r) + After(y)
  {
    ghost var rest := own - {node};
    ghost var ns := Before(y) + InOrder(u.l) + InOrder(u.r) + After(y);
    LocatedNode(ShapeOf(own), own, u, y);
    assert node.left == Root(u.l) && node.right == Root(u.r);
    hide Located, Nodes, PathNodes, Proper, ProperPath, Around, Sub, InOrder, Before, After, Plug, ShapeOf,
      Rebalance, Balanced, Ready;
    ghost var t, z;
    if node.left != null && node.right != null {
      var start;
      start, t, z := ReplaceNode(node, parent, leftChild, own, u, y);
      ghost var h := ShapeOf(rest);
      ReadyParts(h, rest, t, z, ns);
      root := RebalanceFrom(start, rest, t, z);
      tree := Rebalance(t, z);
      Rebalanced(h, rest, t, z, ns, ShapeOf(rest));
    } else {
      var child := ExtractSingle(node, own, u, y);
      ghost var c := if u.l.Br? then u.l else u.r;
      ghost var h := ShapeOf(rest);
      if parent != null {
        DetachReady(h, rest, u, y);
        t, z := Fill(c, y), y.up;
        ReadyParts(h, rest, t, z, ns);
        root := RebalanceFrom(parent, rest, t, z);
        tree := Rebalance(t, z);
        Rebalanced(h, rest, t, z, ns, ShapeOf(rest));
      } else {
        root := child;
        tree := c;
        SingleAtTop(u, y);
      }
    }
  }

  lemma ReadyParts(h: Shape, own: set<StrNode>, t: Tree<StrNode>, z: Zip<StrNode>, ns: seq<StrNode>)
    requires Ready(h, own, t, z, ns)
    ensures t.Br? && Linked(h, t, Above(z)) && Around(h, z, t.n) && ProperAt(t, z) && Nodes(t) + PathNodes(z) == own
  {
  }

  /** A node with at most one child leaves a subtree that is one level lower. */
  lemma DetachReady(h: Shape, own: set<StrNode>, u: Tree<StrNode>, y: Zip<StrNode>)
    requires u.Br? && (u.l.Leaf? || u.r.Leaf?) && !y.Top? && Balanced(Plug(u, y))
    requires Located(h, own, if u.l.Br? then u.l else u.r, y)
    ensures Ready(h, own, Fill(if u.l.Br? then u.l else u.r, y), y.up,
            Before(y) + InOrder(u.l) + InOrder(u.r) + After(y))
  {
    var c := if u.l.Br? then u.l else u.r;
    PlugBalanced(u, y);
    assert Balanced(c) && Height(u) == 1 + Height(c);
    assert Before(y) + InOrder(c) == Before(y) + InOrder(u.l) + InOrder(u.r);
    hide Rebalance, Before, After, InOrder, Plug, Nodes, PathNodes, Proper, ProperPath, Sub, Linked, Around, Balanced;
    ResizeBalances(c, y, Height(u));
    FillOrder(c, y);
    OutOf(h, c, y);
  }

  lemma SingleAtTop(u: Tree<StrNode>, y: Zip<StrNode>)
    requires u.Br? && (u.l.Leaf? || u.r.Leaf?) && y.Top? && Balanced(Plug(u, y))
    ensures var c := if u.l.Br? then u.l else u.r;
            Balanced(c) && InOrder(c) == Before(y) + InOrder(u.l) + InOrder(u.r) + After(y)
  {
  }
}
