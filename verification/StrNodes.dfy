/** Map nodes on the heap: left, right and parent pointers and a height field, tied to a tree value.

  A `Shape` records the pointers and heights of a set of nodes at one moment.  `Sub(g, t, p)`
  says that in shape `g` the nodes of `t` form the tree `t` below the node `p`, with exact
  heights.  While an operation works its way up, the nodes on the path to the root have right
  pointers but stale heights; `Around(g, z, child)` describes them. */
module StrNodes {
  import opened Lex
  import opened AvlTree

  class StrNode {
    const key: CString
    var value: CString
    var height: int
    var parent: StrNode?
    var left: StrNode?
    var right: StrNode?

    constructor (key: CString, value: CString)
      ensures this.key == key && this.value == value
      ensures height == 1 && parent == null && left == null && right == null
    {
      this.key, this.value, height := key, value, 1;
      parent, left, right := null, null, null;
    }
  }

  datatype Links = Links(height: int, parent: StrNode?, left: StrNode?, right: StrNode?)

  type Shape = map<StrNode, Links>

  ghost function ShapeOf(own: set<StrNode>): Shape
    reads own
  {
    map x | x in own :: Links(x.height, x.parent, x.left, x.right)
  }

  ghost function Root(t: Tree<StrNode>): StrNode? {
    if t.Leaf? then null else t.n
  }

  ghost function Above(z: Zip<StrNode>): StrNode? {
    if z.Top? then null else z.n
  }

  ghost function Nodes(t: Tree<StrNode>): set<StrNode> {
    if t.Leaf? then {} else {t.n} + Nodes(t.l) + Nodes(t.r)
  }

  ghost function PathNodes(z: Zip<StrNode>): set<StrNode> {
    match z
    case Top => {}
    case InLeft(n, up, r) => {n} + PathNodes(up) + Nodes(r)
    case InRight(n, l, up) => {n} + PathNodes(up) + Nodes(l)
  }

  /** No node occurs twice. */
  ghost predicate Proper(t: Tree<StrNode>) {
    t.Br? ==> t.n !in Nodes(t.l) && t.n !in Nodes(t.r) && Nodes(t.l) !! Nodes(t.r) && Proper(t.l) && Proper(t.r)
  }

  ghost predicate ProperPath(z: Zip<StrNode>) {
    match z
    case Top => true
    case InLeft(n, up, r) =>
      n !in Nodes(r) && n !in PathNodes(up) && Nodes(r) !! PathNodes(up) && Proper(r) && ProperPath(up)
    case InRight(n, l, up) =>
      n !in Nodes(l) && n !in PathNodes(up) && Nodes(l) !! PathNodes(up) && Proper(l) && ProperPath(up)
  }

  ghost predicate ProperAt(t: Tree<StrNode>, z: Zip<StrNode>) {
    Proper(t) && ProperPath(z) && Nodes(t) !! PathNodes(z)
  }

  /** The pointers of one node. */
  ghost predicate At(g: Shape, n: StrNode, p: StrNode?, l: StrNode?, r: StrNode?) {
    n in g && g[n].parent == p && g[n].left == l && g[n].right == r
  }

  ghost predicate Sub(g: Shape, t: Tree<StrNode>, p: StrNode?) {
    t.Br? ==>
      && At(g, t.n, p, Root(t.l), Root(t.r)) && g[t.n].height == Height(t)
      && Sub(g, t.l, t.n) && Sub(g, t.r, t.n)
  }

  /** Pointers of `t` are right, and heights are exact below the top node. */
  ghost predicate Linked(g: Shape, t: Tree<StrNode>, p: StrNode?) {
    t.Br? ==> At(g, t.n, p, Root(t.l), Root(t.r)) && Sub(g, t.l, t.n) && Sub(g, t.r, t.n)
  }

  /** The nodes around a hole that holds `child`. */
  ghost predicate Around(g: Shape, z: Zip<StrNode>, child: StrNode?) {
    match z
    case Top => true
    case InLeft(n, up, r) => At(g, n, Above(up), child, Root(r)) && Sub(g, r, n) && Around(g, up, n)
    case InRight(n, l, up) => At(g, n, Above(up), Root(l), child) && Sub(g, l, n) && Around(g, up, n)
  }

  ghost predicate Same(g: Shape, h: Shape, ns: set<StrNode>) {
    forall x <- ns :: x in g && x in h && g[x] == h[x]
  }

  /** A tree whose nodes did not change is still there. */
  lemma {:induction false} Kept(g: Shape, h: Shape, t: Tree<StrNode>, p: StrNode?)
    requires Sub(g, t, p) && Same(g, h, Nodes(t))
    ensures Sub(h, t, p)
  {
    if t.Br? {
      Kept(g, h, t.l, t.n);
      Kept(g, h, t.r, t.n);
    }
  }

  /** A tree whose top node has got a new parent. */
  lemma Moved(g: Shape, h: Shape, t: Tree<StrNode>, p: StrNode?, q: StrNode?)
    requires Proper(t) && Sub(g, t, p) && Same(g, h, Nodes(t) - {Root(t)})
    requires t.Br? ==> t.n in h && h[t.n] == g[t.n].(parent := q)
    ensures Sub(h, t, q)
  {
    if t.Br? {
      Kept(g, h, t.l, t.n);
      Kept(g, h, t.r, t.n);
    }
  }

  lemma {:induction false} KeptAround(g: Shape, h: Shape, z: Zip<StrNode>, child: StrNode?)
    requires Around(g, z, child) && Same(g, h, PathNodes(z))
    ensures Around(h, z, child)
  {
    match z
    case Top =>
    case InLeft(n, up, r) => Kept(g, h, r, n); KeptAround(g, h, up, n);
    case InRight(n, l, up) => Kept(g, h, l, n); KeptAround(g, h, up, n);
  }

  /** The node above the hole now points to `d` there. */
  ghost predicate Swung(g: Shape, h: Shape, z: Zip<StrNode>, d: StrNode?) {
    !z.Top? ==>
      && z.n in g && z.n in h && h[z.n].parent == g[z.n].parent
      && h[z.n].left == (if z.InLeft? then d else g[z.n].left)
      && h[z.n].right == (if z.InLeft? then g[z.n].right else d)
  }

  /** The node above the hole has got a new child there, and perhaps a new height. */
  lemma Refilled(g: Shape, h: Shape, z: Zip<StrNode>, c: StrNode?, d: StrNode?)
    requires ProperPath(z) && Around(g, z, c) && Same(g, h, PathNodes(z) - {Above(z)})
    requires Swung(g, h, z, d)
    ensures Around(h, z, d)
  {
    match z
    case Top =>
    case InLeft(n, up, r) => Kept(g, h, r, n); KeptAround(g, h, up, n);
    case InRight(n, l, up) => Kept(g, h, l, n); KeptAround(g, h, up, n);
  }

  ghost function HeightIn(g: Shape, x: StrNode?): int {
    if x != null && x in g then g[x].height else 0
  }

  ghost function Taller(a: int, b: int): int { 1 + if a > b then a else b }

  lemma SubHeight(g: Shape, t: Tree<StrNode>, p: StrNode?)
    requires Sub(g, t, p)
    ensures HeightIn(g, Root(t)) == Height(t) >= 0
    ensures t.Br? ==> t.n in g && t.n in Nodes(t)
  {
  }

  function HeightOf(node: StrNode?): int
    reads node
  {
    if node == null then 0 else node.height
  }

  method SetHeight(node: StrNode)
    modifies node`height
    ensures old(HeightOf(node.left)) >= 0 ==>
              node.height == Taller(old(HeightOf(node.left)), old(HeightOf(node.right)))
  {
    var height := 0;
    if node.left != null {
      height := node.left.height;
    }
    if node.right != null {
      var rightHeight := node.right.height;
      if rightHeight > height { height := rightHeight; }
    }
    node.height := height + 1;
  }

  /** The node above a hole has a right or a left child in the hole, and not both. */
  lemma AboveHole(g: Shape, t: Tree<StrNode>, z: Zip<StrNode>)
    requires t.Br? && t.n in g && ProperAt(t, z) && Around(g, z, t.n)
    ensures !z.Top? ==>
              && z.n in g && z.n in PathNodes(z) && (z.InLeft? <==> g[z.n].left == t.n)
              && (g[z.n].left != null ==> g[z.n].left in g) && (g[z.n].right != null ==> g[z.n].right in g)
  {
    if z.InLeft? { SubHeight(g, z.r, z.n); }
    if z.InRight? { SubHeight(g, z.l, z.n); }
  }

  /** The pointer updates of a left rotation: `node` becomes the left child of `target`, which
      takes the place of `node` below the parent. */
  method SwapLeft(node: StrNode) returns (target: StrNode)
    requires var m := node.right;
             && m != null && m.left != node && m.left != m && m.right != node && m.right != m
             && node.left != node && node.left != m && node != m
             && (node.parent != null ==> node.parent !in {node, m, m.left, m.right, node.left})
             && HeightOf(node.left) >= 0 && HeightOf(m.left) >= 0 && HeightOf(m.right) >= 0
    modifies node`parent, node`right, node`height, node.right`parent, node.right`left, node.right`height
    modifies {node.right.left}`parent, {node.parent}`left, {node.parent}`right, {node.parent}`height
    ensures target == old(node.right) && node.parent == target && node.right == old(target.left)
    ensures target.left == node && target.parent == old(node.parent)
    ensures node.height == Taller(old(HeightOf(node.left)), old(HeightOf(target.left)))
    ensures target.height == Taller(node.height, old(HeightOf(target.right)))
    ensures node.right != null ==> node.right.parent == node
    ensures target.parent != null ==>
              && target.parent.left == (if old(node.parent.left) == node then target else old(node.parent.left))
              && target.parent.right == (if old(node.parent.left) == node then old(node.parent.right) else target)
  {
    target := node.right;
    var parent := node.parent;
    node.right := target.left;
    node.parent := target;
    if target.left != null {
      target.left.parent := node;
    }
    SetHeight(node);
    target.left := node;
    target.parent := parent;
    SetHeight(target);
    if parent != null {
      if parent.left == node {
        parent.left := target;
      } else {
        parent.right := target;
      }
      SetHeight(parent);
    }
  }

  /** Rotate left about `node`, the top of `t` at the hole of `z`. */
  method RotateNodeLeft(node: StrNode, ghost own: set<StrNode>, ghost t: Tree<StrNode>, ghost z: Zip<StrNode>)
    returns (target: StrNode)
    requires t.Br? && t.n == node && t.r.Br? && ProperAt(t, z) && Nodes(t) + PathNodes(z) <= own
    requires Linked(ShapeOf(own), t, Above(z)) && Around(ShapeOf(own), z, node)
    modifies own`height, own`parent, own`left, own`right
    ensures target == t.r.n && Sub(ShapeOf(own), RotateLeft(t), Above(z)) && Around(ShapeOf(own), z, target)
  {
    ghost var g := ShapeOf(own);
    LeftCorners(g, t, z);
    hide Nodes, PathNodes, Proper, ProperPath, Sub, Linked, Around;
    target := SwapLeft(node);
    TurnLeft(g, ShapeOf(own), t, z);
  }

  /** The pointer updates of a right rotation: `node` becomes the right child of `target`, which
      takes the place of `node` below the parent. */
  method SwapRight(node: StrNode) returns (target: StrNode)
    requires var m := node.left;
             && m != null && m.right != node && m.right != m && m.left != node && m.left != m
             && node.right != node && node.right != m && node != m
             && (node.parent != null ==> node.parent !in {node, m, m.right, m.left, node.right})
             && HeightOf(node.right) >= 0 && HeightOf(m.right) >= 0 && HeightOf(m.left) >= 0
    modifies node`parent, node`left, node`height, node.left`parent, node.left`right, node.left`height
    modifies {node.left.right}`parent, {node.parent}`right, {node.parent}`left, {node.parent}`height
    ensures target == old(node.left) && node.parent == target && node.left == old(target.right)
    ensures target.right == node && target.parent == old(node.parent)
    ensures node.height == Taller(old(HeightOf(target.right)), old(HeightOf(node.right)))
    ensures target.height == Taller(old(HeightOf(target.left)), node.height)
    ensures node.left != null ==> node.left.parent == node
    ensures target.parent != null ==>
              && target.parent.left == (if old(node.parent.left) == node then target else old(node.parent.left))
              && target.parent.right == (if old(node.parent.left) == node then old(node.parent.right) else target)
  {
    target := node.left;
    var parent := node.parent;
    node.left := target.right;
    node.parent := target;
    if target.right != null {
      target.right.parent := node;
    }
    SetHeight(node);
    target.right := node;
    target.parent := parent;
    SetHeight(target);
    if parent != null {
      if parent.left == node {
        parent.left := target;
      } else {
        parent.right := target;
      }
      SetHeight(parent);
    }
  }

  /** Rotate right about `node`, the top of `t` at the hole of `z`. */
  method RotateNodeRight(node: StrNode, ghost own: set<StrNode>, ghost t: Tree<StrNode>, ghost z: Zip<StrNode>)
    returns (target: StrNode)
    requires t.Br? && t.n == node && t.l.Br? && ProperAt(t, z) && Nodes(t) + PathNodes(z) <= own
    requires Linked(ShapeOf(own), t, Above(z)) && Around(ShapeOf(own), z, node)
    modifies own`height, own`parent, own`right, own`left
    ensures target == t.l.n && Sub(ShapeOf(own), RotateRight(t), Above(z)) && Around(ShapeOf(own), z, target)
  {
    ghost var g := ShapeOf(own);
    RightCorners(g, t, z);
    hide Nodes, PathNodes, Proper, ProperPath, Sub, Linked, Around;
    target := SwapRight(node);
    TurnRight(g, ShapeOf(own), t, z);
  }

  /** Two nodes and three subtrees that have no node in common. */
  ghost predicate Apart(n: StrNode, m: StrNode, a: Tree<StrNode>, b: Tree<StrNode>, c: Tree<StrNode>) {
    && n != m && {n, m} !! Nodes(a) && {n, m} !! Nodes(b) && {n, m} !! Nodes(c)
    && Nodes(a) !! Nodes(b) && Nodes(a) !! Nodes(c) && Nodes(b) !! Nodes(c)
    && Proper(a) && Proper(b) && Proper(c)
  }

  lemma LeftApart(t: Tree<StrNode>)
    requires t.Br? && t.r.Br?
    ensures Proper(t) <==> Apart(t.n, t.r.n, t.l, t.r.l, t.r.r)
    ensures Proper(RotateLeft(t)) <==> Proper(t)
    ensures Nodes(t) == Nodes(RotateLeft(t)) == {t.n, t.r.n} + Nodes(t.l) + Nodes(t.r.l) + Nodes(t.r.r)
  {
    assert Nodes(t.r) == {t.r.n} + Nodes(t.r.l) + Nodes(t.r.r);
    var low := Br(t.n, t.l, t.r.l);
    assert Nodes(low) == {t.n} + Nodes(t.l) + Nodes(t.r.l);
    assert RotateLeft(t) == Br(t.r.n, low, t.r.r);
    assert Proper(low) <==>
        t.n !in Nodes(t.l) && t.n !in Nodes(t.r.l) && Nodes(t.l) !! Nodes(t.r.l) && Proper(t.l) && Proper(t.r.l);
    assert Proper(t.r) <==>
        && t.r.n !in Nodes(t.r.l) && t.r.n !in Nodes(t.r.r) && Nodes(t.r.l) !! Nodes(t.r.r)
        && Proper(t.r.l) && Proper(t.r.r);
  }

  /** The nodes that a left rotation touches. */
  lemma LeftCorners(g: Shape, t: Tree<StrNode>, z: Zip<StrNode>)
    requires t.Br? && t.r.Br? && ProperAt(t, z) && Linked(g, t, Above(z)) && Around(g, z, t.n)
    ensures t.n in g && t.r.n in g && t.n != t.r.n && At(g, t.n, Above(z), Root(t.l), t.r.n)
    ensures At(g, t.r.n, t.n, Root(t.r.l), Root(t.r.r))
    ensures t.r.l.Br? ==> t.r.l.n in g && t.r.l.n !in {t.n, t.r.n}
    ensures t.l.Br? ==> t.l.n in g && t.l.n !in {t.n, t.r.n}
    ensures t.r.r.Br? ==> t.r.r.n in g && t.r.r.n !in {t.n, t.r.n}
    ensures HeightIn(g, Root(t.l)) >= 0 && HeightIn(g, Root(t.r.l)) >= 0 && HeightIn(g, Root(t.r.r)) >= 0
    ensures !z.Top? ==> z.n !in {t.n, t.r.n, Root(t.l), Root(t.r.l), Root(t.r.r)}
    ensures !z.Top? ==> z.n in g && (z.InLeft? <==> g[z.n].left == t.n)
    ensures !z.Top? ==> (g[z.n].left != null ==> g[z.n].left in g) && (g[z.n].right != null ==> g[z.n].right in g)
  {
    LeftApart(t);
    AboveHole(g, t, z);
    assert Sub(g, t.r, t.n);
    SubHeight(g, t.l, t.n);
    SubHeight(g, t.r.l, t.r.n);
    SubHeight(g, t.r.r, t.r.n);
    assert !z.Top? ==> z.n !in Nodes(t);
  }

  lemma TurnLeft(g: Shape, h: Shape, t: Tree<StrNode>, z: Zip<StrNode>)
    requires t.Br? && t.r.Br? && ProperAt(t, z) && Linked(g, t, Above(z)) && Around(g, z, t.n)
    requires Same(g, h, Nodes(t) + PathNodes(z) - {t.n, t.r.n, Root(t.r.l), Above(z)})
    requires t.r.l.Br? ==> t.r.l.n in g && t.r.l.n in h && h[t.r.l.n] == g[t.r.l.n].(parent := t.n)
    requires At(h, t.n, t.r.n, Root(t.l), Root(t.r.l)) && At(h, t.r.n, Above(z), t.n, Root(t.r.r))
    requires h[t.n].height == Taller(HeightIn(g, Root(t.l)), HeightIn(g, Root(t.r.l)))
    requires h[t.r.n].height == Taller(h[t.n].height, HeightIn(g, Root(t.r.r)))
    requires Swung(g, h, z, t.r.n)
    ensures Sub(h, RotateLeft(t), Above(z)) && Around(h, z, t.r.n)
  {
    var a, b, c := t.l, t.r.l, t.r.r;
    LeftApart(t);
    assert Sub(g, a, t.n) && Sub(g, t.r, t.n);
    assert Sub(g, b, t.r.n) && Sub(g, c, t.r.n);
    AboveHole(g, t, z);
    SubHeight(g, a, t.n);
    SubHeight(g, b, t.r.n);
    SubHeight(g, c, t.r.n);
    assert Sub(h, a, t.n) && Sub(h, b, t.n) && Sub(h, c, t.r.n) && Around(h, z, t.r.n) by {
      hide Nodes, PathNodes, Proper, ProperPath, Sub, Linked, Around;
      Kept(g, h, a, t.n);
      Moved(g, h, b, t.r.n, t.n);
      Kept(g, h, c, t.r.n);
      Refilled(g, h, z, t.n, t.r.n);
    }
    assert Sub(h, Br(t.n, a, b), t.r.n);
  }

  lemma RightApart(t: Tree<StrNode>)
    requires t.Br? && t.l.Br?
    ensures Proper(t) <==> Apart(t.n, t.l.n, t.r, t.l.r, t.l.l)
    ensures Proper(RotateRight(t)) <==> Proper(t)
    ensures Nodes(t) == Nodes(RotateRight(t)) == {t.n, t.l.n} + Nodes(t.r) + Nodes(t.l.r) + Nodes(t.l.l)
  {
    assert Nodes(t.l) == {t.l.n} + Nodes(t.l.r) + Nodes(t.l.l);
    var low := Br(t.n, t.l.r, t.r);
    assert Nodes(low) == {t.n} + Nodes(t.r) + Nodes(t.l.r);
    assert RotateRight(t) == Br(t.l.n, t.l.l, low);
    assert Proper(low) <==>
        t.n !in Nodes(t.r) && t.n !in Nodes(t.l.r) && Nodes(t.r) !! Nodes(t.l.r) && Proper(t.r) && Proper(t.l.r);
    assert Proper(t.l) <==>
        && t.l.n !in Nodes(t.l.r) && t.l.n !in Nodes(t.l.l) && Nodes(t.l.r) !! Nodes(t.l.l)
        && Proper(t.l.r) && Proper(t.l.l);
  }

  /** The nodes that a right rotation touches. */
  lemma RightCorners(g: Shape, t: Tree<StrNode>, z: Zip<StrNode>)
    requires t.Br? && t.l.Br? && ProperAt(t, z) && Linked(g, t, Above(z)) && Around(g, z, t.n)
    ensures t.n in g && t.l.n in g && t.n != t.l.n && At(g, t.n, Above(z), t.l.n, Root(t.r))
    ensures At(g, t.l.n, t.n, Root(t.l.l), Root(t.l.r))
    ensures t.l.r.Br? ==> t.l.r.n in g && t.l.r.n !in {t.n, t.l.n}
    ensures t.r.Br? ==> t.r.n in g && t.r.n !in {t.n, t.l.n}
    ensures t.l.l.Br? ==> t.l.l.n in g && t.l.l.n !in {t.n, t.l.n}
    ensures HeightIn(g, Root(t.r)) >= 0 && HeightIn(g, Root(t.l.r)) >= 0 && HeightIn(g, Root(t.l.l)) >= 0
    ensures !z.Top? ==> z.n !in {t.n, t.l.n, Root(t.r), Root(t.l.r), Root(t.l.l)}
    ensures !z.Top? ==> z.n in g && (z.InLeft? <==> g[z.n].left == t.n)
    ensures !z.Top? ==> (g[z.n].right != null ==> g[z.n].right in g) && (g[z.n].left != null ==> g[z.n].left in g)
  {
    RightApart(t);
    AboveHole(g, t, z);
    assert Sub(g, t.l, t.n);
    SubHeight(g, t.r, t.n);
    SubHeight(g, t.l.r, t.l.n);
    SubHeight(g, t.l.l, t.l.n);
    assert !z.Top? ==> z.n !in Nodes(t);
  }

  lemma TurnRight(g: Shape, h: Shape, t: Tree<StrNode>, z: Zip<StrNode>)
    requires t.Br? && t.l.Br? && ProperAt(t, z) && Linked(g, t, Above(z)) && Around(g, z, t.n)
    requires Same(g, h, Nodes(t) + PathNodes(z) - {t.n, t.l.n, Root(t.l.r), Above(z)})
    requires t.l.r.Br? ==> t.l.r.n in g && t.l.r.n in h && h[t.l.r.n] == g[t.l.r.n].(parent := t.n)
    requires At(h, t.n, t.l.n, Root(t.l.r), Root(t.r)) && At(h, t.l.n, Above(z), Root(t.l.l), t.n)
    requires h[t.n].height == Taller(HeightIn(g, Root(t.l.r)), HeightIn(g, Root(t.r)))
    requires h[t.l.n].height == Taller(HeightIn(g, Root(t.l.l)), h[t.n].height)
    requires Swung(g, h, z, t.l.n)
    ensures Sub(h, RotateRight(t), Above(z)) && Around(h, z, t.l.n)
  {
    var a, b, c := t.r, t.l.r, t.l.l;
    RightApart(t);
    assert Sub(g, a, t.n) && Sub(g, t.l, t.n);
    assert Sub(g, b, t.l.n) && Sub(g, c, t.l.n);
    AboveHole(g, t, z);
    SubHeight(g, a, t.n);
    SubHeight(g, b, t.l.n);
    SubHeight(g, c, t.l.n);
    assert Sub(h, a, t.n) && Sub(h, b, t.n) && Sub(h, c, t.l.n) && Around(h, z, t.l.n) by {
      hide Nodes, PathNodes, Proper, ProperPath, Sub, Linked, Around;
      Kept(g, h, a, t.n);
      Moved(g, h, b, t.l.n, t.n);
      Kept(g, h, c, t.l.n);
      Refilled(g, h, z, t.n, t.l.n);
    }
    assert Sub(h, Br(t.n, b, a), t.l.n);
  }

  // ----- rebalancing -----

  lemma IntoRight(g: Shape, t: Tree<StrNode>, z: Zip<StrNode>)
    requires t.Br? && Linked(g, t, Above(z)) && Around(g, z, t.n) && ProperAt(t, z)
    ensures var y := InRight(t.n, t.l, z);
            && Sub(g, t.r, t.n) && Around(g, y, Root(t.r)) && ProperAt(t.r, y)
            && Nodes(t.r) + PathNodes(y) == Nodes(t) + PathNodes(z)
  {
  }

  lemma IntoLeft(g: Shape, t: Tree<StrNode>, z: Zip<StrNode>)
    requires t.Br? && Linked(g, t, Above(z)) && Around(g, z, t.n) && ProperAt(t, z)
    ensures var y := InLeft(t.n, z, t.r);
            && Sub(g, t.l, t.n) && Around(g, y, Root(t.l)) && ProperAt(t.l, y)
            && Nodes(t.l) + PathNodes(y) == Nodes(t) + PathNodes(z)
  {
  }

  lemma OutOfRight(g: Shape, u: Tree<StrNode>, n: StrNode, l: Tree<StrNode>, up: Zip<StrNode>)
    requires Sub(g, u, n) && Around(g, InRight(n, l, up), Root(u)) && ProperAt(u, InRight(n, l, up))
    ensures Linked(g, Br(n, l, u), Above(up)) && Around(g, up, n) && ProperAt(Br(n, l, u), up)
    ensures Nodes(u) + PathNodes(InRight(n, l, up)) == Nodes(Br(n, l, u)) + PathNodes(up)
  {
  }

  lemma OutOfLeft(g: Shape, u: Tree<StrNode>, n: StrNode, up: Zip<StrNode>, r: Tree<StrNode>)
    requires Sub(g, u, n) && Around(g, InLeft(n, up, r), Root(u)) && ProperAt(u, InLeft(n, up, r))
    ensures Linked(g, Br(n, u, r), Above(up)) && Around(g, up, n) && ProperAt(Br(n, u, r), up)
    ensures Nodes(u) + PathNodes(InLeft(n, up, r)) == Nodes(Br(n, u, r)) + PathNodes(up)
  {
  }

  lemma OutOf(g: Shape, u: Tree<StrNode>, z: Zip<StrNode>)
    requires !z.Top? && Sub(g, u, z.n) && Around(g, z, Root(u)) && ProperAt(u, z)
    ensures var t := Fill(u, z);
            && Linked(g, t, Above(z.up)) && Around(g, z.up, z.n) && ProperAt(t, z.up)
            && Nodes(u) + PathNodes(z) == Nodes(t) + PathNodes(z.up)
  {
    if z.InLeft? { OutOfLeft(g, u, z.n, z.up, z.r); } else { OutOfRight(g, u, z.n, z.l, z.up); }
  }

  lemma SubIsLinked(g: Shape, t: Tree<StrNode>, p: StrNode?)
    requires Sub(g, t, p)
    ensures Linked(g, t, p)
  {
  }

  lemma FixProper(t: Tree<StrNode>)
    requires t.Br? && Proper(t)
    ensures Fix(t).Br? && Proper(Fix(t)) && Nodes(Fix(t)) == Nodes(t)
  {
    if Factor(t) < -1 {
      LeftApart(t);
      if Factor(t.r) > 0 {
        RightApart(t.r);
        LeftApart(t.(r := RotateRight(t.r)));
      }
    } else if Factor(t) > 1 {
      RightApart(t);
      if Factor(t.l) < 0 {
        LeftApart(t.l);
        RightApart(t.(l := RotateLeft(t.l)));
      }
    }
  }

  /** What the height fields of the children say about the tree. */
  lemma FactorOf(g: Shape, t: Tree<StrNode>, p: StrNode?)
    requires Linked(g, t, p) && t.Br?
    ensures At(g, t.n, p, Root(t.l), Root(t.r))
    ensures t.l.Br? ==> t.l.n in g
    ensures t.r.Br? ==> t.r.n in g
    ensures HeightIn(g, Root(t.l)) == Height(t.l) && HeightIn(g, Root(t.r)) == Height(t.r)
  {
    SubHeight(g, t.l, t.n);
    SubHeight(g, t.r, t.n);
  }

  method BalanceFactor(node: StrNode?, ghost own: set<StrNode>, ghost t: Tree<StrNode>, ghost p: StrNode?)
    returns (factor: int)
    requires node == Root(t) && Nodes(t) <= own && Linked(ShapeOf(own), t, p)
    ensures factor == Factor(t)
  {
    if node == null { return 0; }
    FactorOf(ShapeOf(own), t, p);
    hide Sub, Linked;
    var left, right := 0, 0;
    if node.left != null { left := node.left.height; }
    if node.right != null { right := node.right.height; }
    factor := left - right;
  }

  /** Set the height of a node that needs no rotation. */
  method Refresh(node: StrNode, ghost own: set<StrNode>, ghost t: Tree<StrNode>, ghost z: Zip<StrNode>)
    requires t.Br? && t.n == node && ProperAt(t, z) && Nodes(t) + PathNodes(z) <= own
    requires Linked(ShapeOf(own), t, Above(z)) && Around(ShapeOf(own), z, node)
    modifies own`height
    ensures Sub(ShapeOf(own), t, Above(z)) && Around(ShapeOf(own), z, node)
  {
    ghost var g := ShapeOf(own);
    FactorOf(g, t, Above(z));
    SetHeight(node);
    ghost var h := ShapeOf(own);
    assert h == g[node := g[node].(height := node.height)];
    Kept(g, h, t.l, node);
    Kept(g, h, t.r, node);
    KeptAround(g, h, z, node);
  }

  /** Rebalance at `node` alone. */
  method FixNode(node: StrNode, ghost own: set<StrNode>, ghost t: Tree<StrNode>, ghost z: Zip<StrNode>)
    returns (top: StrNode)
    requires t.Br? && t.n == node && ProperAt(t, z) && Nodes(t) + PathNodes(z) <= own
    requires Linked(ShapeOf(own), t, Above(z)) && Around(ShapeOf(own), z, node)
    modifies own`height, own`parent, own`left, own`right
    ensures Fix(t).Br? && top == Fix(t).n && Sub(ShapeOf(own), Fix(t), Above(z)) && Around(ShapeOf(own), z, top)
  {
    ghost var g := ShapeOf(own);
    IntoRight(g, t, z);
    IntoLeft(g, t, z);
    SubIsLinked(g, t.r, node);
    SubIsLinked(g, t.l, node);
    FactorOf(g, t, Above(z));
    assert node.left == Root(t.l) && node.right == Root(t.r);
    hide Nodes, PathNodes, Proper, ProperPath, Sub, Linked, Around, ShapeOf, Height;
    var factor := BalanceFactor(node, own, t, Above(z));
    if factor < -1 {
      assert t.r.Br? by { Lopsided(t); }
      var target := node.right;
      var targetFactor := BalanceFactor(target, own, t.r, node);
      if targetFactor > 0 {
        assert t.r.l.Br? by { Lopsided(t.r); }
        RightApart(t.r);
        var _ := RotateNodeRight(target, own, t.r, InRight(node, t.l, z));
        OutOfRight(ShapeOf(own), RotateRight(t.r), node, t.l, z);
        top := RotateNodeLeft(node, own, t.(r := RotateRight(t.r)), z);
      } else {
        top := RotateNodeLeft(node, own, t, z);
      }
    } else if factor > 1 {
      assert t.l.Br? by { Lopsided(t); }
      var target := node.left;
      var targetFactor := BalanceFactor(target, own, t.l, node);
      if targetFactor < 0 {
        assert t.l.r.Br? by { Lopsided(t.l); }
        LeftApart(t.l);
        var _ := RotateNodeLeft(target, own, t.l, InLeft(node, z, t.r));
        OutOfLeft(ShapeOf(own), RotateLeft(t.l), node, z, t.r);
        top := RotateNodeRight(node, own, t.(l := RotateLeft(t.l)), z);
      } else {
        top := RotateNodeRight(node, own, t, z);
      }
    } else {
      Refresh(node, own, t, z);
      top := node;
    }
  }

  lemma Lopsided(t: Tree<StrNode>)
    requires t.Br?
    ensures Factor(t) < 0 ==> t.r.Br?
    ensures Factor(t) > 0 ==> t.l.Br?
  {
  }

  /** Rebalance at `node` and then at every node above it; returns the new root. */
  method RebalanceFrom(node: StrNode, ghost own: set<StrNode>, ghost t: Tree<StrNode>, ghost z: Zip<StrNode>)
    returns (top: StrNode)
    requires t.Br? && t.n == node && ProperAt(t, z) && Nodes(t) + PathNodes(z) <= own
    requires Linked(ShapeOf(own), t, Above(z)) && Around(ShapeOf(own), z, node)
    modifies own`height, own`parent, own`left, own`right
    ensures top == Root(Rebalance(t, z)) && Sub(ShapeOf(own), Rebalance(t, z), null)
    decreases z
  {
    hide Nodes, PathNodes, Proper, ProperPath, Sub, Linked, Around, Fix;
    FactorOf(ShapeOf(own), t, Above(z));
    FixProper(t);
    var parent := node.parent;
    hide ShapeOf;
    top := FixNode(node, own, t, z);
    if parent != null {
      OutOf(ShapeOf(own), Fix(t), z);
      top := RebalanceFrom(parent, own, Fill(Fix(t), z), z.up);
    }
  }
}
