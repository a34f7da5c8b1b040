/** Balanced search trees as values: rotations, rebalancing from a node up to the root, and
  why that keeps the tree balanced and its order unchanged. */
module AvlTree {
  datatype Tree<N> = Leaf | Br(n: N, l: Tree<N>, r: Tree<N>)

  /** A tree with a hole, seen from the hole: the hole is the left or the right subtree of `n`. */
  datatype Zip<N> = Top | InLeft(n: N, up: Zip<N>, r: Tree<N>) | InRight(n: N, l: Tree<N>, up: Zip<N>)

  function Height<N>(t: Tree<N>): nat {
    if t.Leaf? then 0 else 1 + if Height(t.l) > Height(t.r) then Height(t.l) else Height(t.r)
  }

  function InOrder<N>(t: Tree<N>): seq<N> {
    if t.Leaf? then [] else InOrder(t.l) + [t.n] + InOrder(t.r)
  }

  function Plug<N>(t: Tree<N>, z: Zip<N>): Tree<N>
    decreases z
  {
    match z
    case Top => t
    case InLeft(n, up, r) => Plug(Br(n, t, r), up)
    case InRight(n, l, up) => Plug(Br(n, l, t), up)
  }

  /** What comes before the hole, and what comes after it. */
  function Before<N>(z: Zip<N>): seq<N> {
    match z
    case Top => []
    case InLeft(n, up, r) => Before(up)
    case InRight(n, l, up) => Before(up) + InOrder(l) + [n]
  }

  function After<N>(z: Zip<N>): seq<N> {
    match z
    case Top => []
    case InLeft(n, up, r) => [n] + InOrder(r) + After(up)
    case InRight(n, l, up) => After(up)
  }

  lemma {:induction false} PlugInOrder<N>(t: Tree<N>, z: Zip<N>)
    ensures InOrder(Plug(t, z)) == Before(z) + InOrder(t) + After(z)
    decreases z
  {
    match z
    case Top =>
    case InLeft(n, up, r) => PlugInOrder(Br(n, t, r), up);
    case InRight(n, l, up) => PlugInOrder(Br(n, l, t), up);
  }

  // ----- rotations -----

  function RotateLeft<N>(t: Tree<N>): Tree<N>
    requires t.Br? && t.r.Br?
  {
    Br(t.r.n, Br(t.n, t.l, t.r.l), t.r.r)
  }

  function RotateRight<N>(t: Tree<N>): Tree<N>
    requires t.Br? && t.l.Br?
  {
    Br(t.l.n, t.l.l, Br(t.n, t.l.r, t.r))
  }

  function Factor<N>(t: Tree<N>): int {
    if t.Leaf? then 0 else Height(t.l) - Height(t.r)
  }

  /** Rebalance one node. */
  function Fix<N>(t: Tree<N>): Tree<N>
    requires t.Br?
  {
    if Factor(t) < -1 then
      if Factor(t.r) > 0 then RotateLeft(t.(r := RotateRight(t.r))) else RotateLeft(t)
    else if Factor(t) > 1 then
      if Factor(t.l) < 0 then RotateRight(t.(l := RotateLeft(t.l))) else RotateRight(t)
    else t
  }

  /** Rebalance a node and then all nodes above it. */
  function Rebalance<N>(t: Tree<N>, z: Zip<N>): Tree<N>
    requires t.Br?
    decreases z
  {
    match z
    case Top => Fix(t)
    case InLeft(n, up, r) => Rebalance(Br(n, Fix(t), r), up)
    case InRight(n, l, up) => Rebalance(Br(n, l, Fix(t)), up)
  }

  lemma FixKeepsOrder<N>(t: Tree<N>)
    requires t.Br?
    ensures Fix(t).Br? && InOrder(Fix(t)) == InOrder(t)
  {
    if Factor(t) < -1 {
      RotationsKeepOrder(t);
      if Factor(t.r) > 0 {
        RotationsKeepOrder(t.r);
        RotationsKeepOrder(t.(r := RotateRight(t.r)));
      }
    } else if Factor(t) > 1 {
      RotationsKeepOrder(t);
      if Factor(t.l) < 0 {
        RotationsKeepOrder(t.l);
        RotationsKeepOrder(t.(l := RotateLeft(t.l)));
      }
    }
  }

  lemma RotationsKeepOrder<N>(t: Tree<N>)
    requires t.Br?
    ensures t.r.Br? ==> InOrder(RotateLeft(t)) == InOrder(t)
    ensures t.l.Br? ==> InOrder(RotateRight(t)) == InOrder(t)
  {
  }

  /** Rebalancing does not change the order of the nodes. */
  lemma {:induction false} RebalanceKeepsOrder<N>(t: Tree<N>, z: Zip<N>)
    requires t.Br?
    ensures InOrder(Rebalance(t, z)) == Before(z) + InOrder(t) + After(z)
    decreases z
  {
    hide Fix;
    FixKeepsOrder(t);
    match z
    case Top =>
    case InLeft(n, up, r) => RebalanceKeepsOrder(Br(n, Fix(t), r), up);
    case InRight(n, l, up) => RebalanceKeepsOrder(Br(n, l, Fix(t)), up);
  }

  // ----- balance -----

  predicate Balanced<N>(t: Tree<N>) {
    t.Br? ==> -1 <= Factor(t) <= 1 && Balanced(t.l) && Balanced(t.r)
  }

  /** The tree around a hole is balanced as long as the hole is filled with height `h`. */
  predicate BalancedAround<N>(z: Zip<N>, h: nat) {
    match z
    case Top => true
    case InLeft(n, up, r) =>
      Balanced(r) && -1 <= h - Height(r) <= 1 && BalancedAround(up, 1 + if h > Height(r) then h else Height(r))
    case InRight(n, l, up) =>
      Balanced(l) && -1 <= Height(l) - h <= 1 && BalancedAround(up, 1 + if Height(l) > h then Height(l) else h)
  }

  lemma {:induction false} PlugBalanced<N>(t: Tree<N>, z: Zip<N>)
    ensures Balanced(Plug(t, z)) <==> Balanced(t) && BalancedAround(z, Height(t))
    decreases z
  {
    hide Balanced, Height;
    match z
    case Top =>
    case InLeft(n, up, r) =>
      PlugBalanced(Br(n, t, r), up);
      BranchBalanced(n, t, r);
    case InRight(n, l, up) =>
      PlugBalanced(Br(n, l, t), up);
      BranchBalanced(n, l, t);
  }

  lemma BranchBalanced<N>(n: N, l: Tree<N>, r: Tree<N>)
    ensures Balanced(Br(n, l, r)) <==> -1 <= Height(l) - Height(r) <= 1 && Balanced(l) && Balanced(r)
    ensures Height(Br(n, l, r)) == 1 + if Height(l) > Height(r) then Height(l) else Height(r)
  {
  }

  lemma RotateLeftBalances<N>(t: Tree<N>)
    requires t.Br? && t.r.Br? && Balanced(t.l) && Balanced(t.r) && Factor(t) == -2 && Factor(t.r) <= 0
    ensures Balanced(RotateLeft(t)) && Height(t) - 1 <= Height(RotateLeft(t)) <= Height(t)
  {
    assert Height(t) == 1 + Height(t.r) && Height(t.r) == 1 + Height(t.r.r);
    assert Height(Br(t.n, t.l, t.r.l)) == 1 + Height(t.r.l);
  }

  lemma RotateRightBalances<N>(t: Tree<N>)
    requires t.Br? && t.l.Br? && Balanced(t.l) && Balanced(t.r) && Factor(t) == 2 && Factor(t.l) >= 0
    ensures Balanced(RotateRight(t)) && Height(t) - 1 <= Height(RotateRight(t)) <= Height(t)
  {
    assert Height(t) == 1 + Height(t.l) && Height(t.l) == 1 + Height(t.l.l);
    assert Height(Br(t.n, t.l.r, t.r)) == 1 + Height(t.l.r);
  }

  lemma DoubleLeftBalances<N>(t: Tree<N>)
    requires t.Br? && t.r.Br? && t.r.l.Br? && Balanced(t.l) && Balanced(t.r) && Factor(t) == -2 && Factor(t.r) == 1
    ensures var u := RotateLeft(t.(r := RotateRight(t.r)));
            Balanced(u) && Height(u) == Height(t) - 1
  {
    var m := t.r.l;
    var a, b := Br(t.n, t.l, m.l), Br(t.r.n, m.r, t.r.r);
    assert RotateLeft(t.(r := RotateRight(t.r))) == Br(m.n, a, b);
    assert Height(t) == 1 + Height(t.r) && Height(t.r) == 1 + Height(m);
    assert Height(m) == Height(t.l) + 1 && Height(t.r.r) == Height(t.l);
    assert Height(a) == 1 + Height(t.l) && Height(b) == 1 + Height(t.r.r);
  }

  lemma DoubleRightBalances<N>(t: Tree<N>)
    requires t.Br? && t.l.Br? && t.l.r.Br? && Balanced(t.l) && Balanced(t.r) && Factor(t) == 2 && Factor(t.l) == -1
    ensures var u := RotateRight(t.(l := RotateLeft(t.l)));
            Balanced(u) && Height(u) == Height(t) - 1
  {
    var m := t.l.r;
    var a, b := Br(t.l.n, t.l.l, m.l), Br(t.n, m.r, t.r);
    assert RotateRight(t.(l := RotateLeft(t.l))) == Br(m.n, a, b);
    assert Height(t) == 1 + Height(t.l) && Height(t.l) == 1 + Height(m);
    assert Height(m) == Height(t.r) + 1 && Height(t.l.l) == Height(t.r);
    assert Height(a) == 1 + Height(t.l.l) && Height(b) == 1 + Height(t.r);
  }

  /** One node whose subtrees are balanced and differ by at most two comes out balanced, and no
      more than one lower. */
  lemma {:induction false} FixBalances<N>(t: Tree<N>)
    requires t.Br? && Balanced(t.l) && Balanced(t.r) && -2 <= Factor(t) <= 2
    ensures Balanced(Fix(t)) && Height(t) - 1 <= Height(Fix(t)) <= Height(t)
    ensures -1 <= Factor(t) <= 1 ==> Fix(t) == t
  {
    hide RotateLeft, RotateRight;
    if Factor(t) < -1 {
      assert t.r.Br?;
      if Factor(t.r) > 0 {
        assert t.r.l.Br?;
        DoubleLeftBalances(t);
      } else {
        RotateLeftBalances(t);
      }
    } else if Factor(t) > 1 {
      assert t.l.Br?;
      if Factor(t.l) < 0 {
        assert t.l.r.Br?;
        DoubleRightBalances(t);
      } else {
        RotateRightBalances(t);
      }
    }
  }

  /** When a subtree has grown or shrunk by at most one level, rebalancing from there up to the
      root restores the balance of the whole tree. */
  lemma {:induction false} RebalanceBalances<N>(t: Tree<N>, z: Zip<N>, h: nat)
    requires t.Br? && Balanced(t.l) && Balanced(t.r) && -2 <= Factor(t) <= 2
    requires BalancedAround(z, h) && -1 <= Height(Fix(t)) - h <= 1
    ensures Balanced(Rebalance(t, z))
    decreases z
  {
    hide Fix, Balanced;
    FixBalances(t);
    match z
    case Top =>
    case InLeft(n, up, r) =>
      StepUp(Fix(t), r, Br(n, Fix(t), r), h);
      RebalanceBalances(Br(n, Fix(t), r), up, 1 + if h > Height(r) then h else Height(r));
    case InRight(n, l, up) =>
      StepUp(l, Fix(t), Br(n, l, Fix(t)), h);
      RebalanceBalances(Br(n, l, Fix(t)), up, 1 + if Height(l) > h then Height(l) else h);
  }

  /** One level up the conditions hold again: the subtree that had height `h` now differs by at
      most one, and so does the tree above it. */
  lemma StepUp<N>(l: Tree<N>, r: Tree<N>, t: Tree<N>, h: nat)
    requires t.Br? && t.l == l && t.r == r && Balanced(l) && Balanced(r)
    requires || (-1 <= h - Height(r) <= 1 && -1 <= Height(l) - h <= 1)
             || (-1 <= Height(l) - h <= 1 && -1 <= Height(r) - h <= 1)
    ensures -2 <= Factor(t) <= 2
    ensures -1 <= h - Height(r) <= 1 && -1 <= Height(l) - h <= 1 ==>
              -1 <= Height(Fix(t)) - (1 + if h > Height(r) then h else Height(r)) <= 1
    ensures -1 <= Height(l) - h <= 1 && -1 <= Height(r) - h <= 1 ==>
              -1 <= Height(Fix(t)) - (1 + if Height(l) > h then Height(l) else h) <= 1
  {
    hide Fix, Balanced;
    FixBalances(t);
    assert Height(t) == 1 + if Height(l) > Height(r) then Height(l) else Height(r);
  }

  // ----- zippers on zippers -----

  /** The hole of `inner` lies in the hole of `outer`. */
  function Under<N>(inner: Zip<N>, outer: Zip<N>): Zip<N> {
    match inner
    case Top => outer
    case InLeft(n, up, r) => InLeft(n, Under(up, outer), r)
    case InRight(n, l, up) => InRight(n, l, Under(up, outer))
  }

  lemma {:induction false} PlugUnder<N>(t: Tree<N>, inner: Zip<N>, outer: Zip<N>)
    ensures Plug(t, Under(inner, outer)) == Plug(Plug(t, inner), outer)
    ensures Before(Under(inner, outer)) == Before(outer) + Before(inner)
    ensures After(Under(inner, outer)) == After(inner) + After(outer)
    decreases inner
  {
    match inner
    case Top =>
    case InLeft(n, up, r) => PlugUnder(Br(n, t, r), up, outer);
    case InRight(n, l, up) => PlugUnder(Br(n, l, t), up, outer);
  }

  /** The tree one level above the hole. */
  function Fill<N>(t: Tree<N>, z: Zip<N>): Tree<N>
    requires !z.Top?
  {
    if z.InLeft? then Br(z.n, t, z.r) else Br(z.n, z.l, t)
  }

  /** Filling the hole with a balanced tree one level higher or lower than before, and
      rebalancing from the node above the hole, gives a balanced tree. */
  lemma {:induction false} ResizeBalances<N>(t: Tree<N>, z: Zip<N>, h: nat)
    requires !z.Top? && Balanced(t) && BalancedAround(z, h) && -1 <= Height(t) - h <= 1
    ensures Balanced(Rebalance(Fill(t, z), z.up))
  {
    hide Balanced, Fix, Rebalance, Height;
    match z
    case InLeft(n, up, r) =>
      StepUp(t, r, Br(n, t, r), h);
      RebalanceBalances(Br(n, t, r), up, 1 + if h > Height(r) then h else Height(r));
    case InRight(n, l, up) =>
      StepUp(l, t, Br(n, l, t), h);
      RebalanceBalances(Br(n, l, t), up, 1 + if Height(l) > h then Height(l) else h);
  }

  /** Balance does not depend on which node sits on the path. */
  lemma {:induction false} BalancedAroundRename<N>(w: Zip<N>, n: N, m: N, up: Zip<N>, r: Tree<N>, h: nat)
    requires BalancedAround(Under(w, InLeft(n, up, r)), h)
    ensures BalancedAround(Under(w, InLeft(m, up, r)), h)
    decreases w
  {
    match w
    case Top =>
    case InLeft(_, wup, s) => BalancedAroundRename(wup, n, m, up, r, 1 + if h > Height(s) then h else Height(s));
    case InRight(_, s, wup) => BalancedAroundRename(wup, n, m, up, r, 1 + if Height(s) > h then Height(s) else h);
  }
}
