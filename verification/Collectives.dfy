/** The collectives on vectors of 64-bit words: prefix sum, double prefix sum, sum and
  maximum over all ranks.  Sums wrap around at 2^64. */
module Collectives {
  import opened Confluence
  import opened Rounds
  import opened Groups
  import opened Doubling

  const TWO_64: nat := 0x1_0000_0000_0000_0000

  type Word = x: nat | x < TWO_64

  type Vec = seq<Word>

  /** 64-bit addition. */
  function Add(a: Word, b: Word): Word {
    if a + b < TWO_64 then a + b else a + b - TWO_64
  }

  function At(v: Vec, c: nat): Word { if c < |v| then v[c] else 0 }

  function AddVec(v: Vec, w: Vec): (sum: Vec)
    ensures |sum| == |v| && forall c :: 0 <= c < |v| ==> sum[c] == Add(v[c], At(w, c))
  {
    seq(|v|, c requires 0 <= c < |v| => Add(v[c], At(w, c)))
  }

  function MaxVec(v: Vec, w: Vec): (max: Vec)
    ensures |max| == |v| && forall c :: 0 <= c < |v| ==> max[c] == if At(w, c) > v[c] then At(w, c) else v[c]
  {
    seq(|v|, c requires 0 <= c < |v| => if At(w, c) > v[c] then At(w, c) else v[c])
  }

  /** The merge loops of the collectives, in place on a rank's buffer. */
  method AddInto(buf: array<Word>, recv: Vec)
    requires |recv| == buf.Length
    modifies buf
    ensures buf[..] == AddVec(old(buf[..]), recv)
  {
    for i := 0 to buf.Length
      invariant forall c :: 0 <= c < i ==> buf[c] == Add(old(buf[c]), recv[c])
      invariant forall c :: i <= c < buf.Length ==> buf[c] == old(buf[c])
    {
      buf[i] := Add(buf[i], recv[i]);
    }
  }

  method MaxInto(buf: array<Word>, recv: Vec)
    requires |recv| == buf.Length
    modifies buf
    ensures buf[..] == MaxVec(old(buf[..]), recv)
  {
    for i := 0 to buf.Length
      invariant forall c :: 0 <= c < i ==> buf[c] == if recv[c] > old(buf[c]) then recv[c] else old(buf[c])
      invariant forall c :: i <= c < buf.Length ==> buf[c] == old(buf[c])
    {
      if recv[i] > buf[i] {
        buf[i] := recv[i];
      }
    }
  }

  // ----- the rounds -----

  function Same(v: Vec): Vec { v }

  function MergeScan(v: Vec, l: Option<Vec>, r: Option<Vec>): Vec {
    if l.Some? then AddVec(v, l.value) else v
  }

  function ScanKind(): Kind<Vec, Vec> {
    Kind(false, Same, Same, MergeScan)
  }

  datatype Sums = Sums(ltr: Vec, rtl: Vec)

  function Ltr(v: Sums): Vec { v.ltr }

  function Rtl(v: Sums): Vec { v.rtl }

  function MergeDoubleScan(v: Sums, l: Option<Vec>, r: Option<Vec>): Sums {
    Sums(if l.Some? then AddVec(v.ltr, l.value) else v.ltr, if r.Some? then AddVec(v.rtl, r.value) else v.rtl)
  }

  function DoubleScanKind(): Kind<Sums, Vec> {
    Kind(true, Rtl, Ltr, MergeDoubleScan)
  }

  function MergeMax(v: Vec, l: Option<Vec>, r: Option<Vec>): Vec {
    var w := if l.Some? then MaxVec(v, l.value) else v;
    if r.Some? then MaxVec(w, r.value) else w
  }

  function MaxKind(): Kind<Vec, Vec> {
    Kind(true, Same, Same, MergeMax)
  }

  // ----- what they compute -----

  /** The sum of component `c` over positions `lo` to `hi - 1`, without wrap-around. */
  ghost function SumOf(sub: seq<Vec>, c: nat, lo: nat, hi: nat): nat
    requires lo <= hi <= |sub|
    decreases hi
  {
    if hi == lo then 0 else SumOf(sub, c, lo, hi - 1) + At(sub[hi - 1], c)
  }

  ghost predicate SameLength(sub: seq<Vec>, count: nat) {
    forall i :: 0 <= i < |sub| ==> |sub[i]| == count
  }

  ghost function Component(sub: seq<Vec>, c: nat): (s: seq<Word>)
    ensures |s| == |sub| && forall i :: 0 <= i < |sub| ==> s[i] == At(sub[i], c)
  {
    seq(|sub|, i requires 0 <= i < |sub| => At(sub[i], c))
  }

  lemma AddIsAssociative()
    ensures Associative(Add)
  {
    forall a: Word, b: Word, c: Word ensures Add(Add(a, b), c) == Add(a, Add(b, c)) {}
  }

  lemma AddIsModular(sum: nat, x: Word)
    ensures Add(sum % TWO_64, x) == (sum + x) % TWO_64
  {
    var q := sum / TWO_64;
    assert sum + x == q * TWO_64 + (sum % TWO_64 + x);
  }

  lemma {:induction false} FoldIsSum(sub: seq<Vec>, c: nat, lo: nat, hi: nat)
    requires lo < hi <= |sub|
    ensures Fold(Add, Component(sub, c), lo, hi) == SumOf(sub, c, lo, hi) % TWO_64
    decreases hi
  {
    if hi > lo + 1 {
      FoldIsSum(sub, c, lo, hi - 1);
      AddIsModular(SumOf(sub, c, lo, hi - 1), At(sub[hi - 1], c));
    } else {
      assert SumOf(sub, c, lo, hi) == At(sub[lo], c);
    }
  }

  lemma SumSplits(sub: seq<Vec>, c: nat, lo: nat, mid: nat, hi: nat)
    requires lo <= mid <= hi <= |sub|
    ensures SumOf(sub, c, lo, hi) == SumOf(sub, c, lo, mid) + SumOf(sub, c, mid, hi)
    decreases hi
  {
    if hi > mid {
      SumSplits(sub, c, lo, mid, hi - 1);
    }
  }

  lemma ScanKindLaws(count: nat, c: nat)
    requires c < count
    ensures var good, rOf := (v: Vec) => |v| == count, (v: Vec) => At(v, c);
            ScanLaw(ScanKind(), good, rOf, Add) && KeepsGood(ScanKind(), good)
  {
    hide Add, Associative;
    AddIsAssociative();
    AddCommutes();
  }

  lemma AddCommutes()
    ensures forall a: Word, b: Word :: Add(a, b) == Add(b, a)
  {
  }

  /** Prefix sum: position `i` ends with the sum over positions 0 to `i`, modulo 2^64. */
  lemma ScanSum(member: seq<nat>, id: nat, sub: seq<Vec>, count: nat, i: nat, c: nat)
    requires |sub| == |member| && SameLength(sub, count) && i < |sub| && c < count
    ensures var out := RunGroup(HopRounds(member, id, ScanKind(), 0), sub);
            |out[i]| == count && out[i][c] == SumOf(sub, c, 0, i + 1) % TWO_64
  {
    hide RunGroup, HopRounds;
    ScanKindLaws(count, c);
    var good, rOf := (v: Vec) => |v| == count, (v: Vec) => At(v, c);
    hide Add, ScanLaw, KeepsGood, ScanKind;
    ScanAll(member, id, ScanKind(), 0, sub, good, rOf, Add, Component(sub, c));
    FoldIsSum(sub, c, 0, i + 1);
  }

  ghost function BothWays(sub: seq<Vec>): (s: seq<Sums>)
    ensures |s| == |sub| && forall i :: 0 <= i < |sub| ==> s[i] == Sums(sub[i], sub[i])
  {
    seq(|sub|, i requires 0 <= i < |sub| => Sums(sub[i], sub[i]))
  }

  lemma DoubleScanKindLaws(count: nat, c: nat)
    requires c < count
    ensures var good := (v: Sums) => |v.ltr| == count && |v.rtl| == count;
            && ScanLaw(DoubleScanKind(), good, (v: Sums) => At(v.ltr, c), Add)
            && ScanBackLaw(DoubleScanKind(), good, (v: Sums) => At(v.rtl, c), Add)
            && KeepsGood(DoubleScanKind(), good)
  {
    hide Add, Associative;
    AddIsAssociative();
    AddCommutes();
  }

  /** Double prefix sum: position `i` ends with the sums up to it and from it on. */
  lemma DoubleScanSum(member: seq<nat>, id: nat, sub: seq<Vec>, count: nat, i: nat, c: nat)
    requires |sub| == |member| && SameLength(sub, count) && i < |sub| && c < count
    ensures var out := RunGroup(HopRounds(member, id, DoubleScanKind(), 0), BothWays(sub));
            && |out[i].ltr| == |out[i].rtl| == count
            && out[i].ltr[c] == SumOf(sub, c, 0, i + 1) % TWO_64
            && out[i].rtl[c] == SumOf(sub, c, i, |sub|) % TWO_64
  {
    hide RunGroup, HopRounds;
    DoubleScanKindLaws(count, c);
    hide Add, ScanLaw, ScanBackLaw, KeepsGood, DoubleScanKind;
    var good := (v: Sums) => |v.ltr| == count && |v.rtl| == count;
    var rOf, lOf := (v: Sums) => At(v.ltr, c), (v: Sums) => At(v.rtl, c);
    var init := Component(sub, c);
    ScanAll(member, id, DoubleScanKind(), 0, BothWays(sub), good, rOf, Add, init);
    ScanBackAll(member, id, DoubleScanKind(), 0, BothWays(sub), good, lOf, Add, init);
    FoldIsSum(sub, c, 0, i + 1);
    FoldIsSum(sub, c, i, |sub|);
  }

  /** The 64-bit expression `left + right - own`. */
  function SumMinusOwn(left: Word, right: Word, own: Word): Word {
    var both := Add(left, right);
    if both >= own then both - own else both + TWO_64 - own
  }

  lemma ModUnique(t: nat, k: int, r: nat)
    requires r < TWO_64 && t == TWO_64 * k + r
    ensures t % TWO_64 == r
  {
  }

  lemma SumMinusOwnIsModular(a: nat, x: Word, b: nat)
    ensures SumMinusOwn((a + x) % TWO_64, (x + b) % TWO_64, x) == (a + x + b) % TWO_64
  {
    var l, r := (a + x) % TWO_64, (x + b) % TWO_64;
    var p, q := (a + x) / TWO_64, (x + b) / TWO_64;
    var result := SumMinusOwn(l, r, x);
    var k := if l + r - x < 0 then -1 else if l + r - x < TWO_64 then 0 else 1;
    assert l + r - x == TWO_64 * k + result;
    assert a + x == TWO_64 * p + l && x + b == TWO_64 * q + r;
    assert a + x + b == TWO_64 * (p + q + k) + result;
    ModUnique(a + x + b, p + q + k, result);
  }

  /** Sum over all ranks: adding both scans and subtracting the rank's own contribution, which
      both of them count, gives every rank the total modulo 2^64, even when they wrap. */
  lemma AllreduceSum(member: seq<nat>, id: nat, sub: seq<Vec>, count: nat, i: nat, c: nat)
    requires |sub| == |member| && SameLength(sub, count) && i < |sub| && c < count
    ensures var out := RunGroup(HopRounds(member, id, DoubleScanKind(), 0), BothWays(sub));
            && |out[i].ltr| == |out[i].rtl| == count
            && SumMinusOwn(out[i].ltr[c], out[i].rtl[c], sub[i][c]) == SumOf(sub, c, 0, |sub|) % TWO_64
  {
    hide RunGroup, HopRounds;
    hide SumMinusOwn;
    DoubleScanSum(member, id, sub, count, i, c);
    var a, x, b := SumOf(sub, c, 0, i), At(sub[i], c), SumOf(sub, c, i + 1, |sub|);
    SumSplits(sub, c, 0, i, |sub|);
    SumSplits(sub, c, i, i + 1, |sub|);
    assert SumOf(sub, c, i, i + 1) == x && SumOf(sub, c, 0, i + 1) == a + x;
    SumMinusOwnIsModular(a, x, b);
  }

  /** `v` is the componentwise maximum over positions `lo` to `hi - 1`. */
  ghost predicate IsMax(sub: seq<Vec>, count: nat, v: Vec, lo: int, hi: int) {
    && 0 <= lo < hi <= |sub| && |v| == count
    && forall c :: 0 <= c < count ==>
         && (forall j :: lo <= j < hi ==> At(sub[j], c) <= v[c])
         && (exists j :: lo <= j < hi && At(sub[j], c) == v[c])
  }

  lemma MaxJoins(sub: seq<Vec>, count: nat, v: Vec, a: int, b: int, w: Vec, c: int, d: int)
    requires IsMax(sub, count, v, a, b) && IsMax(sub, count, w, c, d)
    requires c <= a <= d <= b || a <= c <= b <= d
    ensures IsMax(sub, count, MaxVec(v, w), Min(a, c), Max(b, d))
  {
  }

  /** Maximum over all ranks, component by component. */
  lemma AllreduceMax(member: seq<nat>, id: nat, sub: seq<Vec>, count: nat, i: nat)
    requires |sub| == |member| && SameLength(sub, count) && i < |sub|
    ensures IsMax(sub, count, RunGroup(HopRounds(member, id, MaxKind(), 0), sub)[i], 0, |sub|)
  {
    hide RunGroup, HopRounds;
    var rep := (v: Vec, lo: int, hi: int) => IsMax(sub, count, v, lo, hi);
    var good := (v: Vec) => true;
    assert MergeJoins(MaxKind(), good, MaxVec);
    assert Joined(rep, sub, Pow2(0)) by {
      forall j | 0 <= j < |sub| ensures IsMax(sub, count, sub[j], j, j + 1) {}
    }
    hide IsMax, MaxVec, MergeJoins;
    forall v, a, b, w, c, d {:trigger MaxVec(v, w), IsMax(sub, count, v, a, b), IsMax(sub, count, w, c, d)} |
      IsMax(sub, count, v, a, b) && IsMax(sub, count, w, c, d) && (c <= a <= d <= b || a <= c <= b <= d)
      ensures IsMax(sub, count, MaxVec(v, w), Min(a, c), Max(b, d))
    {
      MaxJoins(sub, count, v, a, b, w, c, d);
    }
    JoinAll(member, id, MaxKind(), 0, sub, good, MaxVec, rep);
  }
}
