/** The bitonic sort of the group library, on the sequence of values that the ranks hold.

  The merge works for any number of values, not only powers of two: comparing position i
  with position i + h, where h is the largest power of two below the length, is a merge of
  2h values whose missing ones at the high end would never move.  The proof looks at the
  values through thresholds: for every value v, which positions hold something above v? */
module Bitonic {
  import opened Rounds

  /** A three-way comparison: negative, zero or positive. */
  ghost predicate TotalOrder<T(!new)>(cmp: (T, T) -> int) {
    && (forall a, b :: cmp(a, b) < 0 <==> cmp(b, a) > 0)
    && (forall a, b, c :: cmp(a, b) <= 0 && cmp(b, c) <= 0 ==> cmp(a, c) <= 0)
  }

  /** The order to sort by: ascending under `cmp`, or descending. */
  function Ord<T>(cmp: (T, T) -> int, ascending: bool): (T, T) -> int {
    if ascending then cmp else (a, b) => cmp(b, a)
  }

  // ----- compare and exchange -----

  /** What the lower rank of a pair keeps. */
  function KeepLow<T>(cmp: (T, T) -> int, ascending: bool, own: T, other: T): T {
    var c := cmp(other, own);
    if (ascending && c < 0) || (!ascending && c > 0) then other else own
  }

  /** What the upper rank of a pair keeps. */
  function KeepHigh<T>(cmp: (T, T) -> int, ascending: bool, own: T, other: T): T {
    var c := cmp(other, own);
    if (ascending && c > 0) || (!ascending && c < 0) then other else own
  }

  /** The largest hop whose distance is below `n`. */
  function HopBelow(n: nat, k: nat): (h: nat)
    requires Pow2(k) < n
    ensures k <= h && Pow2(h) < n <= 2 * Pow2(h)
    decreases n - Pow2(k)
  {
    if 2 * Pow2(k) >= n then k else assert Pow2(k + 1) == 2 * Pow2(k); HopBelow(n, k + 1)
  }

  function Half(n: nat): (h: nat)
    requires n > 1
    ensures 0 < h < n <= 2 * h
  {
    Pow2(HopBelow(n, 0))
  }

  /** What position `i` holds after all pairs (i, i + h) have compared and exchanged. */
  function CleanAt<T>(cmp: (T, T) -> int, ascending: bool, s: seq<T>, h: nat, i: nat): T
    requires i < |s|
  {
    if i + h < |s| then KeepLow(cmp, ascending, s[i], s[i + h])
    else if i >= h then KeepHigh(cmp, ascending, s[i], s[i - h])
    else s[i]
  }

  function HalfClean<T>(cmp: (T, T) -> int, ascending: bool, s: seq<T>, h: nat): (out: seq<T>)
    ensures |out| == |s| && forall i :: 0 <= i < |s| ==> out[i] == CleanAt(cmp, ascending, s, h, i)
  {
    seq(|s|, i requires 0 <= i < |s| => CleanAt(cmp, ascending, s, h, i))
  }

  function BitonicMerge<T>(cmp: (T, T) -> int, ascending: bool, s: seq<T>): (out: seq<T>)
    ensures |out| == |s|
    decreases |s|
  {
    if |s| <= 1 then s
    else
      var h := Half(|s|);
      var x := HalfClean(cmp, ascending, s, h);
      BitonicMerge(cmp, ascending, x[..h]) + BitonicMerge(cmp, ascending, x[h..])
  }

  function BitonicSort<T>(cmp: (T, T) -> int, ascending: bool, s: seq<T>): (out: seq<T>)
    ensures |out| == |s|
    decreases |s|
  {
    if |s| <= 1 then s
    else
      var mid := |s| / 2;
      BitonicMerge(cmp, ascending,
        BitonicSort(cmp, !ascending, s[..mid]) + BitonicSort(cmp, ascending, s[mid..]))
  }

  // ----- a permutation -----

  /** The first `k` pairs have exchanged. */
  ghost function PartlyAt<T>(cmp: (T, T) -> int, ascending: bool, s: seq<T>, h: nat, k: nat, i: nat): T
    requires i < |s| && k <= |s| - h
  {
    if i < k then KeepLow(cmp, ascending, s[i], s[i + h])
    else if h <= i < h + k then KeepHigh(cmp, ascending, s[i], s[i - h])
    else s[i]
  }

  ghost function Partly<T>(cmp: (T, T) -> int, ascending: bool, s: seq<T>, h: nat, k: nat): (out: seq<T>)
    requires k <= |s| - h
    ensures |out| == |s| && forall i :: 0 <= i < |s| ==> out[i] == PartlyAt(cmp, ascending, s, h, k, i)
  {
    seq(|s|, i requires 0 <= i < |s| => PartlyAt(cmp, ascending, s, h, k, i))
  }

  /** Both ranks of a pair agree on whether to swap. */
  lemma PairAgrees<T(!new)>(cmp: (T, T) -> int, ascending: bool, low: T, high: T)
    requires TotalOrder(cmp)
    ensures var l, h := KeepLow(cmp, ascending, low, high), KeepHigh(cmp, ascending, high, low);
            (l == low && h == high) || (l == high && h == low)
  {
    assert cmp(low, high) < 0 <==> cmp(high, low) > 0;
  }

  lemma SwapKeepsMultiset<T>(s: seq<T>, i: nat, j: nat, t: seq<T>)
    requires i < j < |s| == |t|
    requires t == s || t == s[i := s[j]][j := s[i]]
    ensures multiset(t) == multiset(s)
  {
  }

  lemma {:induction false} PartlyKeepsMultiset<T(!new)>(cmp: (T, T) -> int, ascending: bool, s: seq<T>, h: nat, k: nat)
    requires TotalOrder(cmp) && 0 < h <= |s| <= 2 * h && k <= |s| - h
    ensures multiset(Partly(cmp, ascending, s, h, k)) == multiset(s)
    decreases k
  {
    hide TotalOrder, KeepLow, KeepHigh;
    if k == 0 {
      assert Partly(cmp, ascending, s, h, k) == s;
    } else {
      var i := k - 1;
      var p, q := Partly(cmp, ascending, s, h, i), Partly(cmp, ascending, s, h, k);
      PartlyKeepsMultiset(cmp, ascending, s, h, i);
      PairAgrees(cmp, ascending, s[i], s[i + h]);
      assert forall j :: 0 <= j < |s| && j != i && j != i + h ==> q[j] == p[j];
      assert q == p || q == p[i := p[i + h]][i + h := p[i]];
      SwapKeepsMultiset(p, i, i + h, q);
    }
  }

  /** An exchange round loses nothing. */
  lemma HalfCleanPermutes<T(!new)>(cmp: (T, T) -> int, ascending: bool, s: seq<T>, h: nat)
    requires TotalOrder(cmp) && 0 < h <= |s| <= 2 * h
    ensures multiset(HalfClean(cmp, ascending, s, h)) == multiset(s)
  {
    PartlyKeepsMultiset(cmp, ascending, s, h, |s| - h);
    assert HalfClean(cmp, ascending, s, h) == Partly(cmp, ascending, s, h, |s| - h);
  }

  lemma {:induction false} MergePermutes<T(!new)>(cmp: (T, T) -> int, ascending: bool, s: seq<T>)
    requires TotalOrder(cmp)
    ensures multiset(BitonicMerge(cmp, ascending, s)) == multiset(s)
    decreases |s|
  {
    hide *;
    MergeIs(cmp, ascending, s);
    if |s| > 1 {
      var h := Half(|s|);
      var x := HalfClean(cmp, ascending, s, h);
      HalfCleanPermutes(cmp, ascending, s, h);
      MergePermutes(cmp, ascending, x[..h]);
      MergePermutes(cmp, ascending, x[h..]);
      assert x == x[..h] + x[h..];
    }
  }

  lemma MergeIs<T>(cmp: (T, T) -> int, ascending: bool, s: seq<T>)
    ensures |s| <= 1 ==> BitonicMerge(cmp, ascending, s) == s
    ensures |s| > 1 ==>
              var h := Half(|s|); var x := HalfClean(cmp, ascending, s, h);
              BitonicMerge(cmp, ascending, s)
              == BitonicMerge(cmp, ascending, x[..h]) + BitonicMerge(cmp, ascending, x[h..])
  {
  }

  lemma {:induction false} SortPermutes<T(!new)>(cmp: (T, T) -> int, ascending: bool, s: seq<T>)
    requires TotalOrder(cmp)
    ensures multiset(BitonicSort(cmp, ascending, s)) == multiset(s)
    decreases |s|
  {
    hide *;
    SortIs(cmp, ascending, s);
    if |s| > 1 {
      var mid := |s| / 2;
      SortPermutes(cmp, !ascending, s[..mid]);
      SortPermutes(cmp, ascending, s[mid..]);
      var t := BitonicSort(cmp, !ascending, s[..mid]) + BitonicSort(cmp, ascending, s[mid..]);
      MergePermutes(cmp, ascending, t);
      assert s == s[..mid] + s[mid..];
    }
  }

  lemma SortIs<T>(cmp: (T, T) -> int, ascending: bool, s: seq<T>)
    ensures |s| <= 1 ==> BitonicSort(cmp, ascending, s) == s
    ensures |s| > 1 ==>
              var mid := |s| / 2;
              BitonicSort(cmp, ascending, s) == BitonicMerge(cmp, ascending,
                BitonicSort(cmp, !ascending, s[..mid]) + BitonicSort(cmp, ascending, s[mid..]))
  {
  }

  // ----- thresholds -----

  ghost predicate Above<T>(ord: (T, T) -> int, v: T, x: T) {
    ord(x, v) > 0
  }

  ghost function Bits<T>(ord: (T, T) -> int, v: T, s: seq<T>): (b: seq<bool>)
    ensures |b| == |s| && forall i :: 0 <= i < |s| ==> b[i] == Above(ord, v, s[i])
  {
    seq(|s|, i requires 0 <= i < |s| => Above(ord, v, s[i]))
  }

  /** Exactly the positions from `a` to `e - 1` have bit `bit`. */
  ghost predicate Run(b: seq<bool>, bit: bool, a: int, e: int) {
    0 <= a <= e <= |b| && forall i :: 0 <= i < |b| ==> (b[i] == bit <==> a <= i < e)
  }

  ghost predicate HasRun(b: seq<bool>, bit: bool) {
    exists a, e :: Run(b, bit, a, e)
  }

  ghost predicate IsPow2(n: nat) {
    exists k: nat :: n == Pow2(k)
  }

  /** The bits below the threshold form one run, or the length is a power of two and the bits
      above it form one run. */
  ghost predicate BitonicBits(b: seq<bool>) {
    HasRun(b, false) || (IsPow2(|b|) && HasRun(b, true))
  }

  ghost predicate SortedBits(b: seq<bool>) {
    forall i, j :: 0 <= i <= j < |b| && b[i] ==> b[j]
  }

  /** An exchange takes the conjunction of the two bits down and the disjunction up. */
  ghost function CleanBit(b: seq<bool>, h: nat, i: nat): bool
    requires i < |b|
  {
    if i + h < |b| then b[i] && b[i + h] else if i >= h then b[i] || b[i - h] else b[i]
  }

  ghost function CleanBits(b: seq<bool>, h: nat): (out: seq<bool>)
    ensures |out| == |b| && forall i :: 0 <= i < |b| ==> out[i] == CleanBit(b, h, i)
  {
    seq(|b|, i requires 0 <= i < |b| => CleanBit(b, h, i))
  }

  lemma KeepBits<T(!new)>(cmp: (T, T) -> int, ascending: bool, v: T, own: T, other: T)
    requires TotalOrder(cmp)
    ensures var ord := Ord(cmp, ascending);
            && Above(ord, v, KeepLow(cmp, ascending, own, other)) == (Above(ord, v, own) && Above(ord, v, other))
            && Above(ord, v, KeepHigh(cmp, ascending, own, other)) == (Above(ord, v, own) || Above(ord, v, other))
  {
  }

  lemma HalfCleanBits<T(!new)>(cmp: (T, T) -> int, ascending: bool, v: T, s: seq<T>, h: nat)
    requires TotalOrder(cmp) && 0 < h <= |s| <= 2 * h
    ensures var ord := Ord(cmp, ascending);
            Bits(ord, v, HalfClean(cmp, ascending, s, h)) == CleanBits(Bits(ord, v, s), h)
  {
    hide TotalOrder, KeepLow, KeepHigh, Above, Ord;
    var ord := Ord(cmp, ascending);
    var x := HalfClean(cmp, ascending, s, h);
    forall i | 0 <= i < |s| ensures Above(ord, v, x[i]) == CleanBits(Bits(ord, v, s), h)[i] {
      if i + h < |s| {
        KeepBits(cmp, ascending, v, s[i], s[i + h]);
      } else if i >= h {
        KeepBits(cmp, ascending, v, s[i], s[i - h]);
      }
    }
  }

  /** Cleaning a bitonic sequence leaves two bitonic halves, and either the lower half is all
      below the threshold or the upper half is all above it. */
  lemma CleanIsBitonic(b: seq<bool>, h: nat, k: nat)
    requires 0 < h < |b| <= 2 * h && h == Pow2(k) && BitonicBits(b)
    ensures var x := CleanBits(b, h);
            && BitonicBits(x[..h]) && BitonicBits(x[h..])
            && (HasRunOf(x[..h], false) || HasRunOf(x[h..], true))
  {
    var x := CleanBits(b, h);
    if HasRun(b, false) {
      var a, e :| Run(b, false, a, e);
      CleanZeros(b, h, k, a, e);
    } else {
      var a, e :| Run(b, true, a, e);
      Pow2Between(|b|, k);
      CleanOnes(b, h, k, a, e);
    }
  }

  /** All bits equal `bit`. */
  ghost predicate HasRunOf(b: seq<bool>, bit: bool) {
    forall i :: 0 <= i < |b| ==> b[i] == bit
  }

  lemma RunIsBitonic(b: seq<bool>, bit: bool, a: int, e: int, k: nat)
    requires Run(b, bit, a, e) && (bit ==> |b| == Pow2(k))
    ensures BitonicBits(b)
  {
  }

  lemma CleanZeros(b: seq<bool>, h: nat, k: nat, a: int, e: int)
    requires 0 < h < |b| <= 2 * h && h == Pow2(k) && Run(b, false, a, e)
    ensures var x := CleanBits(b, h);
            && BitonicBits(x[..h]) && BitonicBits(x[h..])
            && (HasRunOf(x[..h], false) || HasRunOf(x[h..], true))
  {
    hide BitonicBits, Pow2;
    var x := CleanBits(b, h);
    var lo, hi := x[..h], x[h..];
    if e <= h {
      RunIsBitonic(lo, false, a, e, k);
      RunIsBitonic(hi, false, 0, 0, k);
    } else if a >= h {
      RunIsBitonic(lo, false, a - h, e - h, k);
      RunIsBitonic(hi, false, 0, 0, k);
    } else if e - h >= a {
      RunIsBitonic(lo, false, 0, h, k);
      RunIsBitonic(hi, false, a, e - h, k);
    } else {
      RunIsBitonic(lo, true, e - h, a, k);
      RunIsBitonic(hi, false, 0, 0, k);
    }
  }

  lemma CleanOnes(b: seq<bool>, h: nat, k: nat, a: int, e: int)
    requires 0 < h && |b| == 2 * h && h == Pow2(k) && Run(b, true, a, e)
    ensures var x := CleanBits(b, h);
            && BitonicBits(x[..h]) && BitonicBits(x[h..])
            && (HasRunOf(x[..h], false) || HasRunOf(x[h..], true))
  {
    hide BitonicBits, Pow2;
    var x := CleanBits(b, h);
    var lo, hi := x[..h], x[h..];
    if e <= h {
      RunIsBitonic(lo, true, 0, 0, k);
      RunIsBitonic(hi, true, a, e, k);
    } else if a >= h {
      RunIsBitonic(lo, true, 0, 0, k);
      RunIsBitonic(hi, true, a - h, e - h, k);
    } else if e - h >= a {
      RunIsBitonic(lo, true, a, e - h, k);
      RunIsBitonic(hi, true, 0, h, k);
    } else {
      RunIsBitonic(lo, true, 0, 0, k);
      RunIsBitonic(hi, false, e - h, a, k);
    }
  }

  lemma Pow2Monotone(j: nat, k: nat)
    requires j < k
    ensures 2 * Pow2(j) <= Pow2(k)
  {
  }

  lemma Pow2Between(n: nat, k: nat)
    requires IsPow2(n) && Pow2(k) < n <= 2 * Pow2(k)
    ensures n == 2 * Pow2(k)
  {
    var j: nat :| n == Pow2(j);
    if j <= k {
      if j < k { Pow2Monotone(j, k); }
      assert false;
    } else if j > k + 1 {
      Pow2Monotone(k + 1, j);
    }
  }

  /** Through every threshold, the merge of a bitonic sequence is sorted. */
  lemma {:induction false} MergeSortsBits<T(!new)>(cmp: (T, T) -> int, ascending: bool, v: T, s: seq<T>)
    requires TotalOrder(cmp) && BitonicBits(Bits(Ord(cmp, ascending), v, s))
    ensures SortedBits(Bits(Ord(cmp, ascending), v, BitonicMerge(cmp, ascending, s)))
    decreases |s|
  {
    if |s| > 1 {
      hide TotalOrder, Above, Ord, HalfClean, BitonicBits, CleanBits, SortedBits, HasRunOf;
      var ord := Ord(cmp, ascending);
      var h := Half(|s|);
      var x := HalfClean(cmp, ascending, s, h);
      HalfCleanBits(cmp, ascending, v, s, h);
      CleanIsBitonic(Bits(ord, v, s), h, HopBelow(|s|, 0));
      BitsSlice(ord, v, x, h);
      MergeSortsBits(cmp, ascending, v, x[..h]);
      MergeSortsBits(cmp, ascending, v, x[h..]);
      MergeKeepsUniform(cmp, ascending, v, x[..h], false);
      MergeKeepsUniform(cmp, ascending, v, x[h..], true);
      var lo, hi := BitonicMerge(cmp, ascending, x[..h]), BitonicMerge(cmp, ascending, x[h..]);
      BitsSlice(ord, v, lo + hi, h);
      assert (lo + hi)[..h] == lo && (lo + hi)[h..] == hi;
      SortedHalves(Bits(ord, v, lo), Bits(ord, v, hi));
    }
  }

  lemma BitsSlice<T>(ord: (T, T) -> int, v: T, s: seq<T>, h: nat)
    requires h <= |s|
    ensures Bits(ord, v, s[..h]) == Bits(ord, v, s)[..h] && Bits(ord, v, s[h..]) == Bits(ord, v, s)[h..]
    ensures Bits(ord, v, s) == Bits(ord, v, s[..h]) + Bits(ord, v, s[h..])
  {
    hide Above;
  }

  lemma SortedHalves(lo: seq<bool>, hi: seq<bool>)
    requires SortedBits(lo) && SortedBits(hi) && (HasRunOf(lo, false) || HasRunOf(hi, true))
    ensures SortedBits(lo + hi)
  {
  }

  lemma MergeKeepsUniform<T(!new)>(cmp: (T, T) -> int, ascending: bool, v: T, s: seq<T>, bit: bool)
    requires TotalOrder(cmp)
    ensures var ord := Ord(cmp, ascending);
            HasRunOf(Bits(ord, v, s), bit) ==> HasRunOf(Bits(ord, v, BitonicMerge(cmp, ascending, s)), bit)
  {
    hide TotalOrder, BitonicMerge, Above, Ord;
    var ord := Ord(cmp, ascending);
    var out := BitonicMerge(cmp, ascending, s);
    MergePermutes(cmp, ascending, s);
    if HasRunOf(Bits(ord, v, s), bit) {
      forall i | 0 <= i < |out| ensures Bits(ord, v, out)[i] == bit {
        assert out[i] in multiset(s);
        assert out[i] in s;
        var j :| 0 <= j < |s| && s[j] == out[i];
        assert Bits(ord, v, s)[j] == bit;
      }
    }
  }

  // ----- sorted -----

  ghost predicate Sorted<T>(ord: (T, T) -> int, s: seq<T>) {
    forall i, j :: 0 <= i <= j < |s| ==> ord(s[i], s[j]) <= 0
  }

  lemma BitsSorted<T(!new)>(cmp: (T, T) -> int, ascending: bool, s: seq<T>)
    requires TotalOrder(cmp)
    requires forall v :: SortedBits(Bits(Ord(cmp, ascending), v, s))
    ensures Sorted(Ord(cmp, ascending), s)
  {
    var ord := Ord(cmp, ascending);
    forall i, j | 0 <= i <= j < |s| ensures ord(s[i], s[j]) <= 0 {
      assert SortedBits(Bits(ord, s[j], s));
      assert !Above(ord, s[j], s[j]);
    }
  }

  /** Bits that are first all true and then all false switch somewhere. */
  lemma {:induction false} Switch(b: seq<bool>) returns (a: nat)
    requires forall i, j :: 0 <= i <= j < |b| && b[j] ==> b[i]
    ensures a <= |b| && forall i :: 0 <= i < |b| ==> (b[i] <==> i < a)
  {
    a := 0;
    while a < |b| && b[a]
      invariant a <= |b| && forall i :: 0 <= i < a ==> b[i]
    {
      a := a + 1;
    }
  }

  /** A half sorted one way followed by a half sorted the other way is bitonic. */
  lemma OppositeHalvesAreBitonic<T(!new)>(cmp: (T, T) -> int, ascending: bool, v: T, low: seq<T>, high: seq<T>)
    requires TotalOrder(cmp) && Sorted(Ord(cmp, !ascending), low) && Sorted(Ord(cmp, ascending), high)
    ensures BitonicBits(Bits(Ord(cmp, ascending), v, low + high))
  {
    var ord := Ord(cmp, ascending);
    var b, lowBits, highBits := Bits(ord, v, low + high), Bits(ord, v, low), Bits(ord, v, high);
    SortedToBits(cmp, ascending, v, low, high);
    var a := Switch(lowBits);
    var below := seq(|high|, i requires 0 <= i < |high| => !highBits[i]);
    var z := Switch(below);
    forall i | 0 <= i < |b| ensures b[i] == false <==> a <= i < |low| + z {
      if i < |low| {
        assert b[i] == lowBits[i];
      } else {
        assert b[i] == highBits[i - |low|] && below[i - |low|] == !highBits[i - |low|];
      }
    }
    assert Run(b, false, a, |low| + z);
  }

  lemma SortedToBits<T(!new)>(cmp: (T, T) -> int, ascending: bool, v: T, low: seq<T>, high: seq<T>)
    requires TotalOrder(cmp) && Sorted(Ord(cmp, !ascending), low) && Sorted(Ord(cmp, ascending), high)
    ensures var ord := Ord(cmp, ascending);
            && (forall i, j :: 0 <= i <= j < |low| && Bits(ord, v, low)[j] ==> Bits(ord, v, low)[i])
            && (forall i, j :: 0 <= i <= j < |high| && Bits(ord, v, high)[i] ==> Bits(ord, v, high)[j])
  {
  }

  /** The bitonic sort sorts, for every number of values. */
  lemma {:induction false} SortSorts<T(!new)>(cmp: (T, T) -> int, ascending: bool, s: seq<T>)
    requires TotalOrder(cmp)
    ensures Sorted(Ord(cmp, ascending), BitonicSort(cmp, ascending, s))
    decreases |s|
  {
    if |s| > 1 {
      hide BitonicMerge, Bits, SortedBits, BitonicBits;
      var mid := |s| / 2;
      var low, high := BitonicSort(cmp, !ascending, s[..mid]), BitonicSort(cmp, ascending, s[mid..]);
      SortSorts(cmp, !ascending, s[..mid]);
      SortSorts(cmp, ascending, s[mid..]);
      hide TotalOrder, Sorted;
      forall v ensures SortedBits(Bits(Ord(cmp, ascending), v, BitonicMerge(cmp, ascending, low + high))) {
        OppositeHalvesAreBitonic(cmp, ascending, v, low, high);
        MergeSortsBits(cmp, ascending, v, low + high);
      }
      BitsSorted(cmp, ascending, BitonicMerge(cmp, ascending, low + high));
    } else if |s| == 1 {
      assert Ord(cmp, ascending)(s[0], s[0]) <= 0;
    }
  }
}
