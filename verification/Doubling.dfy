/** What the doubling loop computes.

  After k rounds a member has combined the contributions of all members less than 2^k
  positions away, so when 2^k reaches the size of the group it has combined them all.
  The facts here are about any collective: joins that may count a contribution twice
  (maximum, union), and inclusive scans in either direction, where every contribution
  counts once and in order. */
module Doubling {
  import opened Confluence
  import opened Rounds
  import opened Groups

  function Max(a: int, b: int): int { if a < b then b else a }
  function Min(a: int, b: int): int { if a < b then a else b }

  lemma HopUnrolls<V(!new), M(!new)>(member: seq<nat>, id: nat, kind: Kind<V, M>, k: nat, sub: seq<V>)
    requires |sub| == |member|
    ensures RunGroup(HopRounds(member, id, kind, k), sub) ==
            if Pow2(k) >= |member| then sub
            else RunGroup(HopRounds(member, id, kind, k + 1), GroupRound(HopRound(member, id, kind, k), sub))
  {
    hide Pow2, GroupRound;
    if Pow2(k) < |member| {
      assert HopRounds(member, id, kind, k)[1..] == HopRounds(member, id, kind, k + 1);
    }
  }

  // ----- joins -----

  /** A merge joins the received values to the rank's own, the left one first. */
  ghost predicate MergeJoins<V(!new), M(!new)>(kind: Kind<V, M>, good: V -> bool, join: (V, V) -> V) {
    && kind.both
    && (forall v :: kind.merge(v, None, None) == v)
    && (forall v, x :: good(x) ==> kind.merge(v, Some(kind.toRight(x)), None) == join(v, x))
    && (forall v, y :: good(y) ==> kind.merge(v, None, Some(kind.toLeft(y))) == join(v, y))
    && (forall v, x, y :: good(x) && good(y) ==>
          kind.merge(v, Some(kind.toRight(x)), Some(kind.toLeft(y))) == join(join(v, x), y))
  }

  /** `rep(v, a, b)` says that `v` joins the contributions of positions `a` to `b - 1`;
      joining works on adjacent or overlapping intervals. */
  ghost predicate JoinLaw<V(!new)>(good: V -> bool, join: (V, V) -> V, rep: (V, int, int) -> bool) {
    && (forall v, a, b :: rep(v, a, b) ==> good(v))
    && (forall v, a, b, w, c, d {:trigger join(v, w), rep(v, a, b), rep(w, c, d)} ::
          rep(v, a, b) && rep(w, c, d) && (c <= a <= d <= b || a <= c <= b <= d) ==>
            rep(join(v, w), Min(a, c), Max(b, d)))
  }

  ghost predicate Joined<V>(rep: (V, int, int) -> bool, sub: seq<V>, d: nat) {
    forall i :: 0 <= i < |sub| ==> rep(sub[i], Max(0, i - d + 1), Min(|sub|, i + d))
  }

  lemma JoinAt<V(!new), M(!new)>(
    rd: Round<V, M>, kind: Kind<V, M>, sub: seq<V>, good: V -> bool, join: (V, V) -> V, rep: (V, int, int) -> bool,
      i: nat)
    requires i < |sub| == |rd.member| && MergeJoins(kind, good, join) && JoinLaw(good, join, rep)
    requires rd.Hop? && rd == HopRound(rd.member, rd.grp, kind, rd.hop) && Joined(rep, sub, Pow2(rd.hop))
    ensures rep(Merged(rd, sub, i), Max(0, i - 2 * Pow2(rd.hop) + 1), Min(|sub|, i + 2 * Pow2(rd.hop)))
  {
    hide Pow2;
    var d, n := Pow2(rd.hop), |sub|;
    var v, a, b := sub[i], Max(0, i - d + 1), Min(n, i + d);
    assert rep(v, a, b);
    var w, lo := v, a;
    if HasLeft(rd, i) {
      var x := sub[i - d];
      assert rep(x, Max(0, i - d - d + 1), Min(n, i - d + d));
      w, lo := join(v, x), Max(0, i - 2 * d + 1);
      assert rep(w, lo, b);
    }
    if HasRight(rd, i) {
      var y := sub[i + d];
      assert rep(y, Max(0, i + d - d + 1), Min(n, i + d + d));
      assert rep(join(w, y), lo, Min(n, i + 2 * d));
    }
  }

  lemma JoinStep<V(!new), M(!new)>(
    member: seq<nat>, id: nat, kind: Kind<V, M>, k: nat, sub: seq<V>,
    good: V -> bool, join: (V, V) -> V, rep: (V, int, int) -> bool)
    requires |sub| == |member| && MergeJoins(kind, good, join) && JoinLaw(good, join, rep)
    requires Joined(rep, sub, Pow2(k))
    ensures Joined(rep, GroupRound(HopRound(member, id, kind, k), sub), 2 * Pow2(k))
  {
    hide JoinLaw, MergeJoins, Merged, Pow2;
    forall i | 0 <= i < |sub| {
      JoinAt(HopRound(member, id, kind, k), kind, sub, good, join, rep, i);
    }
  }

  /** After all rounds every member has joined the contributions of the whole group. */
  lemma {:induction false} JoinAll<V(!new), M(!new)>(
    member: seq<nat>, id: nat, kind: Kind<V, M>, k: nat, sub: seq<V>,
    good: V -> bool, join: (V, V) -> V, rep: (V, int, int) -> bool)
    requires |sub| == |member| && MergeJoins(kind, good, join) && JoinLaw(good, join, rep)
    requires Joined(rep, sub, Pow2(k))
    ensures forall i :: 0 <= i < |sub| ==> rep(RunGroup(HopRounds(member, id, kind, k), sub)[i], 0, |sub|)
    decreases |sub| - Pow2(k)
  {
    hide GroupRound, RunGroup, HopRounds, JoinLaw, MergeJoins;
    HopUnrolls(member, id, kind, k, sub);
    if Pow2(k) < |sub| {
      JoinStep(member, id, kind, k, sub, good, join, rep);
      JoinAll(member, id, kind, k + 1, GroupRound(HopRound(member, id, kind, k), sub), good, join, rep);
    }
  }

  // ----- scans -----

  ghost predicate Associative<T(!new)>(op: (T, T) -> T) {
    forall a, b, c :: op(op(a, b), c) == op(a, op(b, c))
  }

  /** The combination of `s[lo]`, ..., `s[hi - 1]`, in that order. */
  ghost function Fold<T>(op: (T, T) -> T, s: seq<T>, lo: nat, hi: nat): T
    requires lo < hi <= |s|
    decreases hi
  {
    if hi == lo + 1 then s[lo] else op(Fold(op, s, lo, hi - 1), s[hi - 1])
  }

  lemma {:induction false} FoldSplit<T(!new)>(op: (T, T) -> T, s: seq<T>, lo: nat, mid: nat, hi: nat)
    requires Associative(op) && lo < mid < hi <= |s|
    ensures Fold(op, s, lo, hi) == op(Fold(op, s, lo, mid), Fold(op, s, mid, hi))
    decreases hi
  {
    if hi > mid + 1 {
      FoldSplit(op, s, lo, mid, hi - 1);
    }
  }

  /** The right-going component of a scan: what arrives from the left goes in front. */
  ghost predicate ScanLaw<V(!new), M(!new), T(!new)>(kind: Kind<V, M>, good: V -> bool, rOf: V -> T, op: (T, T) -> T) {
    && Associative(op)
    && (forall v, x, r :: good(v) && good(x) ==>
          rOf(kind.merge(v, Some(kind.toRight(x)), r)) == op(rOf(x), rOf(v)))
    && (forall v, r :: good(v) ==> rOf(kind.merge(v, None, r)) == rOf(v))
  }

  /** The left-going component of a double scan: what arrives from the right goes behind. */
  ghost predicate ScanBackLaw<V(!new), M(!new), T(!new)>(
    kind: Kind<V, M>, good: V -> bool, lOf: V -> T, op: (T, T) -> T) {
    && kind.both
    && Associative(op)
    && (forall v, x, l :: good(v) && good(x) ==>
          lOf(kind.merge(v, l, Some(kind.toLeft(x)))) == op(lOf(v), lOf(x)))
    && (forall v, l :: good(v) ==> lOf(kind.merge(v, l, None)) == lOf(v))
  }

  ghost predicate KeepsGood<V(!new), M(!new)>(kind: Kind<V, M>, good: V -> bool) {
    forall v, l, r :: good(v) ==> good(kind.merge(v, l, r))
  }

  ghost predicate AllGood<V>(good: V -> bool, sub: seq<V>) {
    forall i :: 0 <= i < |sub| ==> good(sub[i])
  }

  ghost predicate Scanned<V, T>(rOf: V -> T, op: (T, T) -> T, init: seq<T>, sub: seq<V>, d: nat) {
    && |init| == |sub| && d > 0
    && forall i :: 0 <= i < |sub| ==> rOf(sub[i]) == Fold(op, init, Max(0, i + 1 - d), i + 1)
  }

  ghost predicate ScannedBack<V, T>(lOf: V -> T, op: (T, T) -> T, init: seq<T>, sub: seq<V>, d: nat) {
    && |init| == |sub| && d > 0
    && forall i :: 0 <= i < |sub| ==> lOf(sub[i]) == Fold(op, init, i, Min(|sub|, i + d))
  }

  lemma ScanStep<V(!new), M(!new), T(!new)>(
    member: seq<nat>, id: nat, kind: Kind<V, M>, k: nat, sub: seq<V>, good: V -> bool,
    rOf: V -> T, op: (T, T) -> T, init: seq<T>)
    requires |sub| == |member| && ScanLaw(kind, good, rOf, op) && AllGood(good, sub)
    requires Scanned(rOf, op, init, sub, Pow2(k))
    ensures Scanned(rOf, op, init, GroupRound(HopRound(member, id, kind, k), sub), 2 * Pow2(k))
  {
    hide Associative, Fold;
    var d := Pow2(k);
    var rd := HopRound(member, id, kind, k);
    forall i | 0 <= i < |sub|
      ensures rOf(GroupRound(rd, sub)[i]) == Fold(op, init, Max(0, i + 1 - 2 * d), i + 1)
    {
      if HasLeft(rd, i) {
        assert rOf(sub[i - d]) == Fold(op, init, Max(0, i - d + 1 - d), i - d + 1);
        FoldSplit(op, init, Max(0, i + 1 - 2 * d), i + 1 - d, i + 1);
      }
    }
  }

  lemma ScanBackStep<V(!new), M(!new), T(!new)>(
    member: seq<nat>, id: nat, kind: Kind<V, M>, k: nat, sub: seq<V>, good: V -> bool,
    lOf: V -> T, op: (T, T) -> T, init: seq<T>)
    requires |sub| == |member| && ScanBackLaw(kind, good, lOf, op) && AllGood(good, sub)
    requires ScannedBack(lOf, op, init, sub, Pow2(k))
    ensures ScannedBack(lOf, op, init, GroupRound(HopRound(member, id, kind, k), sub), 2 * Pow2(k))
  {
    hide Associative, Fold;
    var d, n := Pow2(k), |sub|;
    var rd := HopRound(member, id, kind, k);
    forall i | 0 <= i < n
      ensures lOf(GroupRound(rd, sub)[i]) == Fold(op, init, i, Min(n, i + 2 * d))
    {
      if HasRight(rd, i) {
        assert lOf(sub[i + d]) == Fold(op, init, i + d, Min(n, i + d + d));
        FoldSplit(op, init, i, i + d, Min(n, i + 2 * d));
      }
    }
  }

  lemma GoodStep<V(!new), M(!new)>(rd: Round<V, M>, kind: Kind<V, M>, sub: seq<V>, good: V -> bool)
    requires |sub| == |rd.member| && KeepsGood(kind, good) && AllGood(good, sub)
    requires rd.Hop? && rd.merge == kind.merge
    ensures AllGood(good, GroupRound(rd, sub))
  {
    forall i | 0 <= i < |sub| ensures good(GroupRound(rd, sub)[i]) {
      assert good(sub[i]);
    }
  }

  /** An inclusive scan leaves at each position the combination of everything up to it. */
  lemma {:induction false} ScanAll<V(!new), M(!new), T(!new)>(
    member: seq<nat>, id: nat, kind: Kind<V, M>, k: nat, sub: seq<V>, good: V -> bool,
    rOf: V -> T, op: (T, T) -> T, init: seq<T>)
    requires |sub| == |member| && ScanLaw(kind, good, rOf, op) && KeepsGood(kind, good) && AllGood(good, sub)
    requires Scanned(rOf, op, init, sub, Pow2(k))
    ensures var out := RunGroup(HopRounds(member, id, kind, k), sub);
            && AllGood(good, out)
            && forall i :: 0 <= i < |sub| ==> rOf(out[i]) == Fold(op, init, 0, i + 1)
    decreases |sub| - Pow2(k)
  {
    hide GroupRound, RunGroup, HopRounds, ScanLaw, KeepsGood, AllGood, Fold;
    HopUnrolls(member, id, kind, k, sub);
    if Pow2(k) < |sub| {
      var rd := HopRound(member, id, kind, k);
      ScanStep(member, id, kind, k, sub, good, rOf, op, init);
      GoodStep(rd, kind, sub, good);
      ScanAll(member, id, kind, k + 1, GroupRound(rd, sub), good, rOf, op, init);
    }
  }

  /** The left-going scan leaves at each position the combination of everything from it on. */
  lemma {:induction false} ScanBackAll<V(!new), M(!new), T(!new)>(
    member: seq<nat>, id: nat, kind: Kind<V, M>, k: nat, sub: seq<V>, good: V -> bool,
    lOf: V -> T, op: (T, T) -> T, init: seq<T>)
    requires |sub| == |member| && ScanBackLaw(kind, good, lOf, op) && KeepsGood(kind, good) && AllGood(good, sub)
    requires ScannedBack(lOf, op, init, sub, Pow2(k))
    ensures var out := RunGroup(HopRounds(member, id, kind, k), sub);
            forall i :: 0 <= i < |sub| ==> lOf(out[i]) == Fold(op, init, i, |sub|)
    decreases |sub| - Pow2(k)
  {
    hide GroupRound, RunGroup, HopRounds, ScanBackLaw, KeepsGood, AllGood, Fold;
    HopUnrolls(member, id, kind, k, sub);
    if Pow2(k) < |sub| {
      var rd := HopRound(member, id, kind, k);
      ScanBackStep(member, id, kind, k, sub, good, lOf, op, init);
      GoodStep(rd, kind, sub, good);
      ScanBackAll(member, id, kind, k + 1, GroupRound(rd, sub), good, lOf, op, init);
    }
  }

  /** What no merge changes, no round changes. */
  lemma {:induction false} Keeps<V(!new), M(!new), K(!new)>(rounds: seq<Round<V, M>>, sub: seq<V>, keep: V -> K)
    requires forall j :: 0 <= j < |rounds| ==> |rounds[j].member| == |sub|
    requires forall j, v, l, r :: 0 <= j < |rounds| && rounds[j].Hop? ==> keep(rounds[j].merge(v, l, r)) == keep(v)
    requires forall j, v :: 0 <= j < |rounds| && rounds[j].Local? ==> keep(rounds[j].update(v)) == keep(v)
    ensures forall i :: 0 <= i < |sub| ==> keep(RunGroup(rounds, sub)[i]) == keep(sub[i])
    decreases |rounds|
  {
    if rounds != [] {
      var rest := rounds[1..];
      forall j, v: V, l: Option<M>, r: Option<M> | 0 <= j < |rest| && rest[j].Hop?
        ensures keep(rest[j].merge(v, l, r)) == keep(v)
      {
        assert rest[j] == rounds[j + 1];
      }
      forall j, v: V | 0 <= j < |rest| && rest[j].Local? ensures keep(rest[j].update(v)) == keep(v) {
        assert rest[j] == rounds[j + 1];
      }
      Keeps(rest, GroupRound(rounds[0], sub), keep);
    }
  }
}
