/** The bitonic sort as rounds of a group: which ranks exchange when, what the code of one
  rank is, and that the rounds compute the sort. */
module GroupSort {
  import opened Confluence
  import opened Lists
  import opened AsyncNet
  import opened Rounds
  import opened Groups
  import opened Bitonic

  /** The part of a rank's state that is sorted, and how it travels in messages. */
  datatype Lens<!V, !T, !M> = Lens(get: V -> T, put: (V, T) -> V, wrap: V -> M, unwrap: M -> T)

  ghost predicate LensLaw<V(!new), T(!new), M(!new)>(at: Lens<V, T, M>) {
    && (forall v, t :: at.get(at.put(v, t)) == t)
    && (forall v :: at.put(v, at.get(v)) == v)
    && (forall v, t, t' :: at.put(at.put(v, t), t') == at.put(v, t'))
    && (forall v :: at.unwrap(at.wrap(v)) == at.get(v))
  }

  /** A rank with a right partner is the lower one of its pair, a rank with a left partner the
      upper one. */
  function Exchange<V, T, M>(at: Lens<V, T, M>, cmp: (T, T) -> int, ascending: bool): (V, Option<M>, Option<M>) -> V {
    (v: V, l: Option<M>, r: Option<M>) =>
      if r.Some? then at.put(v, KeepLow(cmp, ascending, at.get(v), at.unwrap(r.value)))
      else if l.Some? then at.put(v, KeepHigh(cmp, ascending, at.get(v), at.unwrap(l.value)))
      else v
  }

  function ExchangeKind<V, T, M>(at: Lens<V, T, M>, cmp: (T, T) -> int, ascending: bool): Kind<V, M> {
    Kind(true, at.wrap, at.wrap, Exchange(at, cmp, ascending))
  }

  function ExchangeRound<V, T, M>(
    at: Lens<V, T, M>, cmp: (T, T) -> int, id: nat, member: seq<nat>, ascending: bool): Round<V, M>
    requires |member| > 1
  {
    HopRound(member, id, ExchangeKind(at, cmp, ascending), HopBelow(|member|, 0))
  }

  function MergeRounds<V, T, M>(
    at: Lens<V, T, M>, cmp: (T, T) -> int, id: nat, member: seq<nat>, ascending: bool): seq<Round<V, M>>
    decreases |member|
  {
    if |member| <= 1 then []
    else
      var h := Half(|member|);
      [ExchangeRound(at, cmp, id, member, ascending)]
      + MergeRounds(at, cmp, id, member[..h], ascending)
      + MergeRounds(at, cmp, id, member[h..], ascending)
  }

  function SortRounds<V, T, M>(
    at: Lens<V, T, M>, cmp: (T, T) -> int, id: nat, member: seq<nat>, ascending: bool): seq<Round<V, M>>
    decreases |member|
  {
    if |member| <= 1 then []
    else
      var mid := |member| / 2;
      SortRounds(at, cmp, id, member[..mid], !ascending)
      + SortRounds(at, cmp, id, member[mid..], ascending)
      + MergeRounds(at, cmp, id, member, ascending)
  }

  // ----- what the rounds compute -----

  ghost function Items<V, T, M>(at: Lens<V, T, M>, vals: seq<V>, member: seq<nat>): (items: seq<T>)
    requires forall i :: 0 <= i < |member| ==> member[i] < |vals|
    ensures |items| == |member| && forall i :: 0 <= i < |member| ==> items[i] == at.get(vals[member[i]])
  {
    seq(|member|, i requires 0 <= i < |member| => at.get(vals[member[i]]))
  }

  /** Position `i` of the group gets item `items[i]`; everything else stays. */
  ghost function PutItems<V, T, M>(at: Lens<V, T, M>, vals: seq<V>, member: seq<nat>, items: seq<T>): (out: seq<V>)
    requires |items| == |member|
    ensures |out| == |vals|
    ensures forall r :: 0 <= r < |vals| ==>
              out[r] == if r in member then at.put(vals[r], items[Pos(member, r)]) else vals[r]
  {
    seq(|vals|, r requires 0 <= r < |vals| =>
      if r in member then at.put(vals[r], items[Pos(member, r)]) else vals[r])
  }

  lemma PutThenGet<V(!new), T(!new), M(!new)>(at: Lens<V, T, M>, vals: seq<V>, member: seq<nat>, items: seq<T>)
    requires LensLaw(at) && GroupOf(member, |vals|) && |items| == |member|
    ensures Items(at, PutItems(at, vals, member, items), member) == items
  {
    forall i | 0 <= i < |member| {
      PosUnique(member, i);
    }
  }

  lemma PutTwice<V(!new), T(!new), M(!new)>(
    at: Lens<V, T, M>, vals: seq<V>, member: seq<nat>, items: seq<T>, items': seq<T>)
    requires LensLaw(at) && GroupOf(member, |vals|) && |items| == |items'| == |member|
    ensures PutItems(at, PutItems(at, vals, member, items), member, items') == PutItems(at, vals, member, items')
  {
  }

  /** Putting items into two halves of a group one after the other. */
  lemma PutHalves<V(!new), T(!new), M(!new)>(
    at: Lens<V, T, M>, vals: seq<V>, member: seq<nat>, h: nat, low: seq<T>, high: seq<T>)
    requires LensLaw(at) && GroupOf(member, |vals|) && |low| == h <= |member| && |high| == |member| - h
    ensures GroupOf(member[..h], |vals|) && GroupOf(member[h..], |vals|)
    ensures var mid := PutItems(at, vals, member[..h], low);
            && Items(at, mid, member[h..]) == Items(at, vals, member)[h..]
            && PutItems(at, mid, member[h..], high) == PutItems(at, vals, member, low + high)
    ensures Items(at, vals, member[..h]) == Items(at, vals, member)[..h]
  {
    var mid := PutItems(at, vals, member[..h], low);
    forall i | h <= i < |member| ensures member[i] !in member[..h] {}
    forall i | 0 <= i < h ensures member[i] !in member[h..] {}
    forall r | 0 <= r < |vals|
      ensures PutItems(at, mid, member[h..], high)[r] == PutItems(at, vals, member, low + high)[r]
    {
      if r in member {
        var i := Pos(member, r);
        if i < h {
          assert member[..h][i] == r;
          PosUnique(member[..h], i);
        } else {
          assert member[h..][i - h] == r;
          PosUnique(member[h..], i - h);
        }
      }
    }
  }

  lemma ExchangeComputes<V(!new), T(!new), M(!new)>(
    at: Lens<V, T, M>, cmp: (T, T) -> int, id: nat, member: seq<nat>, ascending: bool, vals: seq<V>)
    requires LensLaw(at) && GroupOf(member, |vals|) && |member| > 1
    ensures SyncRound(ExchangeRound(at, cmp, id, member, ascending), vals) ==
            PutItems(at, vals, member, HalfClean(cmp, ascending, Items(at, vals, member), Half(|member|)))
  {
    hide KeepLow, KeepHigh;
    var rd := ExchangeRound(at, cmp, id, member, ascending);
    var h := Half(|member|);
    var items, sub := Items(at, vals, member), Gather(vals, member);
    forall i | 0 <= i < |member| ensures Merged(rd, sub, i) == at.put(sub[i], CleanAt(cmp, ascending, items, h, i)) {
      if i + h < |member| {
        assert !HasLeft(rd, i);
      }
    }
  }

  lemma {:induction false} MergeComputes<V(!new), T(!new), M(!new)>(
    at: Lens<V, T, M>, cmp: (T, T) -> int, id: nat, member: seq<nat>, ascending: bool, vals: seq<V>)
    requires LensLaw(at) && GroupOf(member, |vals|)
    ensures ValidRounds(MergeRounds(at, cmp, id, member, ascending), |vals|)
    ensures RunRounds(MergeRounds(at, cmp, id, member, ascending), vals) ==
            PutItems(at, vals, member, BitonicMerge(cmp, ascending, Items(at, vals, member)))
    decreases |member|
  {
    if |member| <= 1 {
      PutSame(at, vals, member);
    } else {
      hide LensLaw, HalfClean, PutItems, Items, SyncRound, RunRounds, HopBelow, ExchangeRound;
      var h := Half(|member|);
      var rd := ExchangeRound(at, cmp, id, member, ascending);
      var lowRounds := MergeRounds(at, cmp, id, member[..h], ascending);
      var highRounds := MergeRounds(at, cmp, id, member[h..], ascending);
      var x := HalfClean(cmp, ascending, Items(at, vals, member), h);
      var v1 := PutItems(at, vals, member, x);
      ExchangeComputes(at, cmp, id, member, ascending, vals);
      OneRound(rd, vals);
      PutThenGet(at, vals, member, x);
      var low, high := BitonicMerge(cmp, ascending, x[..h]), BitonicMerge(cmp, ascending, x[h..]);
      PutHalves(at, v1, member, h, low, high);
      MergeComputes(at, cmp, id, member[..h], ascending, v1);
      var v2 := PutItems(at, v1, member[..h], low);
      MergeComputes(at, cmp, id, member[h..], ascending, v2);
      RunRoundsAppend([rd] + lowRounds, highRounds, vals);
      RunRoundsAppend([rd], lowRounds, vals);
      PutTwice(at, vals, member, x, low + high);
    }
  }

  lemma OneRound<V(!new), M(!new)>(rd: Round<V, M>, vals: seq<V>)
    requires GroupOf(rd.member, |vals|)
    ensures ValidRounds([rd], |vals|) && RunRounds([rd], vals) == SyncRound(rd, vals)
  {
    hide SyncRound;
    assert [rd][1..] == [];
  }

  lemma PutSame<V(!new), T(!new), M(!new)>(at: Lens<V, T, M>, vals: seq<V>, member: seq<nat>)
    requires LensLaw(at) && GroupOf(member, |vals|)
    ensures PutItems(at, vals, member, Items(at, vals, member)) == vals
  {
  }

  /** The rounds of the sort give position `i` of the group the item that the bitonic sort puts
      at position `i`, and change nothing else. */
  lemma {:induction false} SortComputes<V(!new), T(!new), M(!new)>(
    at: Lens<V, T, M>, cmp: (T, T) -> int, id: nat, member: seq<nat>, ascending: bool, vals: seq<V>)
    requires LensLaw(at) && GroupOf(member, |vals|)
    ensures ValidRounds(SortRounds(at, cmp, id, member, ascending), |vals|)
    ensures RunRounds(SortRounds(at, cmp, id, member, ascending), vals) ==
            PutItems(at, vals, member, BitonicSort(cmp, ascending, Items(at, vals, member)))
    decreases |member|
  {
    if |member| <= 1 {
      PutSame(at, vals, member);
    } else {
      hide LensLaw, PutItems, Items, RunRounds, BitonicMerge, MergeRounds;
      var mid := |member| / 2;
      var lowRounds := SortRounds(at, cmp, id, member[..mid], !ascending);
      var highRounds := SortRounds(at, cmp, id, member[mid..], ascending);
      var mergeRounds := MergeRounds(at, cmp, id, member, ascending);
      var items := Items(at, vals, member);
      var low, high := BitonicSort(cmp, !ascending, items[..mid]), BitonicSort(cmp, ascending, items[mid..]);
      PutHalves(at, vals, member, mid, low, high);
      SortComputes(at, cmp, id, member[..mid], !ascending, vals);
      var v1 := PutItems(at, vals, member[..mid], low);
      SortComputes(at, cmp, id, member[mid..], ascending, v1);
      var v2 := PutItems(at, vals, member, low + high);
      PutThenGet(at, vals, member, low + high);
      MergeComputes(at, cmp, id, member, ascending, v2);
      RunRoundsAppend(lowRounds, highRounds, vals);
      RunRoundsAppend(lowRounds + highRounds, mergeRounds, vals);
      PutTwice(at, vals, member, low + high, BitonicMerge(cmp, ascending, low + high));
    }
  }

  // ----- the code of one rank -----

  lemma {:induction false} MergeOutside<V, T, M>(
    at: Lens<V, T, M>, cmp: (T, T) -> int, id: nat, member: seq<nat>, ascending: bool, r: nat)
    requires r !in member
    ensures Program(MergeRounds(at, cmp, id, member, ascending), r, false) == []
    decreases |member|
  {
    if |member| > 1 {
      var h := Half(|member|);
      var rd := ExchangeRound(at, cmp, id, member, ascending);
      var low, high := MergeRounds(at, cmp, id, member[..h], ascending),
        MergeRounds(at, cmp, id, member[h..], ascending);
      MergeOutside(at, cmp, id, member[..h], ascending, r);
      MergeOutside(at, cmp, id, member[h..], ascending, r);
      ProgramAppend([rd] + low, high, r, false);
      ProgramAppend([rd], low, r, false);
      OneProgram(rd, r);
    }
  }

  lemma OneProgram<V, M>(rd: Round<V, M>, r: nat)
    ensures Program([rd], r, false) == Code(rd, r, false)
  {
    hide Code;
    assert [rd][1..] == [];
  }

  lemma {:induction false} SortOutside<V, T, M>(
    at: Lens<V, T, M>, cmp: (T, T) -> int, id: nat, member: seq<nat>, ascending: bool, r: nat)
    requires r !in member
    ensures Program(SortRounds(at, cmp, id, member, ascending), r, false) == []
    decreases |member|
  {
    if |member| > 1 {
      hide MergeRounds;
      var mid := |member| / 2;
      var low, high := SortRounds(at, cmp, id, member[..mid], !ascending),
        SortRounds(at, cmp, id, member[mid..], ascending);
      SortOutside(at, cmp, id, member[..mid], !ascending, r);
      SortOutside(at, cmp, id, member[mid..], ascending, r);
      MergeOutside(at, cmp, id, member, ascending, r);
      ProgramAppend(low + high, MergeRounds(at, cmp, id, member, ascending), r, false);
      ProgramAppend(low, high, r, false);
    }
  }

  /** The members of the group at positions `start` to `start + num - 1`. */
  function Part(g: Lwgrp, start: nat, num: nat): seq<nat>
    requires start + num <= |g.peers|
  {
    g.peers[start..start + num]
  }

  lemma PartLength(g: Lwgrp, start: nat, num: nat)
    requires start + num <= |g.peers|
    ensures |Part(g, start, num)| == num
  {
  }

  lemma PartSplits(g: Lwgrp, start: nat, num: nat, h: nat)
    requires g.Valid() && start + num <= |g.peers| && h <= num
    ensures NoDup(Part(g, start, num))
    ensures Part(g, start, num)[..h] == Part(g, start, h)
    ensures Part(g, start, num)[h..] == Part(g, start + h, num - h)
    ensures start <= g.rank < start + num ==>
              g.peers[g.rank] in Part(g, start, num) && Pos(Part(g, start, num), g.peers[g.rank]) == g.rank - start
    ensures !(start <= g.rank < start + num) ==> g.peers[g.rank] !in Part(g, start, num)
  {
    if start <= g.rank < start + num {
      assert Part(g, start, num)[g.rank - start] == g.peers[g.rank];
    }
  }

  lemma Unrolls<V, T, M>(at: Lens<V, T, M>, cmp: (T, T) -> int, id: nat, member: seq<nat>, ascending: bool)
    ensures |member| <= 1 ==>
              && MergeRounds(at, cmp, id, member, ascending) == [] && SortRounds(at, cmp, id, member, ascending) == []
    ensures |member| > 1 ==>
              && MergeRounds(at, cmp, id, member, ascending) ==
                   [ExchangeRound(at, cmp, id, member, ascending)]
                   + MergeRounds(at, cmp, id, member[..Half(|member|)], ascending)
                   + MergeRounds(at, cmp, id, member[Half(|member|)..], ascending)
              && SortRounds(at, cmp, id, member, ascending) ==
                   SortRounds(at, cmp, id, member[..|member| / 2], !ascending)
                   + SortRounds(at, cmp, id, member[|member| / 2..], ascending)
                   + MergeRounds(at, cmp, id, member, ascending)
  {
  }

  lemma MergeProgram<V, T, M>(
    at: Lens<V, T, M>, cmp: (T, T) -> int, g: Lwgrp, start: nat, num: nat, ascending: bool, h: nat)
    requires g.Valid() && start <= g.rank < start + num <= |g.peers| && num > 1 && h == Half(num)
    ensures var me := g.peers[g.rank];
            Program(MergeRounds(at, cmp, g.id, Part(g, start, num), ascending), me, false) ==
            CodeAt(ExchangeRound(at, cmp, g.id, Part(g, start, num), ascending), g.rank - start) +
            (if g.rank < start + h then Program(MergeRounds(at, cmp, g.id, Part(g, start, h), ascending), me, false)
             else Program(MergeRounds(at, cmp, g.id, Part(g, start + h, num - h), ascending), me, false))
  {
    hide CodeAt, Half, ExchangeRound, MergeRounds, Program, SortRounds, Part, NoDup, Code;
    assert |Part(g, start, num)| == num by { PartLength(g, start, num); }
    var me, part := g.peers[g.rank], Part(g, start, num);
    Unrolls(at, cmp, g.id, part, ascending);
    PartSplits(g, start, num, h);
    PartSplits(g, start, h, h);
    PartSplits(g, start + h, num - h, 0);
    var rd := ExchangeRound(at, cmp, g.id, part, ascending);
    var low, high := MergeRounds(at, cmp, g.id, part[..h], ascending), MergeRounds(at, cmp, g.id, part[h..], ascending);
    ProgramAppend([rd] + low, high, me, false);
    ProgramAppend([rd], low, me, false);
    OneProgram(rd, me);
    assert Code(rd, me, false) == CodeAt(rd, g.rank - start) by { ExchangeMember(at, cmp, g.id, part, ascending, me); }
    if g.rank < start + h {
      MergeOutside(at, cmp, g.id, part[h..], ascending, me);
    } else {
      MergeOutside(at, cmp, g.id, part[..h], ascending, me);
    }
  }

  lemma ExchangeMember<V, T, M>(
    at: Lens<V, T, M>, cmp: (T, T) -> int, id: nat, member: seq<nat>, ascending: bool, r: nat)
    requires |member| > 1 && r in member
    ensures var rd := ExchangeRound(at, cmp, id, member, ascending);
            rd.member == member && Code(rd, r, false) == CodeAt(rd, Pos(member, r))
  {
  }

  /** What one rank does in a merge of the ranks `start` to `start + num - 1`. */
  method MergeCode<V, T, M>(
    at: Lens<V, T, M>, cmp: (T, T) -> int, g: Lwgrp, start: nat, num: nat, ascending: bool)
    returns (code: seq<Instr<V, M>>)
    requires g.Valid() && start <= g.rank < start + num <= |g.peers|
    ensures code == Program(MergeRounds(at, cmp, g.id, Part(g, start, num), ascending), g.peers[g.rank], false)
    decreases num
  {
    hide Program, MergeRounds, SortRounds, CodeAt, HopBelow, ExchangeRound;
    Unrolls(at, cmp, g.id, Part(g, start, num), ascending);
    code := [];
    if num <= 1 {
      assert Program<V, M>([], g.peers[g.rank], false) == [] by { EmptyProgram<V, M>(g.peers[g.rank]); }
    } else {
      var count, index := 1, 0;
      while count < num
        invariant count == Pow2(index) && (index > 0 ==> Pow2(index - 1) < num)
        decreases num - count
      {
        count := 2 * count;
        index := index + 1;
      }
      count := count / 2;
      index := index - 1;
      HopBelowIs(num, index);
      code := ExchangeCode(at, cmp, g, start, num, ascending, count, index);
      MergeProgram(at, cmp, g, start, num, ascending, count);
      var rest;
      if g.rank < start + count {
        rest := MergeCode(at, cmp, g, start, count, ascending);
      } else {
        rest := MergeCode(at, cmp, g, start + count, num - count, ascending);
      }
      code := code + rest;
    }
  }

  lemma EmptyProgram<V, M>(r: nat)
    ensures Program<V, M>([], r, false) == []
  {
  }

  lemma HopBelowIs(n: nat, k: nat)
    requires n > 1 && Pow2(k) < n <= 2 * Pow2(k)
    ensures HopBelow(n, 0) == k && Half(n) == Pow2(k)
  {
    var j := HopBelow(n, 0);
    if j < k { Pow2Monotone(j, k); }
    if k < j { Pow2Monotone(k, j); }
  }

  /** One exchange of one rank: write the value to the partner, read the partner's, keep the
      right one of the two. */
  method ExchangeCode<V, T, M>(
    at: Lens<V, T, M>, cmp: (T, T) -> int, g: Lwgrp, start: nat, num: nat, ascending: bool, count: nat, index: nat)
    returns (code: seq<Instr<V, M>>)
    requires g.Valid() && start <= g.rank < start + num <= |g.peers| && num > 1
    requires index == HopBelow(num, 0) && count == Half(num)
    ensures code == CodeAt(ExchangeRound(at, cmp, g.id, Part(g, start, num), ascending), g.rank - start)
  {
    hide Pow2;
    var rd := ExchangeRound(at, cmp, g.id, Part(g, start, num), ascending);
    ghost var i := g.rank - start;
    code := [];
    if g.rank < start + count {
      var dst := g.rank + count;
      if dst < start + num {
        code := [Send(g.ChannelTo(dst, index), at.wrap), RecvRight(g.ChannelFrom(dst, index))];
      }
    } else {
      var dst := g.rank - count;
      if dst >= start {
        code := [Send(g.ChannelTo(dst, index), at.wrap), RecvLeft(g.ChannelFrom(dst, index))];
      }
    }
    assert code == SendLeft(rd, i) + SendRight(rd, i) + ReadLeft(rd, i) + ReadRight(rd, i);
    code := code + [MergeInstr(rd, g.rank - start)];
  }

  /** What one rank does in a sort of the ranks `start` to `start + num - 1`: its half sorts,
      the lower half in the opposite direction, and then both halves merge. */
  method SortCode<V, T, M>(
    at: Lens<V, T, M>, cmp: (T, T) -> int, g: Lwgrp, start: nat, num: nat, ascending: bool)
    returns (code: seq<Instr<V, M>>)
    requires g.Valid() && start <= g.rank < start + num <= |g.peers|
    ensures code == Program(SortRounds(at, cmp, g.id, Part(g, start, num), ascending), g.peers[g.rank], false)
    decreases num
  {
    hide Program, MergeRounds, SortRounds;
    Unrolls(at, cmp, g.id, Part(g, start, num), ascending);
    code := [];
    if num <= 1 {
      assert Program<V, M>([], g.peers[g.rank], false) == [] by { EmptyProgram<V, M>(g.peers[g.rank]); }
    } else {
      var mid := num / 2;
      if g.rank < start + mid {
        code := SortCode(at, cmp, g, start, mid, !ascending);
      } else {
        code := SortCode(at, cmp, g, start + mid, num - mid, ascending);
      }
      var merge := MergeCode(at, cmp, g, start, num, ascending);
      SortProgram(at, cmp, g, start, num, ascending, mid);
      code := code + merge;
    }
  }

  lemma SortProgram<V, T, M>(
    at: Lens<V, T, M>, cmp: (T, T) -> int, g: Lwgrp, start: nat, num: nat, ascending: bool, mid: nat)
    requires g.Valid() && start <= g.rank < start + num <= |g.peers| && num > 1 && mid == num / 2
    ensures var me := g.peers[g.rank];
            Program(SortRounds(at, cmp, g.id, Part(g, start, num), ascending), me, false) ==
            (if g.rank < start + mid then Program(SortRounds(at, cmp, g.id, Part(g, start, mid), !ascending), me, false)
             else Program(SortRounds(at, cmp, g.id, Part(g, start + mid, num - mid), ascending), me, false)) +
            Program(MergeRounds(at, cmp, g.id, Part(g, start, num), ascending), me, false)
  {
    hide MergeRounds, SortRounds, Program, Part, NoDup;
    assert |Part(g, start, num)| == num by { PartLength(g, start, num); }
    var me, part := g.peers[g.rank], Part(g, start, num);
    Unrolls(at, cmp, g.id, part, ascending);
    PartSplits(g, start, num, mid);
    PartSplits(g, start, mid, mid);
    PartSplits(g, start + mid, num - mid, 0);
    var low, high := SortRounds(at, cmp, g.id, part[..mid], !ascending),
      SortRounds(at, cmp, g.id, part[mid..], ascending);
    ProgramAppend(low + high, MergeRounds(at, cmp, g.id, part, ascending), me, false);
    ProgramAppend(low, high, me, false);
    if g.rank < start + mid {
      SortOutside(at, cmp, g.id, part[mid..], ascending, me);
    } else {
      SortOutside(at, cmp, g.id, part[..mid], !ascending, me);
    }
  }
}
