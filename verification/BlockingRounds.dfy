/** A schedule of the unbuffered machine that completes one round: first every pair whose
  left member is even at this hop, then every pair whose left member is odd, then the merges.
  Both members of a pair reach it in the same phase, which is why nobody waits forever. */
module BlockingRounds {
  import opened Confluence
  import opened AsyncNet
  import opened Rounds
  import opened BufferedRounds

  /** The pair (e, e + 2^hop) has met, when the even pairs before `evens` and the odd pairs
      before `odds` have. */
  ghost predicate Met<V, M>(rd: Round<V, M>, e: nat, evens: nat, odds: nat) {
    if OddAt(rd, e) then e < odds else e < evens
  }

  ghost predicate LeftMet<V, M>(rd: Round<V, M>, i: nat, evens: nat, odds: nat) {
    HasLeft(rd, i) && Met(rd, i - Pow2(rd.hop), evens, odds)
  }

  ghost predicate RightMet<V, M>(rd: Round<V, M>, i: nat, evens: nat, odds: nat) {
    HasRight(rd, i) && Met(rd, i, evens, odds)
  }

  ghost function Remaining<V, M>(rd: Round<V, M>, i: nat, evens: nat, odds: nat): seq<Instr<V, M>>
    requires i < |rd.member|
  {
    var l := if LeftMet(rd, i, evens, odds) then [] else TalkLeft(rd, i);
    var r := if RightMet(rd, i, evens, odds) then [] else TalkRight(rd, i);
    if OddAt(rd, i) then l + r else r + l
  }

  /** The member at position `i` while pairs meet. */
  ghost predicate Meeting<V, M>(
    rd: Round<V, M>, me: Rank<V, M>, vals: seq<V>, tail: seq<Instr<V, M>>, i: nat, evens: nat, odds: nat)
    requires GroupOf(rd.member, |vals|) && i < |rd.member|
  {
    && me.val == vals[rd.member[i]]
    && me.code == Remaining(rd, i, evens, odds) + ([MergeInstr(rd, i)] + tail)
    && (LeftMet(rd, i, evens, odds) ==> me.left == rd.toRight(vals[rd.member[i - Pow2(rd.hop)]]))
    && (RightMet(rd, i, evens, odds) && rd.both ==> me.right == rd.toLeft(vals[rd.member[i + Pow2(rd.hop)]]))
  }

  ghost predicate AllMeeting<V(!new), M(!new)>(
    rd: Round<V, M>, s: Net<V, M>, vals: seq<V>, rest: nat -> seq<Instr<V, M>>, evens: nat, odds: nat)
  {
    && GroupOf(rd.member, |vals|) && |s.ranks| == |vals| && s.wires == map[]
    && (forall r :: 0 <= r < |vals| && r !in rd.member ==>
          s.ranks[r].val == vals[r] && s.ranks[r].code == rest(r))
    && (forall i :: 0 <= i < |rd.member| ==>
          Meeting(rd, s.ranks[rd.member[i]], vals, rest(rd.member[i]), i, evens, odds))
  }

  lemma {:induction false} ShiftAlternates(i: nat, k: nat)
    ensures Shr(i + Pow2(k), k) == Shr(i, k) + 1
  {
    if k > 0 {
      assert (i + Pow2(k)) / 2 == i / 2 + Pow2(k - 1);
      ShiftAlternates(i / 2, k - 1);
    }
  }

  lemma ParityAlternates<V, M>(rd: Round<V, M>, i: nat)
    requires rd.Hop?
    ensures OddAt(rd, i + Pow2(rd.hop)) == !OddAt(rd, i)
  {
    ShiftAlternates(i, rd.hop);
  }

  lemma NothingToSay<V, M>(rd: Round<V, M>, i: nat)
    requires i < |rd.member|
    ensures !HasLeft(rd, i) ==> TalkLeft(rd, i) == []
    ensures !HasRight(rd, i) ==> TalkRight(rd, i) == []
  {
  }

  /** The two members of a pair meet: the left one writes, then the right one answers. */
  lemma PairMeets<V(!new), M(!new)>(
    rd: Round<V, M>, s: Net<V, M>, vals: seq<V>, e: nat, lt: seq<Instr<V, M>>, rt: seq<Instr<V, M>>)
    returns (run: seq<nat>, s': Net<V, M>)
    requires GroupOf(rd.member, |vals|) && |s.ranks| == |vals| && e < |rd.member| && HasRight(rd, e)
    requires s.ranks[rd.member[e]].val == vals[rd.member[e]]
    requires s.ranks[rd.member[e]].code == TalkRight(rd, e) + lt
    requires var f := e + Pow2(rd.hop);
             && s.ranks[rd.member[f]].val == vals[rd.member[f]]
             && s.ranks[rd.member[f]].code == TalkLeft(rd, f) + rt
    ensures Exec(RendezvousStep, s, run) == Some(s') && s'.wires == s.wires && |s'.ranks| == |s.ranks|
    ensures var a, b := rd.member[e], rd.member[e + Pow2(rd.hop)];
            && (forall r :: 0 <= r < |s.ranks| && r != a && r != b ==> s'.ranks[r] == s.ranks[r])
            && s'.ranks[a].val == vals[a] && s'.ranks[a].code == lt && s'.ranks[a].left == s.ranks[a].left
            && s'.ranks[b].val == vals[b] && s'.ranks[b].code == rt && s'.ranks[b].right == s.ranks[b].right
            && s'.ranks[b].left == rd.toRight(vals[a])
            && (rd.both ==> s'.ranks[a].right == rd.toLeft(vals[b]))
  {
    var f := e + Pow2(rd.hop);
    var a, b := rd.member[e], rd.member[f];
    assert a != b;
    var s1 := RendezvousStep(a, s).value;
    var la, rb := ReadRight(rd, e) + lt, SendLeft(rd, f) + rt;
    assert s.ranks[a].code == SendRight(rd, e) + la && (SendRight(rd, e) + la)[1..] == la;
    assert s.ranks[b].code == ReadLeft(rd, f) + rb && (ReadLeft(rd, f) + rb)[1..] == rb;
    assert Exec(RendezvousStep, s, [a]) == Some(s1);
    if rd.both {
      var s2 := RendezvousStep(b, s1).value;
      assert s1.ranks[a].code[1..] == lt && s1.ranks[b].code[1..] == rt;
      ExecAppend(RendezvousStep, s, [a], [b]);
      assert [a] + [b] == [a, b];
      run, s' := [a, b], s2;
    } else {
      assert la == lt && rb == rt;
      run, s' := [a], s1;
    }
  }

  /** Meeting `e` next changes the remaining code of its two members only. */
  lemma RemainingStep<V(!new), M(!new)>(rd: Round<V, M>, i: nat, e: nat, evens: nat, odds: nat, evens': nat, odds': nat)
    requires rd.Hop? && i < |rd.member| && e < |rd.member|
    requires DueNext(rd, e, evens, odds, evens', odds')
    ensures LeftMet(rd, i, evens', odds') <==> LeftMet(rd, i, evens, odds) || (HasLeft(rd, i) && i == e + Pow2(rd.hop))
    ensures RightMet(rd, i, evens', odds') <==> RightMet(rd, i, evens, odds) || (HasRight(rd, i) && i == e)
    ensures HasRight(rd, e) && i == e ==>
              Remaining(rd, i, evens, odds) == TalkRight(rd, i) + Remaining(rd, i, evens', odds')
    ensures HasRight(rd, e) && i == e + Pow2(rd.hop) ==>
              Remaining(rd, i, evens, odds) == TalkLeft(rd, i) + Remaining(rd, i, evens', odds')
    ensures !HasRight(rd, e) || (i != e && i != e + Pow2(rd.hop)) ==>
              Remaining(rd, i, evens, odds) == Remaining(rd, i, evens', odds')
  {
    hide TalkLeft, TalkRight, Pow2;
    NothingToSay(rd, i);
    ParityAlternates(rd, e);
    if HasLeft(rd, i) {
      ParityAlternates(rd, i - Pow2(rd.hop));
    }
  }

  /** `e` is the pair due next. */
  ghost predicate DueNext<V, M>(rd: Round<V, M>, e: nat, evens: nat, odds: nat, evens': nat, odds': nat) {
    if OddAt(rd, e) then odds == e && odds' == e + 1 && evens == evens' == |rd.member|
    else evens == e && evens' == e + 1 && odds == odds' == 0
  }

  lemma MeetPair<V(!new), M(!new)>(
    rd: Round<V, M>, s: Net<V, M>, vals: seq<V>, rest: nat -> seq<Instr<V, M>>, e: nat,
    evens: nat, odds: nat, evens': nat, odds': nat)
    returns (run: seq<nat>, s': Net<V, M>)
    requires rd.Hop? && e < |rd.member| && HasRight(rd, e) && DueNext(rd, e, evens, odds, evens', odds')
    requires GroupOf(rd.member, |vals|) && |s.ranks| == |vals|
    requires Meeting(rd, s.ranks[rd.member[e]], vals, rest(rd.member[e]), e, evens, odds)
    requires var f := e + Pow2(rd.hop);
             Meeting(rd, s.ranks[rd.member[f]], vals, rest(rd.member[f]), f, evens, odds)
    ensures Exec(RendezvousStep, s, run) == Some(s') && s'.wires == s.wires && |s'.ranks| == |s.ranks|
    ensures forall r :: 0 <= r < |vals| && r != rd.member[e] && r != rd.member[e + Pow2(rd.hop)] ==>
              s'.ranks[r] == s.ranks[r]
    ensures Meeting(rd, s'.ranks[rd.member[e]], vals, rest(rd.member[e]), e, evens', odds')
    ensures var f := e + Pow2(rd.hop);
            Meeting(rd, s'.ranks[rd.member[f]], vals, rest(rd.member[f]), f, evens', odds')
  {
    hide TalkLeft, TalkRight, MergeInstr, Pow2, RendezvousStep, Remaining;
    var f := e + Pow2(rd.hop);
    var a, b := rd.member[e], rd.member[f];
    RemainingStep(rd, e, e, evens, odds, evens', odds');
    RemainingStep(rd, f, e, evens, odds, evens', odds');
    var lt := Remaining(rd, e, evens', odds') + ([MergeInstr(rd, e)] + rest(a));
    var rt := Remaining(rd, f, evens', odds') + ([MergeInstr(rd, f)] + rest(b));
    assert s.ranks[a].code == TalkRight(rd, e) + lt;
    assert s.ranks[b].code == TalkLeft(rd, f) + rt;
    run, s' := PairMeets(rd, s, vals, e, lt, rt);
  }

  /** The pair `e`, if there is one, meets; nothing else changes. */
  lemma MeetNext<V(!new), M(!new)>(
    rd: Round<V, M>, s: Net<V, M>, vals: seq<V>, rest: nat -> seq<Instr<V, M>>, e: nat,
    evens: nat, odds: nat, evens': nat, odds': nat)
    returns (run: seq<nat>, s': Net<V, M>)
    requires rd.Hop? && e < |rd.member| && AllMeeting(rd, s, vals, rest, evens, odds)
    requires DueNext(rd, e, evens, odds, evens', odds')
    ensures Exec(RendezvousStep, s, run) == Some(s')
    ensures AllMeeting(rd, s', vals, rest, evens', odds')
  {
    hide TalkLeft, TalkRight, MergeInstr, Pow2, RendezvousStep, Remaining;
    run, s' := [], s;
    if HasRight(rd, e) {
      assert Meeting(rd, s.ranks[rd.member[e]], vals, rest(rd.member[e]), e, evens, odds);
      run, s' := MeetPair(rd, s, vals, rest, e, evens, odds, evens', odds');
    }
    forall i | 0 <= i < |rd.member|
      ensures Meeting(rd, s'.ranks[rd.member[i]], vals, rest(rd.member[i]), i, evens', odds')
    {
      if !HasRight(rd, e) || (i != e && i != e + Pow2(rd.hop)) {
        RemainingStep(rd, i, e, evens, odds, evens', odds');
        assert Meeting(rd, s.ranks[rd.member[i]], vals, rest(rd.member[i]), i, evens, odds);
      }
    }
  }

  /** All even pairs meet, from pair `e` on. */
  lemma MeetEvens<V(!new), M(!new)>(
    rd: Round<V, M>, s: Net<V, M>, vals: seq<V>, rest: nat -> seq<Instr<V, M>>, e: nat)
    returns (run: seq<nat>, s': Net<V, M>)
    requires rd.Hop? && e <= |rd.member| && AllMeeting(rd, s, vals, rest, e, 0)
    ensures Exec(RendezvousStep, s, run) == Some(s')
    ensures AllMeeting(rd, s', vals, rest, |rd.member|, 0)
    decreases |rd.member| - e
  {
    hide Remaining, MergeInstr, RendezvousStep;
    if e == |rd.member| {
      run, s' := [], s;
    } else {
      var run1, s1 := [], s;
      if OddAt(rd, e) {
        SkipPair(rd, s, vals, rest, e, e, 0, e + 1, 0);
      } else {
        run1, s1 := MeetNext(rd, s, vals, rest, e, e, 0, e + 1, 0);
      }
      var run2;
      run2, s' := MeetEvens(rd, s1, vals, rest, e + 1);
      ExecAppend(RendezvousStep, s, run1, run2);
      run := run1 + run2;
    }
  }

  /** All odd pairs meet, from pair `e` on. */
  lemma MeetOdds<V(!new), M(!new)>(
    rd: Round<V, M>, s: Net<V, M>, vals: seq<V>, rest: nat -> seq<Instr<V, M>>, e: nat)
    returns (run: seq<nat>, s': Net<V, M>)
    requires rd.Hop? && e <= |rd.member| && AllMeeting(rd, s, vals, rest, |rd.member|, e)
    ensures Exec(RendezvousStep, s, run) == Some(s')
    ensures AllMeeting(rd, s', vals, rest, |rd.member|, |rd.member|)
    decreases |rd.member| - e
  {
    hide Remaining, MergeInstr, RendezvousStep;
    var n := |rd.member|;
    if e == n {
      run, s' := [], s;
    } else {
      var run1, s1 := [], s;
      if OddAt(rd, e) {
        run1, s1 := MeetNext(rd, s, vals, rest, e, n, e, n, e + 1);
      } else {
        SkipPair(rd, s, vals, rest, e, n, e, n, e + 1);
      }
      var run2;
      run2, s' := MeetOdds(rd, s1, vals, rest, e + 1);
      ExecAppend(RendezvousStep, s, run1, run2);
      run := run1 + run2;
    }
  }

  /** A pair of the other parity does not count in this phase. */
  lemma SkipPair<V(!new), M(!new)>(
    rd: Round<V, M>, s: Net<V, M>, vals: seq<V>, rest: nat -> seq<Instr<V, M>>, e: nat,
    evens: nat, odds: nat, evens': nat, odds': nat)
    requires rd.Hop? && e < |rd.member| && AllMeeting(rd, s, vals, rest, evens, odds)
    requires if OddAt(rd, e) then evens == e && evens' == e + 1 && odds' == odds
             else odds == e && odds' == e + 1 && evens' == evens
    ensures AllMeeting(rd, s, vals, rest, evens', odds')
  {
    hide MergeInstr, TalkLeft, TalkRight, Pow2, OddAt;
    assert forall e' :: Met(rd, e', evens, odds) == Met(rd, e', evens', odds');
    forall i | 0 <= i < |rd.member|
      ensures Meeting(rd, s.ranks[rd.member[i]], vals, rest(rd.member[i]), i, evens', odds')
    {
      hide Met;
      assert Meeting(rd, s.ranks[rd.member[i]], vals, rest(rd.member[i]), i, evens, odds);
    }
  }

  /** Every pair has met; the members before `k` have merged. */
  ghost predicate Merging<V(!new), M(!new)>(
    rd: Round<V, M>, s: Net<V, M>, vals: seq<V>, rest: nat -> seq<Instr<V, M>>, k: nat)
  {
    && GroupOf(rd.member, |vals|) && |s.ranks| == |vals| && s.wires == map[]
    && (forall r :: 0 <= r < |vals| && r !in rd.member ==>
          s.ranks[r].val == vals[r] && s.ranks[r].code == rest(r))
    && (forall i :: 0 <= i < k && i < |rd.member| ==>
          && s.ranks[rd.member[i]].val == Merged(rd, Gather(vals, rd.member), i)
          && s.ranks[rd.member[i]].code == rest(rd.member[i]))
    && (forall i :: k <= i < |rd.member| ==>
          Meeting(rd, s.ranks[rd.member[i]], vals, rest(rd.member[i]), i, |rd.member|, |rd.member|))
  }

  lemma MergeNext<V(!new), M(!new)>(
    rd: Round<V, M>, s: Net<V, M>, vals: seq<V>, rest: nat -> seq<Instr<V, M>>, k: nat)
    returns (s': Net<V, M>)
    requires k < |rd.member| && Merging(rd, s, vals, rest, k)
    ensures Exec(RendezvousStep, s, [rd.member[k]]) == Some(s')
    ensures Merging(rd, s', vals, rest, k + 1)
  {
    hide MergeInstr, RendezvousStep, Merged, Pow2, TalkLeft, TalkRight, Meeting;
    var a := rd.member[k];
    var n := |rd.member|;
    AllMet(rd, s.ranks[a], vals, rest(a), k);
    s' := DoMerge(rd, s, vals, rest(a), k);
    assert Exec(RendezvousStep, s', []) == Some(s');
    assert forall i :: 0 <= i < n && i != k ==> s'.ranks[rd.member[i]] == s.ranks[rd.member[i]];
  }

  lemma AllMet<V(!new), M(!new)>(
    rd: Round<V, M>, me: Rank<V, M>, vals: seq<V>, tail: seq<Instr<V, M>>, i: nat)
    requires GroupOf(rd.member, |vals|) && i < |rd.member|
    requires Meeting(rd, me, vals, tail, i, |rd.member|, |rd.member|)
    ensures me.val == vals[rd.member[i]] && me.code == [MergeInstr(rd, i)] + tail
    ensures HasLeft(rd, i) ==> me.left == rd.toRight(vals[rd.member[i - Pow2(rd.hop)]])
    ensures HasRight(rd, i) && rd.both ==> me.right == rd.toLeft(vals[rd.member[i + Pow2(rd.hop)]])
  {
    hide MergeInstr, Pow2, TalkLeft, TalkRight;
    NothingToSay(rd, i);
    assert Remaining(rd, i, |rd.member|, |rd.member|) == [];
  }

  lemma MergeAll<V(!new), M(!new)>(
    rd: Round<V, M>, s: Net<V, M>, vals: seq<V>, rest: nat -> seq<Instr<V, M>>, k: nat)
    returns (run: seq<nat>, s': Net<V, M>)
    requires k <= |rd.member| && Merging(rd, s, vals, rest, k)
    ensures Exec(RendezvousStep, s, run) == Some(s')
    ensures Merging(rd, s', vals, rest, |rd.member|)
    decreases |rd.member| - k
  {
    hide RendezvousStep, Merging;
    if k == |rd.member| {
      run, s' := [], s;
    } else {
      var s1 := MergeNext(rd, s, vals, rest, k);
      var run2;
      run2, s' := MergeAll(rd, s1, vals, rest, k + 1);
      ExecAppend(RendezvousStep, s, [rd.member[k]], run2);
      run := [rd.member[k]] + run2;
    }
  }

  lemma StartMeeting<V(!new), M(!new)>(rd: Round<V, M>, s: Net<V, M>, vals: seq<V>, rest: nat -> seq<Instr<V, M>>)
    requires GroupOf(rd.member, |vals|) && Quiet(s, vals, (r: nat) => Code(rd, r, true) + rest(r))
    ensures AllMeeting(rd, s, vals, rest, 0, 0)
  {
    hide Pow2, MergeInstr, BlockingCodeAt, Remaining, Met, HasLeft, HasRight;
    forall i | 0 <= i < |rd.member|
      ensures Meeting(rd, s.ranks[rd.member[i]], vals, rest(rd.member[i]), i, 0, 0)
    {
      PosUnique(rd.member, i);
      NobodyMet(rd, i, rest(rd.member[i]));
    }
  }

  lemma NobodyMet<V, M>(rd: Round<V, M>, i: nat, tail: seq<Instr<V, M>>)
    requires i < |rd.member|
    ensures !LeftMet(rd, i, 0, 0) && !RightMet(rd, i, 0, 0)
    ensures BlockingCodeAt(rd, i) + tail == Remaining(rd, i, 0, 0) + ([MergeInstr(rd, i)] + tail)
  {
    hide TalkLeft, TalkRight, MergeInstr, Pow2;
    assert !LeftMet(rd, i, 0, 0) && !RightMet(rd, i, 0, 0);
    var l, r, m := TalkLeft(rd, i), TalkRight(rd, i), [MergeInstr(rd, i)];
    assert l + r + m + tail == l + r + (m + tail);
    assert r + l + m + tail == r + l + (m + tail);
  }

  lemma ReadyToMerge<V(!new), M(!new)>(
    rd: Round<V, M>, s: Net<V, M>, vals: seq<V>, rest: nat -> seq<Instr<V, M>>, met: nat)
    requires AllMeeting(rd, s, vals, rest, met, met) && (rd.Hop? ==> met == |rd.member|)
    ensures Merging(rd, s, vals, rest, 0)
  {
    hide Pow2, MergeInstr, TalkLeft, TalkRight;
  }

  lemma AllMerged<V(!new), M(!new)>(rd: Round<V, M>, s: Net<V, M>, vals: seq<V>, rest: nat -> seq<Instr<V, M>>)
    requires Merging(rd, s, vals, rest, |rd.member|)
    ensures Quiet(s, SyncRound(rd, vals), rest)
  {
    hide Merged;
    forall r | 0 <= r < |vals|
      ensures s.ranks[r].val == SyncRound(rd, vals)[r] && s.ranks[r].code == rest(r)
    {
      if r in rd.member {
        assert rd.member[Pos(rd.member, r)] == r;
      }
    }
  }

  /** From any quiet network the blocking round can be completed without any buffering, and
      it computes the same synchronous round as the buffered form. */
  lemma RoundCompletes<V(!new), M(!new)>(
    rd: Round<V, M>, s: Net<V, M>, vals: seq<V>, rest: nat -> seq<Instr<V, M>>)
    returns (run: seq<nat>, s': Net<V, M>)
    requires GroupOf(rd.member, |vals|)
    requires Quiet(s, vals, (r: nat) => Code(rd, r, true) + rest(r))
    ensures Exec(RendezvousStep, s, run) == Some(s')
    ensures Quiet(s', SyncRound(rd, vals), rest)
  {
    hide RendezvousStep, Pow2, AllMeeting, Merging, Code, Quiet;
    StartMeeting(rd, s, vals, rest);
    var run1, s1, run2, s2 := [], s, [], s;
    if rd.Hop? {
      run1, s1 := MeetEvens(rd, s, vals, rest, 0);
      run2, s2 := MeetOdds(rd, s1, vals, rest, 0);
      ExecAppend(RendezvousStep, s, run1, run2);
    }
    ReadyToMerge(rd, s2, vals, rest, if rd.Hop? then |rd.member| else 0);
    var run3;
    run3, s' := MergeAll(rd, s2, vals, rest, 0);
    ExecAppend(RendezvousStep, s, run1 + run2, run3);
    run := run1 + run2 + run3;
    AllMerged(rd, s', vals, rest);
  }
}
