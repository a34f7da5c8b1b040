/** A schedule of the buffered machine that completes one round: every member writes,
  then every member reads and merges. */
module BufferedRounds {
  import opened Confluence
  import opened AsyncNet
  import opened Rounds

  ghost predicate Tidy<M>(wires: map<Channel, seq<M>>) {
    forall c :: c in wires ==> wires[c] != []
  }

  /** What channel `c` holds when the members before `sent` have written and the members
      before `read` have read. */
  ghost function Posted<V, M>(rd: Round<V, M>, vals: seq<V>, c: Channel, sent: nat, read: nat): seq<M>
    requires GroupOf(rd.member, |vals|)
  {
    if rd.Local? || c.grp != rd.grp || c.hop != rd.hop || c.src !in rd.member || c.dst !in rd.member then []
    else
      var i, t := Pos(rd.member, c.src), Pos(rd.member, c.dst);
      if i >= sent || t < read then []
      else if t == i + Pow2(rd.hop) then [rd.toRight(vals[c.src])]
      else if rd.both && i == t + Pow2(rd.hop) then [rd.toLeft(vals[c.src])]
      else []
  }

  ghost function Reads<V, M>(rd: Round<V, M>, i: nat): seq<Instr<V, M>>
    requires i < |rd.member|
  {
    ReadLeft(rd, i) + ReadRight(rd, i) + [MergeInstr(rd, i)]
  }

  ghost predicate MemberAt<V, M>(
    rd: Round<V, M>, me: Rank<V, M>, vals: seq<V>, tail: seq<Instr<V, M>>, i: nat, sent: nat, read: nat)
    requires GroupOf(rd.member, |vals|) && i < |rd.member|
  {
    if i < read then me.val == Merged(rd, Gather(vals, rd.member), i) && me.code == tail
    else
      && me.val == vals[rd.member[i]]
      && me.code == (if i < sent then Reads(rd, i) else CodeAt(rd, i)) + tail
  }

  /** The members before `sent` have written, those before `read` have finished the round. */
  ghost predicate Midway<V(!new), M(!new)>(
    rd: Round<V, M>, s: Net<V, M>, vals: seq<V>, rest: nat -> seq<Instr<V, M>>, sent: nat, read: nat)
  {
    && GroupOf(rd.member, |vals|)
    && |s.ranks| == |vals|
    && Tidy(s.wires)
    && (forall c :: Queued(s.wires, c) == Posted(rd, vals, c, sent, read))
    && (forall r :: 0 <= r < |vals| && r !in rd.member ==>
          s.ranks[r].val == vals[r] && s.ranks[r].code == rest(r))
    && (forall i :: 0 <= i < |rd.member| ==>
          MemberAt(rd, s.ranks[rd.member[i]], vals, rest(rd.member[i]), i, sent, read))
  }

  /** When only the member at position `k` moves, the other members stay where they are. */
  lemma OthersStay<V(!new), M(!new)>(
    rd: Round<V, M>, s: Net<V, M>, s': Net<V, M>, vals: seq<V>, rest: nat -> seq<Instr<V, M>>, k: nat,
    sent: nat, read: nat, sent': nat, read': nat)
    requires GroupOf(rd.member, |vals|) && k < |rd.member| && |s.ranks| == |s'.ranks| == |vals|
    requires forall i :: 0 <= i < |rd.member| ==>
               MemberAt(rd, s.ranks[rd.member[i]], vals, rest(rd.member[i]), i, sent, read)
    requires forall r :: 0 <= r < |vals| && r != rd.member[k] ==> s'.ranks[r] == s.ranks[r]
    requires sent' == sent || sent' == sent + 1 == k + 1
    requires read' == read || read' == read + 1 == k + 1
    requires MemberAt(rd, s'.ranks[rd.member[k]], vals, rest(rd.member[k]), k, sent', read')
    ensures forall i :: 0 <= i < |rd.member| ==>
              MemberAt(rd, s'.ranks[rd.member[i]], vals, rest(rd.member[i]), i, sent', read')
  {
    forall i | 0 <= i < |rd.member| && i != k
      ensures MemberAt(rd, s'.ranks[rd.member[i]], vals, rest(rd.member[i]), i, sent', read')
    {
      assert MemberAt(rd, s.ranks[rd.member[i]], vals, rest(rd.member[i]), i, sent, read);
    }
  }

  lemma DoSend<V, M>(s: Net<V, M>, a: nat, to: Channel, msg: V -> M, tail: seq<Instr<V, M>>)
    returns (s': Net<V, M>)
    requires a < |s.ranks| && to.src == a && Tidy(s.wires)
    requires s.ranks[a].code == [Send(to, msg)] + tail
    ensures BufferedStep(a, s) == Some(s') && Tidy(s'.wires)
    ensures s'.ranks == s.ranks[a := s.ranks[a].(code := tail)]
    ensures forall c :: Queued(s'.wires, c) ==
              Queued(s.wires, c) + if c == to then [msg(s.ranks[a].val)] else []
  {
    s' := BufferedStep(a, s).value;
    assert ([Send(to, msg)] + tail)[1..] == tail;
  }

  lemma DoRead<V, M>(s: Net<V, M>, a: nat, from: Channel, m: M, tail: seq<Instr<V, M>>)
    returns (s': Net<V, M>)
    requires a < |s.ranks| && from.dst == a && Tidy(s.wires)
    requires Queued(s.wires, from) == [m]
    requires s.ranks[a].code == [RecvLeft(from)] + tail || s.ranks[a].code == [RecvRight(from)] + tail
    ensures BufferedStep(a, s) == Some(s') && Tidy(s'.wires)
    ensures s'.ranks == s.ranks[a := if s.ranks[a].code[0].RecvLeft? then s.ranks[a].(code := tail, left := m)
                                                                     else s.ranks[a].(code := tail, right := m)]
    ensures forall c :: Queued(s'.wires, c) == if c == from then [] else Queued(s.wires, c)
  {
    s' := BufferedStep(a, s).value;
    assert s.ranks[a].code[1..] == tail;
  }

  lemma Regroup<T>(a: seq<T>, b: seq<T>, c: seq<T>, d: seq<T>, e: seq<T>, tail: seq<T>)
    ensures a + b + c + d + e + tail == a + b + (c + d + e + tail)
    ensures c + d + e + tail == c + (d + (e + tail))
  {
  }

  /** What the member at position `k` writes to channel `c`. */
  ghost function Written<V, M>(rd: Round<V, M>, vals: seq<V>, c: Channel, k: nat): seq<M>
    requires GroupOf(rd.member, |vals|) && k < |rd.member|
  {
    if SendLeft(rd, k) != [] && c == SendLeft(rd, k)[0].to then [rd.toLeft(vals[rd.member[k]])]
    else if SendRight(rd, k) != [] && c == SendRight(rd, k)[0].to then [rd.toRight(vals[rd.member[k]])]
    else []
  }

  lemma PostedBySend<V(!new), M(!new)>(rd: Round<V, M>, vals: seq<V>, c: Channel, k: nat)
    requires GroupOf(rd.member, |vals|) && k < |rd.member|
    ensures Posted(rd, vals, c, k + 1, 0) == Posted(rd, vals, c, k, 0) + Written(rd, vals, c, k)
  {
    hide Pow2;
    PosUnique(rd.member, k);
    if c.src == rd.member[k] && rd.Hop? {
      var d := Pow2(rd.hop);
      if HasLeft(rd, k) { PosUnique(rd.member, k - d); }
      if HasRight(rd, k) { PosUnique(rd.member, k + d); }
    }
  }

  lemma PostedAfterWrite<V(!new), M(!new)>(
    rd: Round<V, M>, w: map<Channel, seq<M>>, w': map<Channel, seq<M>>, vals: seq<V>, k: nat)
    requires GroupOf(rd.member, |vals|) && k < |rd.member|
    requires forall c :: Queued(w, c) == Posted(rd, vals, c, k, 0)
    requires forall c :: Queued(w', c) == Queued(w, c) + Written(rd, vals, c, k)
    ensures forall c :: Queued(w', c) == Posted(rd, vals, c, k + 1, 0)
  {
    forall c ensures Queued(w', c) == Posted(rd, vals, c, k + 1, 0) {
      PostedBySend(rd, vals, c, k);
    }
  }

  /** The writes of the member at position `k`, as one change of the network. */
  lemma WriteSteps<V(!new), M(!new)>(
    rd: Round<V, M>, s: Net<V, M>, vals: seq<V>, tail: seq<Instr<V, M>>, k: nat)
    returns (run: seq<nat>, s': Net<V, M>)
    requires GroupOf(rd.member, |vals|) && k < |rd.member| && |s.ranks| == |vals| && Tidy(s.wires)
    requires s.ranks[rd.member[k]].val == vals[rd.member[k]]
    requires s.ranks[rd.member[k]].code == CodeAt(rd, k) + tail
    ensures Exec(BufferedStep, s, run) == Some(s') && Tidy(s'.wires)
    ensures s'.ranks == s.ranks[rd.member[k] := s.ranks[rd.member[k]].(code := Reads(rd, k) + tail)]
    ensures forall c :: Queued(s'.wires, c) == Queued(s.wires, c) + Written(rd, vals, c, k)
  {
    hide Pow2, BufferedStep, ReadLeft, ReadRight, MergeInstr;
    var a := rd.member[k];
    run, s' := [], s;
    var left := Reads(rd, k) + tail;
    var rest := SendRight(rd, k) + left;
    Regroup(SendLeft(rd, k), SendRight(rd, k), ReadLeft(rd, k), ReadRight(rd, k), [MergeInstr(rd, k)], tail);
    assert s.ranks[a].code == SendLeft(rd, k) + rest;
    if SendLeft(rd, k) != [] {
      s' := DoSend(s, a, SendLeft(rd, k)[0].to, rd.toLeft, rest);
      run := [a];
    }
    assert s'.ranks[a].code == rest;
    if SendRight(rd, k) != [] {
      var s1 := s';
      s' := DoSend(s1, a, SendRight(rd, k)[0].to, rd.toRight, left);
      ExecAppend(BufferedStep, s, run, [a]);
      run := run + [a];
    }
    assert s'.ranks[a] == s.ranks[a].(code := left);
  }

  /** The member at position `k` writes to its partners. */
  lemma WriteOne<V(!new), M(!new)>(
    rd: Round<V, M>, s: Net<V, M>, vals: seq<V>, rest: nat -> seq<Instr<V, M>>, k: nat)
    returns (run: seq<nat>, s': Net<V, M>)
    requires k < |rd.member| && Midway(rd, s, vals, rest, k, 0)
    ensures Exec(BufferedStep, s, run) == Some(s')
    ensures Midway(rd, s', vals, rest, k + 1, 0)
  {
    hide Posted, SendLeft, SendRight, ReadLeft, ReadRight, MergeInstr, BufferedStep, Merged, Gather;
    var a := rd.member[k];
    assert MemberAt(rd, s.ranks[a], vals, rest(a), k, k, 0);
    run, s' := WriteSteps(rd, s, vals, rest(a), k);
    PostedAfterWrite(rd, s.wires, s'.wires, vals, k);
    assert MemberAt(rd, s'.ranks[a], vals, rest(a), k, k + 1, 0);
    OthersStay(rd, s, s', vals, rest, k, k, 0, k + 1, 0);
  }

  lemma WriteAll<V(!new), M(!new)>(
    rd: Round<V, M>, s: Net<V, M>, vals: seq<V>, rest: nat -> seq<Instr<V, M>>, k: nat)
    returns (run: seq<nat>, s': Net<V, M>)
    requires k <= |rd.member| && Midway(rd, s, vals, rest, k, 0)
    ensures Exec(BufferedStep, s, run) == Some(s')
    ensures Midway(rd, s', vals, rest, |rd.member|, 0)
    decreases |rd.member| - k
  {
    run, s' := [], s;
    if k < |rd.member| {
      var run1, s1 := WriteOne(rd, s, vals, rest, k);
      var run2;
      run2, s' := WriteAll(rd, s1, vals, rest, k + 1);
      ExecAppend(BufferedStep, s, run1, run2);
      run := run1 + run2;
    }
  }

  predicate Into<V, M>(rd: Round<V, M>, c: Channel, k: nat)
    requires k < |rd.member|
  {
    || (ReadLeft(rd, k) != [] && c == ReadLeft(rd, k)[0].from)
    || (ReadRight(rd, k) != [] && c == ReadRight(rd, k)[0].from)
  }

  lemma PostedByRead<V(!new), M(!new)>(rd: Round<V, M>, vals: seq<V>, c: Channel, k: nat)
    requires GroupOf(rd.member, |vals|) && k < |rd.member|
    ensures Posted(rd, vals, c, |rd.member|, k + 1) ==
            if Into(rd, c, k) then [] else Posted(rd, vals, c, |rd.member|, k)
  {
    PosUnique(rd.member, k);
    if HasLeft(rd, k) { PosUnique(rd.member, k - Pow2(rd.hop)); }
    if HasRight(rd, k) { PosUnique(rd.member, k + Pow2(rd.hop)); }
  }

  lemma DoMerge<V(!new), M(!new)>(rd: Round<V, M>, s: Net<V, M>, vals: seq<V>, tail: seq<Instr<V, M>>, k: nat)
    returns (s': Net<V, M>)
    requires GroupOf(rd.member, |vals|) && k < |rd.member| && |s.ranks| == |vals|
    requires s.ranks[rd.member[k]].val == vals[rd.member[k]]
    requires s.ranks[rd.member[k]].code == [MergeInstr(rd, k)] + tail
    requires HasLeft(rd, k) ==>
               s.ranks[rd.member[k]].left == rd.toRight(vals[rd.member[k - Pow2(rd.hop)]])
    requires HasRight(rd, k) && rd.both ==>
               s.ranks[rd.member[k]].right == rd.toLeft(vals[rd.member[k + Pow2(rd.hop)]])
    ensures BufferedStep(rd.member[k], s) == Some(s') && RendezvousStep(rd.member[k], s) == Some(s')
    ensures s'.wires == s.wires && |s'.ranks| == |s.ranks|
    ensures forall r :: 0 <= r < |s.ranks| && r != rd.member[k] ==> s'.ranks[r] == s.ranks[r]
    ensures s'.ranks[rd.member[k]].val == Merged(rd, Gather(vals, rd.member), k)
    ensures s'.ranks[rd.member[k]].code == tail
  {
    s' := BufferedStep(rd.member[k], s).value;
    assert ([MergeInstr(rd, k)] + tail)[1..] == tail;
  }

  /** The messages the member at position `k` is about to read. */
  ghost predicate Awaited<V, M>(rd: Round<V, M>, wires: map<Channel, seq<M>>, vals: seq<V>, k: nat)
    requires GroupOf(rd.member, |vals|) && k < |rd.member|
  {
    && (HasLeft(rd, k) ==>
          Queued(wires, Link(rd, k - Pow2(rd.hop), k)) == [rd.toRight(vals[rd.member[k - Pow2(rd.hop)]])])
    && (HasRight(rd, k) && rd.both ==>
          Queued(wires, Link(rd, k + Pow2(rd.hop), k)) == [rd.toLeft(vals[rd.member[k + Pow2(rd.hop)]])])
  }

  lemma PostedIsAwaited<V(!new), M(!new)>(rd: Round<V, M>, wires: map<Channel, seq<M>>, vals: seq<V>, k: nat)
    requires GroupOf(rd.member, |vals|) && k < |rd.member|
    requires forall c :: Queued(wires, c) == Posted(rd, vals, c, |rd.member|, k)
    ensures Awaited(rd, wires, vals, k)
  {
    PosUnique(rd.member, k);
    if HasLeft(rd, k) { PosUnique(rd.member, k - Pow2(rd.hop)); }
    if HasRight(rd, k) { PosUnique(rd.member, k + Pow2(rd.hop)); }
  }

  /** The reads of the member at position `k`, as one change of the network. */
  lemma ReadSteps<V(!new), M(!new)>(
    rd: Round<V, M>, s: Net<V, M>, vals: seq<V>, tail: seq<Instr<V, M>>, k: nat)
    returns (run: seq<nat>, s': Net<V, M>)
    requires GroupOf(rd.member, |vals|) && k < |rd.member| && |s.ranks| == |vals| && Tidy(s.wires)
    requires s.ranks[rd.member[k]].code == ReadLeft(rd, k) + (ReadRight(rd, k) + tail)
    requires Awaited(rd, s.wires, vals, k)
    ensures Exec(BufferedStep, s, run) == Some(s') && Tidy(s'.wires) && |s'.ranks| == |s.ranks|
    ensures forall r :: 0 <= r < |s.ranks| && r != rd.member[k] ==> s'.ranks[r] == s.ranks[r]
    ensures var me := s'.ranks[rd.member[k]];
            && me.val == s.ranks[rd.member[k]].val && me.code == tail
            && (HasLeft(rd, k) ==> me.left == rd.toRight(vals[rd.member[k - Pow2(rd.hop)]]))
            && (HasRight(rd, k) && rd.both ==> me.right == rd.toLeft(vals[rd.member[k + Pow2(rd.hop)]]))
    ensures forall c :: Queued(s'.wires, c) == if Into(rd, c, k) then [] else Queued(s.wires, c)
  {
    hide Pow2, BufferedStep;
    var a := rd.member[k];
    run, s' := [], s;
    var rest := ReadRight(rd, k) + tail;
    if HasLeft(rd, k) {
      var from := Link(rd, k - Pow2(rd.hop), k);
      s' := DoRead(s, a, from, rd.toRight(vals[from.src]), rest);
      run := [a];
    }
    assert s'.ranks[a].code == rest;
    if HasRight(rd, k) && rd.both {
      var from := Link(rd, k + Pow2(rd.hop), k);
      var s1 := s';
      if HasLeft(rd, k) {
        assert rd.member[k - Pow2(rd.hop)] != rd.member[k + Pow2(rd.hop)];
      }
      s' := DoRead(s1, a, from, rd.toLeft(vals[from.src]), tail);
      ExecAppend(BufferedStep, s, run, [a]);
      run := run + [a];
    }
    assert s'.ranks[a].code == tail;
  }

  lemma ReadAndMerge<V(!new), M(!new)>(
    rd: Round<V, M>, s: Net<V, M>, vals: seq<V>, tail: seq<Instr<V, M>>, k: nat)
    returns (run: seq<nat>, s': Net<V, M>)
    requires GroupOf(rd.member, |vals|) && k < |rd.member| && |s.ranks| == |vals| && Tidy(s.wires)
    requires s.ranks[rd.member[k]].val == vals[rd.member[k]]
    requires s.ranks[rd.member[k]].code == Reads(rd, k) + tail
    requires Awaited(rd, s.wires, vals, k)
    ensures Exec(BufferedStep, s, run) == Some(s') && Tidy(s'.wires) && |s'.ranks| == |s.ranks|
    ensures forall r :: 0 <= r < |s.ranks| && r != rd.member[k] ==> s'.ranks[r] == s.ranks[r]
    ensures s'.ranks[rd.member[k]].val == Merged(rd, Gather(vals, rd.member), k)
    ensures s'.ranks[rd.member[k]].code == tail
    ensures forall c :: Queued(s'.wires, c) == if Into(rd, c, k) then [] else Queued(s.wires, c)
  {
    Regroup([], [], ReadLeft(rd, k), ReadRight(rd, k), [MergeInstr(rd, k)], tail);
    var run1, s1 := ReadSteps(rd, s, vals, [MergeInstr(rd, k)] + tail, k);
    s' := DoMerge(rd, s1, vals, tail, k);
    ExecAppend(BufferedStep, s, run1, [rd.member[k]]);
    run := run1 + [rd.member[k]];
  }

  /** The member at position `k` reads from its partners and merges. */
  lemma ReadOne<V(!new), M(!new)>(
    rd: Round<V, M>, s: Net<V, M>, vals: seq<V>, rest: nat -> seq<Instr<V, M>>, k: nat)
    returns (run: seq<nat>, s': Net<V, M>)
    requires k < |rd.member| && Midway(rd, s, vals, rest, |rd.member|, k)
    ensures Exec(BufferedStep, s, run) == Some(s')
    ensures Midway(rd, s', vals, rest, |rd.member|, k + 1)
  {
    hide Posted, ReadLeft, ReadRight, MergeInstr, BufferedStep, Merged, Gather, Pow2;
    var a, n := rd.member[k], |rd.member|;
    assert MemberAt(rd, s.ranks[a], vals, rest(a), k, n, k);
    PostedIsAwaited(rd, s.wires, vals, k);
    run, s' := ReadAndMerge(rd, s, vals, rest(a), k);
    forall c ensures Queued(s'.wires, c) == Posted(rd, vals, c, n, k + 1) {
      PostedByRead(rd, vals, c, k);
    }
    OthersStay(rd, s, s', vals, rest, k, n, k, n, k + 1);
  }

  lemma ReadAll<V(!new), M(!new)>(
    rd: Round<V, M>, s: Net<V, M>, vals: seq<V>, rest: nat -> seq<Instr<V, M>>, k: nat)
    returns (run: seq<nat>, s': Net<V, M>)
    requires k <= |rd.member| && Midway(rd, s, vals, rest, |rd.member|, k)
    ensures Exec(BufferedStep, s, run) == Some(s')
    ensures Midway(rd, s', vals, rest, |rd.member|, |rd.member|)
    decreases |rd.member| - k
  {
    run, s' := [], s;
    if k < |rd.member| {
      var run1, s1 := ReadOne(rd, s, vals, rest, k);
      var run2;
      run2, s' := ReadAll(rd, s1, vals, rest, k + 1);
      ExecAppend(BufferedStep, s, run1, run2);
      run := run1 + run2;
    }
  }

  /** From any quiet network the round can be completed, and it computes the synchronous round. */
  lemma RoundCompletes<V(!new), M(!new)>(
    rd: Round<V, M>, s: Net<V, M>, vals: seq<V>, rest: nat -> seq<Instr<V, M>>)
    returns (run: seq<nat>, s': Net<V, M>)
    requires GroupOf(rd.member, |vals|)
    requires Quiet(s, vals, (r: nat) => Code(rd, r, false) + rest(r))
    ensures Exec(BufferedStep, s, run) == Some(s')
    ensures Quiet(s', SyncRound(rd, vals), rest)
  {
    forall i | 0 <= i < |rd.member|
      ensures MemberAt(rd, s.ranks[rd.member[i]], vals, rest(rd.member[i]), i, 0, 0)
    {
      PosUnique(rd.member, i);
    }
    var run1, s1 := WriteAll(rd, s, vals, rest, 0);
    var run2;
    run2, s' := ReadAll(rd, s1, vals, rest, 0);
    ExecAppend(BufferedStep, s, run1, run2);
    run := run1 + run2;
    forall c ensures c !in s'.wires {
      assert Queued(s'.wires, c) == [];
    }
    forall r | 0 <= r < |vals|
      ensures s'.ranks[r].val == SyncRound(rd, vals)[r] && s'.ranks[r].code == rest(r)
    {
      if r in rd.member {
        var i, n := Pos(rd.member, r), |rd.member|;
        assert MemberAt(rd, s'.ranks[rd.member[i]], vals, rest(rd.member[i]), i, n, n);
      }
    }
  }
}
