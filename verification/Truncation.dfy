/** Executions of the first part of a program.

  When the programs of all ranks come in two parts that use different channels, every execution
  of the whole contains an execution of the first parts: the steps of ranks that are past their
  first part are left out.  So what is known about the first parts alone holds in the middle of
  the whole, however far other ranks have gone ahead. */
module Truncation {
  import opened Confluence
  import opened AsyncNet
  import opened Execution

  /** All channels that the code names are for hops below `k`, or all for others. */
  ghost predicate Uses<V, M>(code: seq<Instr<V, M>>, k: nat, below: bool) {
    forall i :: 0 <= i < |code| && !code[i].Compute? ==> (Wire(code[i]).hop < k) == below
  }

  /** Rank `a` is the same as `b` with `rest` still to come, or is past that point. */
  ghost predicate CutRank<V, M>(a: Rank<V, M>, b: Rank<V, M>, rest: seq<Instr<V, M>>, k: nat) {
    && Uses(b.code, k, true) && Uses(rest, k, false)
    && if |a.code| < |rest| then b.code == [] && Uses(a.code, k, false)
       else a == b.(code := b.code + rest)
  }

  ghost predicate Cut<V(!new), M(!new)>(u: Net<V, M>, v: Net<V, M>, rest: seq<seq<Instr<V, M>>>, k: nat) {
    && |u.ranks| == |v.ranks| == |rest|
    && (forall r :: 0 <= r < |rest| ==> CutRank(u.ranks[r], v.ranks[r], rest[r], k))
    && (forall c: Channel :: c.hop < k ==> Queued(v.wires, c) == Queued(u.wires, c))
  }

  lemma CutNext<V(!new), M(!new)>(a: Rank<V, M>, b: Rank<V, M>, rest: seq<Instr<V, M>>, k: nat)
    requires CutRank(a, b, rest, k) && a.code != []
    ensures b.code != [] ==>
              b.code[0] == a.code[0] && a == b.(code := b.code + rest) && a.code[1..] == b.code[1..] + rest
    ensures b.code != [] && !a.code[0].Compute? ==> Wire(a.code[0]).hop < k
    ensures b.code == [] && !a.code[0].Compute? ==> Wire(a.code[0]).hop >= k
  {
  }

  /** Both go on with the same instruction. */
  lemma CutBoth<V(!new), M(!new)>(
    a: Rank<V, M>, b: Rank<V, M>, a': Rank<V, M>, b': Rank<V, M>, rest: seq<Instr<V, M>>, k: nat)
    requires CutRank(a, b, rest, k) && a.code != [] && b.code != []
    requires a'.code == a.code[1..] && b' == a'.(code := b.code[1..])
    ensures CutRank(a', b', rest, k)
  {
    CutNext(a, b, rest, k);
    assert a' == b'.(code := b'.code + rest);
  }

  /** The whole goes on, past the first part. */
  lemma CutOne<V(!new), M(!new)>(a: Rank<V, M>, b: Rank<V, M>, a': Rank<V, M>, rest: seq<Instr<V, M>>, k: nat)
    requires CutRank(a, b, rest, k) && a.code != [] && b.code == [] && a'.code == a.code[1..]
    ensures CutRank(a', b, rest, k)
  {
    assert |a.code| <= |rest|;
  }

  lemma CutBuffered<V(!new), M(!new)>(
    u: Net<V, M>, v: Net<V, M>, rest: seq<seq<Instr<V, M>>>, k: nat, a: nat) returns (v': Net<V, M>)
    requires Cut(u, v, rest, k) && BufferedStep(a, u).Some?
    ensures v' == v || BufferedStep(a, v) == Some(v')
    ensures Cut(BufferedStep(a, u).value, v', rest, k)
  {
    hide CutRank;
    var u' := BufferedStep(a, u).value;
    var me, it := u.ranks[a], v.ranks[a];
    assert CutRank(me, it, rest[a], k);
    CutNext(me, it, rest[a], k);
    if it.code == [] {
      v' := v;
      CutOne(me, it, u'.ranks[a], rest[a], k);
    } else {
      assert BufferedStep(a, v).Some?;
      v' := BufferedStep(a, v).value;
      CutBoth(me, it, u'.ranks[a], v'.ranks[a], rest[a], k);
    }
    forall r | 0 <= r < |rest| ensures CutRank(u'.ranks[r], v'.ranks[r], rest[r], k) {
      assert CutRank(u.ranks[r], v.ranks[r], rest[r], k);
    }
  }

  lemma CutRendezvous<V(!new), M(!new)>(
    u: Net<V, M>, v: Net<V, M>, rest: seq<seq<Instr<V, M>>>, k: nat, a: nat) returns (v': Net<V, M>)
    requires Cut(u, v, rest, k) && RendezvousStep(a, u).Some?
    ensures v' == v || RendezvousStep(a, v) == Some(v')
    ensures Cut(RendezvousStep(a, u).value, v', rest, k)
  {
    hide CutRank;
    var u' := RendezvousStep(a, u).value;
    var me, it := u.ranks[a], v.ranks[a];
    assert CutRank(me, it, rest[a], k);
    CutNext(me, it, rest[a], k);
    if me.code[0].Send? {
      var b := me.code[0].to.dst;
      assert CutRank(u.ranks[b], v.ranks[b], rest[b], k);
      CutNext(u.ranks[b], v.ranks[b], rest[b], k);
      if it.code == [] {
        v' := v;
        CutOne(me, it, u'.ranks[a], rest[a], k);
        CutOne(u.ranks[b], v.ranks[b], u'.ranks[b], rest[b], k);
      } else {
        assert RendezvousStep(a, v).Some?;
        v' := RendezvousStep(a, v).value;
        CutBoth(me, it, u'.ranks[a], v'.ranks[a], rest[a], k);
        CutBoth(u.ranks[b], v.ranks[b], u'.ranks[b], v'.ranks[b], rest[b], k);
      }
    } else if it.code == [] {
      v' := v;
      CutOne(me, it, u'.ranks[a], rest[a], k);
    } else {
      assert RendezvousStep(a, v).Some?;
      v' := RendezvousStep(a, v).value;
      CutBoth(me, it, u'.ranks[a], v'.ranks[a], rest[a], k);
    }
    forall r | 0 <= r < |rest| ensures CutRank(u'.ranks[r], v'.ranks[r], rest[r], k) {
      assert CutRank(u.ranks[r], v.ranks[r], rest[r], k);
    }
  }

  /** Every run of the whole contains a run of the first parts. */
  lemma {:induction false} CutRun<V(!new), M(!new)>(
    u: Net<V, M>, v: Net<V, M>, rest: seq<seq<Instr<V, M>>>, k: nat, blocking: bool, run: seq<nat>)
    returns (part: seq<nat>, v': Net<V, M>)
    requires Cut(u, v, rest, k) && Exec(Step(blocking), u, run).Some?
    ensures Exec(Step(blocking), v, part) == Some(v') && Cut(Exec(Step(blocking), u, run).value, v', rest, k)
    decreases |run|
  {
    hide Cut;
    if run == [] {
      part, v' := [], v;
    } else {
      var v1;
      if blocking { v1 := CutRendezvous(u, v, rest, k, run[0]); } else { v1 := CutBuffered(u, v, rest, k, run[0]); }
      var more;
      more, v' := CutRun(Step(blocking)(run[0], u).value, v1, rest, k, blocking, run[1..]);
      if v1 == v {
        part := more;
      } else {
        part := [run[0]] + more;
        assert part[0] == run[0] && part[1..] == more;
      }
    }
  }
}
