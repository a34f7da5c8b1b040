/** Light-weight groups, and the doubling loop that all their collectives share. */
module Groups {
  import opened Confluence
  import opened Lists
  import opened AsyncNet
  import opened Rounds

  /** A rank's view of its group: its own position, and the ranks behind the positions, which
      the channel lists reach 2^k positions away on either side. */
  datatype Lwgrp = Lwgrp(id: nat, rank: nat, peers: seq<nat>) {
    ghost predicate Valid() {
      rank < |peers| && NoDup(peers)
    }

    function Size(): nat { |peers| }

    /** The channel to the member at position `to`, in the list entry of hop `k`. */
    function ChannelTo(to: nat, k: nat): Channel
      requires rank < |peers| && to < |peers|
    {
      Channel(peers[rank], peers[to], id, k)
    }

    function ChannelFrom(from: nat, k: nat): Channel
      requires rank < |peers| && from < |peers|
    {
      Channel(peers[from], peers[rank], id, k)
    }
  }

  /** What a collective does in each of its rounds. */
  datatype Kind<!V, !M> =
    Kind(both: bool, toLeft: V -> M, toRight: V -> M, merge: (V, Option<M>, Option<M>) -> V)

  function HopRound<V, M>(member: seq<nat>, id: nat, kind: Kind<V, M>, k: nat): Round<V, M> {
    Hop(member, id, k, kind.both, kind.toLeft, kind.toRight, kind.merge)
  }

  /** The rounds `k`, `k + 1`, ... whose distance is smaller than the group. */
  function HopRounds<V, M>(member: seq<nat>, id: nat, kind: Kind<V, M>, k: nat): (rounds: seq<Round<V, M>>)
    ensures forall j :: 0 <= j < |rounds| ==> rounds[j].member == member
    decreases |member| - Pow2(k)
  {
    if Pow2(k) >= |member| then []
    else [HopRound(member, id, kind, k)] + HopRounds(member, id, kind, k + 1)
  }

  /** Rounds of one group, on the values of that group alone. */
  ghost function RunGroup<V(!new), M(!new)>(rounds: seq<Round<V, M>>, sub: seq<V>): (out: seq<V>)
    requires forall k :: 0 <= k < |rounds| ==> |rounds[k].member| == |sub|
    ensures |out| == |sub|
  {
    if rounds == [] then sub else RunGroup(rounds[1..], GroupRound(rounds[0], sub))
  }

  lemma GatherScatter<V>(vals: seq<V>, member: seq<nat>, sub: seq<V>, sub': seq<V>)
    requires GroupOf(member, |vals|) && |sub| == |sub'| == |member|
    ensures Gather(Scatter(vals, member, sub), member) == sub
    ensures Scatter(Scatter(vals, member, sub), member, sub') == Scatter(vals, member, sub')
    ensures Scatter(vals, member, Gather(vals, member)) == vals
  {
    forall i | 0 <= i < |member| ensures Pos(member, member[i]) == i {
      PosUnique(member, i);
    }
  }

  /** Rounds of one group change the values of its members as if the group were alone. */
  lemma {:induction false} GroupAlone<V(!new), M(!new)>(rounds: seq<Round<V, M>>, member: seq<nat>, vals: seq<V>)
    requires GroupOf(member, |vals|)
    requires forall k :: 0 <= k < |rounds| ==> rounds[k].member == member
    ensures RunRounds(rounds, vals) == Scatter(vals, member, RunGroup(rounds, Gather(vals, member)))
    decreases |rounds|
  {
    if rounds == [] {
      GatherScatter(vals, member, Gather(vals, member), Gather(vals, member));
    } else {
      var sub := GroupRound(rounds[0], Gather(vals, member));
      GroupAlone(rounds[1..], member, SyncRound(rounds[0], vals));
      GatherScatter(vals, member, sub, RunGroup(rounds[1..], sub));
    }
  }

  lemma {:induction false} RunRoundsAppend<V(!new), M(!new)>(
    first: seq<Round<V, M>>, second: seq<Round<V, M>>, vals: seq<V>)
    requires ValidRounds(first, |vals|) && ValidRounds(second, |vals|)
    ensures ValidRounds(first + second, |vals|)
    ensures RunRounds(first + second, vals) == RunRounds(second, RunRounds(first, vals))
    decreases |first|
  {
    hide SyncRound, GroupOf;
    if first == [] {
      assert first + second == second;
    } else {
      var both := first + second;
      assert both[0] == first[0] && both[1..] == first[1..] + second;
      RunRoundsAppend(first[1..], second, SyncRound(first[0], vals));
    }
  }

  lemma {:induction false} RunGroupAppend<V(!new), M(!new)>(
    first: seq<Round<V, M>>, second: seq<Round<V, M>>, sub: seq<V>)
    requires forall k :: 0 <= k < |first| ==> |first[k].member| == |sub|
    requires forall k :: 0 <= k < |second| ==> |second[k].member| == |sub|
    ensures RunGroup(first + second, sub) == RunGroup(second, RunGroup(first, sub))
    decreases |first|
  {
    if first == [] {
      assert first + second == second;
    } else {
      RunGroupAppend(first[1..], second, GroupRound(first[0], sub));
      assert (first + second)[0] == first[0] && (first + second)[1..] == first[1..] + second;
    }
  }

  lemma {:induction false} ProgramAppend<V, M>(
    first: seq<Round<V, M>>, second: seq<Round<V, M>>, r: nat, blocking: bool)
    ensures Program(first + second, r, blocking) == Program(first, r, blocking) + Program(second, r, blocking)
    decreases |first|
  {
    hide Code;
    if first == [] {
      assert first + second == second;
    } else {
      ProgramAppend(first[1..], second, r, blocking);
      assert (first + second)[0] == first[0] && (first + second)[1..] == first[1..] + second;
    }
  }

  /** One round of one rank, with buffered writes: write to the left and to the right, read
      from the left and from the right, then merge. */
  method RoundCode<V, M>(g: Lwgrp, kind: Kind<V, M>, round: nat, dist: nat) returns (code: seq<Instr<V, M>>)
    requires g.Valid() && dist == Pow2(round)
    ensures code == CodeAt(HopRound(g.peers, g.id, kind, round), g.rank)
  {
    hide Pow2;
    ghost var rd, i := HopRound(g.peers, g.id, kind, round), g.rank;
    code := [];
    if g.rank - dist >= 0 && kind.both {
      code := code + [Send(g.ChannelTo(g.rank - dist, round), kind.toLeft)];
    }
    assert code == SendLeft(rd, i);
    if g.rank + dist < g.Size() {
      code := code + [Send(g.ChannelTo(g.rank + dist, round), kind.toRight)];
    }
    assert code == SendLeft(rd, i) + SendRight(rd, i);
    if g.rank - dist >= 0 {
      code := code + [RecvLeft(g.ChannelFrom(g.rank - dist, round))];
    }
    assert code == SendLeft(rd, i) + SendRight(rd, i) + ReadLeft(rd, i);
    if g.rank + dist < g.Size() && kind.both {
      code := code + [RecvRight(g.ChannelFrom(g.rank + dist, round))];
    }
    assert code == SendLeft(rd, i) + SendRight(rd, i) + ReadLeft(rd, i) + ReadRight(rd, i);
    code := code + [MergeInstr(HopRound(g.peers, g.id, kind, round), g.rank)];
  }

  /** One round of one rank, with blocking writes: the parity of the rank shifted right by the
      round decides which partner comes first. */
  method BlockingRoundCode<V, M>(g: Lwgrp, kind: Kind<V, M>, round: nat, dist: nat) returns (code: seq<Instr<V, M>>)
    requires g.Valid() && dist == Pow2(round)
    ensures code == BlockingCodeAt(HopRound(g.peers, g.id, kind, round), g.rank)
  {
    var left, right := [], [];
    if g.rank - dist >= 0 {
      left := [RecvLeft(g.ChannelFrom(g.rank - dist, round))];
      if kind.both {
        left := left + [Send(g.ChannelTo(g.rank - dist, round), kind.toLeft)];
      }
    }
    if g.rank + dist < g.Size() {
      right := [Send(g.ChannelTo(g.rank + dist, round), kind.toRight)];
      if kind.both {
        right := right + [RecvRight(g.ChannelFrom(g.rank + dist, round))];
      }
    }
    ghost var rd := HopRound(g.peers, g.id, kind, round);
    assert left == TalkLeft(rd, g.rank) && right == TalkRight(rd, g.rank);
    code := if Shr(g.rank, round) % 2 == 1 then left + right else right + left;
    code := code + [MergeInstr(HopRound(g.peers, g.id, kind, round), g.rank)];
  }

  lemma ProgramUnrolls<V, M>(g: Lwgrp, kind: Kind<V, M>, k: nat, blocking: bool)
    requires g.Valid()
    ensures var rounds, rd := HopRounds(g.peers, g.id, kind, k), HopRound(g.peers, g.id, kind, k);
            Program(rounds, g.peers[g.rank], blocking) ==
            if Pow2(k) >= g.Size() then []
            else (if blocking then BlockingCodeAt(rd, g.rank) else CodeAt(rd, g.rank))
                 + Program(HopRounds(g.peers, g.id, kind, k + 1), g.peers[g.rank], blocking)
  {
    hide CodeAt, BlockingCodeAt, Pow2;
    PosUnique(g.peers, g.rank);
    var rounds := HopRounds(g.peers, g.id, kind, k);
    if Pow2(k) < g.Size() {
      assert rounds[1..] == HopRounds(g.peers, g.id, kind, k + 1);
    }
  }

  /** The doubling loop of one rank. */
  method HopCode<V, M>(g: Lwgrp, kind: Kind<V, M>, blocking: bool) returns (code: seq<Instr<V, M>>)
    requires g.Valid()
    ensures code == Program(HopRounds(g.peers, g.id, kind, 0), g.peers[g.rank], blocking)
  {
    hide HopRounds, Program, CodeAt, BlockingCodeAt;
    var round, dist := 0, 1;
    code := [];
    ghost var me := g.peers[g.rank];
    while dist < g.Size()
      invariant dist == Pow2(round)
      invariant code + Program(HopRounds(g.peers, g.id, kind, round), me, blocking)
                == Program(HopRounds(g.peers, g.id, kind, 0), me, blocking)
      decreases g.Size() - dist
    {
      ghost var before := code;
      var step;
      if blocking {
        step := BlockingRoundCode(g, kind, round, dist);
      } else {
        step := RoundCode(g, kind, round, dist);
      }
      ProgramUnrolls(g, kind, round, blocking);
      code := code + step;
      dist := 2 * dist;
      round := round + 1;
      assert code + Program(HopRounds(g.peers, g.id, kind, round), me, blocking)
             == before + (step + Program(HopRounds(g.peers, g.id, kind, round), me, blocking));
    }
    ProgramUnrolls(g, kind, round, blocking);
  }
}
