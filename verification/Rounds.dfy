/** Collectives as rounds.

  Every collective of the group library is a list of rounds over the members of a group.
  In a hop round, the member at position i exchanges messages with the members 2^hop
  positions to its left and right (truncated at the ends), and then merges what it
  received into its value.  This module says what a round means for the whole group
  at once, and what code one member runs for it, with buffered and with blocking writes. */
module Rounds {
  import opened Confluence
  import opened Lists
  import opened AsyncNet

  function Pow2(k: nat): (d: nat)
    ensures d > 0
  {
    if k == 0 then 1 else 2 * Pow2(k - 1)
  }

  /** The C expression `i >> k`. */
  function Shr(i: nat, k: nat): nat {
    if k == 0 then i else Shr(i / 2, k - 1)
  }

  datatype Round<!V, !M> =
    | Hop(member: seq<nat>, grp: nat, hop: nat, both: bool,
          toLeft: V -> M, toRight: V -> M, merge: (V, Option<M>, Option<M>) -> V)
    | Local(member: seq<nat>, update: V -> V)

  ghost predicate GroupOf(member: seq<nat>, n: nat) {
    && NoDup(member)
    && forall i :: 0 <= i < |member| ==> member[i] < n
  }

  /** The position of rank `r` in its group. */
  ghost function Pos(member: seq<nat>, r: nat): (i: nat)
    requires r in member
    ensures i < |member| && member[i] == r
  {
    var i :| 0 <= i < |member| && member[i] == r;
    i
  }

  lemma PosUnique(member: seq<nat>, i: nat)
    requires NoDup(member) && i < |member|
    ensures member[i] in member && Pos(member, member[i]) == i
  {
  }

  // ----- what a round means -----

  predicate HasLeft<V, M>(rd: Round<V, M>, i: nat) {
    rd.Hop? && Pow2(rd.hop) <= i
  }

  predicate HasRight<V, M>(rd: Round<V, M>, i: nat) {
    rd.Hop? && i + Pow2(rd.hop) < |rd.member|
  }

  /** The value at position `i` after the round, given the values of the whole group before. */
  function Merged<V, M>(rd: Round<V, M>, sub: seq<V>, i: nat): V
    requires i < |sub| == |rd.member|
  {
    if rd.Local? then rd.update(sub[i])
    else
      rd.merge(sub[i],
        if HasLeft(rd, i) then Some(rd.toRight(sub[i - Pow2(rd.hop)])) else None,
        if rd.both && HasRight(rd, i) then Some(rd.toLeft(sub[i + Pow2(rd.hop)])) else None)
  }

  function GroupRound<V, M>(rd: Round<V, M>, sub: seq<V>): (out: seq<V>)
    requires |sub| == |rd.member|
    ensures |out| == |sub| && forall i :: 0 <= i < |sub| ==> out[i] == Merged(rd, sub, i)
  {
    seq(|sub|, i requires 0 <= i < |sub| => Merged(rd, sub, i))
  }

  function Gather<V>(vals: seq<V>, member: seq<nat>): (sub: seq<V>)
    requires forall i :: 0 <= i < |member| ==> member[i] < |vals|
    ensures |sub| == |member| && forall i :: 0 <= i < |member| ==> sub[i] == vals[member[i]]
  {
    seq(|member|, i requires 0 <= i < |member| => vals[member[i]])
  }

  ghost function Scatter<V>(vals: seq<V>, member: seq<nat>, sub: seq<V>): (out: seq<V>)
    requires |sub| == |member|
    ensures |out| == |vals|
    ensures forall r :: 0 <= r < |vals| ==> out[r] == if r in member then sub[Pos(member, r)] else vals[r]
  {
    seq(|vals|, r requires 0 <= r < |vals| => if r in member then sub[Pos(member, r)] else vals[r])
  }

  /** All members take the round at once; other ranks keep their values. */
  ghost function SyncRound<V, M>(rd: Round<V, M>, vals: seq<V>): (out: seq<V>)
    requires GroupOf(rd.member, |vals|)
    ensures |out| == |vals|
  {
    Scatter(vals, rd.member, GroupRound(rd, Gather(vals, rd.member)))
  }

  ghost predicate ValidRounds<V(!new), M(!new)>(rounds: seq<Round<V, M>>, n: nat) {
    forall k :: 0 <= k < |rounds| ==> GroupOf(rounds[k].member, n)
  }

  ghost function RunRounds<V(!new), M(!new)>(rounds: seq<Round<V, M>>, vals: seq<V>): (out: seq<V>)
    requires ValidRounds(rounds, |vals|)
    ensures |out| == |vals|
  {
    if rounds == [] then vals else RunRounds(rounds[1..], SyncRound(rounds[0], vals))
  }

  // ----- the code of one member -----

  function Link<V, M>(rd: Round<V, M>, i: nat, j: nat): Channel
    requires rd.Hop? && i < |rd.member| && j < |rd.member|
  {
    Channel(rd.member[i], rd.member[j], rd.grp, rd.hop)
  }

  function SendLeft<V, M>(rd: Round<V, M>, i: nat): seq<Instr<V, M>>
    requires i < |rd.member|
  {
    if HasLeft(rd, i) && rd.both then [Send(Link(rd, i, i - Pow2(rd.hop)), rd.toLeft)] else []
  }

  function SendRight<V, M>(rd: Round<V, M>, i: nat): seq<Instr<V, M>>
    requires i < |rd.member|
  {
    if HasRight(rd, i) then [Send(Link(rd, i, i + Pow2(rd.hop)), rd.toRight)] else []
  }

  function ReadLeft<V, M>(rd: Round<V, M>, i: nat): seq<Instr<V, M>>
    requires i < |rd.member|
  {
    if HasLeft(rd, i) then [RecvLeft(Link(rd, i - Pow2(rd.hop), i))] else []
  }

  function ReadRight<V, M>(rd: Round<V, M>, i: nat): seq<Instr<V, M>>
    requires i < |rd.member|
  {
    if HasRight(rd, i) && rd.both then [RecvRight(Link(rd, i + Pow2(rd.hop), i))] else []
  }

  function MergeInstr<V, M>(rd: Round<V, M>, i: nat): Instr<V, M>
    requires i < |rd.member|
  {
    if rd.Local? then Compute((v, l, r) => rd.update(v))
    else
      Compute((v, l, r) =>
        rd.merge(v, if HasLeft(rd, i) then Some(l) else None,
                    if rd.both && HasRight(rd, i) then Some(r) else None))
  }

  /** Buffered form: write left, write right, read left, read right, merge. */
  function CodeAt<V, M>(rd: Round<V, M>, i: nat): seq<Instr<V, M>>
    requires i < |rd.member|
  {
    SendLeft(rd, i) + SendRight(rd, i) + ReadLeft(rd, i) + ReadRight(rd, i) + [MergeInstr(rd, i)]
  }

  predicate OddAt<V, M>(rd: Round<V, M>, i: nat) {
    rd.Hop? && Shr(i, rd.hop) % 2 == 1
  }

  function TalkLeft<V, M>(rd: Round<V, M>, i: nat): seq<Instr<V, M>>
    requires i < |rd.member|
  {
    ReadLeft(rd, i) + SendLeft(rd, i)
  }

  function TalkRight<V, M>(rd: Round<V, M>, i: nat): seq<Instr<V, M>>
    requires i < |rd.member|
  {
    SendRight(rd, i) + ReadRight(rd, i)
  }

  /** Blocking form: a member whose position shifted right by `hop` is odd talks to its left
      partner first, one whose shifted position is even talks to its right partner first. */
  function BlockingCodeAt<V, M>(rd: Round<V, M>, i: nat): seq<Instr<V, M>>
    requires i < |rd.member|
  {
    if OddAt(rd, i) then TalkLeft(rd, i) + TalkRight(rd, i) + [MergeInstr(rd, i)]
    else TalkRight(rd, i) + TalkLeft(rd, i) + [MergeInstr(rd, i)]
  }

  ghost function Code<V, M>(rd: Round<V, M>, r: nat, blocking: bool): seq<Instr<V, M>> {
    if r !in rd.member then []
    else if blocking then BlockingCodeAt(rd, Pos(rd.member, r))
    else CodeAt(rd, Pos(rd.member, r))
  }

  ghost function Program<V, M>(rounds: seq<Round<V, M>>, r: nat, blocking: bool): seq<Instr<V, M>> {
    if rounds == [] then [] else Code(rounds[0], r, blocking) + Program(rounds[1..], r, blocking)
  }

  // ----- states of the network between rounds -----

  /** A quiet network: nothing on the wires, rank `r` holds `vals[r]` and will run `code[r]`. */
  ghost predicate Quiet<V, M>(s: Net<V, M>, vals: seq<V>, code: nat -> seq<Instr<V, M>>) {
    && |s.ranks| == |vals|
    && s.wires == map[]
    && forall r :: 0 <= r < |vals| ==> s.ranks[r].val == vals[r] && s.ranks[r].code == code(r)
  }
}
