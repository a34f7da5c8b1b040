/** Building the hop graph of a group.

  Rank r knows the addresses of its ring neighbours.  In round k it connects to the address
  2^k places to its right, accepts a connection from 2^k places to its left, and exchanges
  with both the addresses twice as far away.  Neighbours that are ahead may connect for later
  rounds early, so connections are accepted in any order and filed by the round id that the
  caller sends.  The address of a member is modelled by its rank in the group.

  With `sync` a connect call returns only when the other side has accepted it. */
module HopGraph {
  import opened Confluence
  import opened Rounds
  import BlockingRounds

  /** The channel that rank `src` makes by its connect call in round `round`. */
  datatype Chan = Chan(src: nat, round: nat)

  datatype Packet = RoundId(id: nat) | Address(addr: int)

  /** One rank in lwgrp_connect.  In each round phases 0 and 1 are the connect call and the
      accept loop, in the order that the parity of the rank gives; phases 2 and 3 send
      addresses, phases 4 and 5 receive them, and phase 6 moves on to the next round. */
  datatype Member = Member(
    round: nat, phase: nat, calling: bool, holding: Option<Chan>,
    left: int, right: int, nextLeft: int, nextRight: int,
    listLeft: map<nat, Chan>, listRight: map<nat, Chan>)

  /** `calls` records the address that each connect call went to, `pending` the calls not yet
      accepted; `toRight` and `toLeft` hold the packets on their way on each channel. */
  datatype Graph = Graph(
    ranks: seq<Member>, calls: map<Chan, int>, pending: set<Chan>,
    toRight: map<Chan, seq<Packet>>, toLeft: map<Chan, seq<int>>)

  function Stream<T>(m: map<Chan, seq<T>>, ch: Chan): seq<T> { if ch in m then m[ch] else [] }

  predicate Odd(r: nat, k: nat) { Shr(r, k) % 2 == 1 }

  function ConnectPhase(r: nat, k: nat): (phase: nat)
    ensures phase <= 1
  {
    if Odd(r, k) then 1 else 0
  }

  function AcceptPhase(r: nat, k: nat): nat { 1 - ConnectPhase(r, k) }

  predicate Finished(me: Member, n: nat) { Pow2(me.round) >= n }

  function Tick(me: Member): Member { me.(phase := me.phase + 1) }

  function Put(s: Graph, r: nat, me: Member): Graph
    requires r < |s.ranks|
  {
    s.(ranks := s.ranks[r := me])
  }

  // ----- one step of one rank -----

  /** lwgrp_connect_right: the call, and then the round id and the new list entry. */
  function ConnectStep(s: Graph, r: nat, sync: bool): Option<Graph>
    requires r < |s.ranks|
  {
    var me := s.ranks[r];
    var ch := Chan(r, me.round);
    if r + Pow2(me.round) >= |s.ranks| then Some(Put(s, r, Tick(me)))
    else if !me.calling then
      Some(Put(s, r, me.(calling := true)).(calls := s.calls[ch := me.right], pending := s.pending + {ch}))
    else if sync && ch in s.pending then None
    else
      Some(Put(s, r, Tick(me).(calling := false, listRight := me.listRight[me.round := ch]))
           .(toRight := s.toRight[ch := Stream(s.toRight, ch) + [RoundId(me.round)]]))
  }

  /** lwgrp_accept_left: accept calls to this rank, `ch` being the one that comes first, and
      file each under its round id, until the current round has its channel. */
  function AcceptStep(s: Graph, r: nat, ch: Chan): Option<Graph>
    requires r < |s.ranks|
  {
    var me := s.ranks[r];
    if r < Pow2(me.round) then Some(Put(s, r, Tick(me)))
    else if me.holding.Some? then
      var held := me.holding.value;
      var q := Stream(s.toRight, held);
      if q == [] || !q[0].RoundId? then None
      else
        Some(Put(s, r, me.(holding := None,
          listLeft := me.listLeft[q[0].id := held])).(toRight := s.toRight[held := q[1..]]))
    else if me.round in me.listLeft then Some(Put(s, r, Tick(me)))
    else if ch in s.pending && ch in s.calls && s.calls[ch] == r then
      Some(Put(s, r, me.(holding := Some(ch))).(pending := s.pending - {ch}))
    else None
  }

  function SendStep(s: Graph, r: nat): Option<Graph>
    requires r < |s.ranks|
  {
    var me := s.ranks[r];
    if me.phase == 2 then
      if r < Pow2(me.round) then Some(Put(s, r, Tick(me)))
      else if me.round !in me.listLeft then None
      else
        var ch := me.listLeft[me.round];
        Some(Put(s, r, Tick(me)).(toLeft := s.toLeft[ch := Stream(s.toLeft, ch) + [me.right]]))
    else
      if r + Pow2(me.round) >= |s.ranks| then Some(Put(s, r, Tick(me)))
      else if me.round !in me.listRight then None
      else
        var ch := me.listRight[me.round];
        Some(Put(s, r, Tick(me)).(toRight := s.toRight[ch := Stream(s.toRight, ch) + [Address(me.left)]]))
  }

  function ReceiveStep(s: Graph, r: nat): Option<Graph>
    requires r < |s.ranks|
  {
    var me := s.ranks[r];
    if me.phase == 4 then
      if r < Pow2(me.round) then Some(Put(s, r, Tick(me)))
      else if me.round !in me.listLeft then None
      else
        var ch := me.listLeft[me.round];
        var q := Stream(s.toRight, ch);
        if q == [] || !q[0].Address? then None
        else Some(Put(s, r, Tick(me).(nextLeft := q[0].addr)).(toRight := s.toRight[ch := q[1..]]))
    else
      if r + Pow2(me.round) >= |s.ranks| then Some(Put(s, r, Tick(me)))
      else if me.round !in me.listRight then None
      else
        var ch := me.listRight[me.round];
        var q := Stream(s.toLeft, ch);
        if q == [] then None
        else Some(Put(s, r, Tick(me).(nextRight := q[0])).(toLeft := s.toLeft[ch := q[1..]]))
  }

  function Advance(me: Member): Member {
    me.(round := me.round + 1, phase := 0, left := me.nextLeft, right := me.nextRight)
  }

  /** One step of rank `r`; `ch` matters only when a call is accepted. */
  function GraphStep(s: Graph, r: nat, ch: Chan, sync: bool): Option<Graph> {
    if r >= |s.ranks| || Finished(s.ranks[r], |s.ranks|) then None
    else
      var me := s.ranks[r];
      if me.phase == ConnectPhase(r, me.round) then ConnectStep(s, r, sync)
      else if me.phase < 2 then AcceptStep(s, r, ch)
      else if me.phase < 4 then SendStep(s, r)
      else if me.phase < 6 then ReceiveStep(s, r)
      else Some(Put(s, r, Advance(me)))
  }

  // ----- what holds in every reachable state -----

  /** The rank has completed phase `ph` of round `j`. */
  predicate Past(me: Member, j: nat, ph: nat) {
    j < me.round || (j == me.round && me.phase > ph)
  }

  predicate Called(me: Member, r: nat, j: nat) {
    Past(me, j, ConnectPhase(r, j)) || (j == me.round && me.calling)
  }

  predicate HasId(me: Member, r: nat, j: nat) { Past(me, j, ConnectPhase(r, j)) }

  ghost predicate NamesOk(me: Member, r: nat, n: nat) {
    var d := Pow2(me.round);
    d < n ==>
      && (d <= r ==> me.left == r - d) && (r + d < n ==> me.right == r + d)
      && (me.phase > 4 && 2 * d <= r ==> me.nextLeft == r - 2 * d)
      && (me.phase > 5 && r + 2 * d < n ==> me.nextRight == r + 2 * d)
  }

  ghost predicate ListsOk(me: Member, r: nat, n: nat) {
    && (forall j :: j in me.listRight <==> Past(me, j, ConnectPhase(r, j)) && r + Pow2(j) < n)
    && (forall j :: j in me.listRight ==> me.listRight[j] == Chan(r, j))
    && (forall j :: j in me.listLeft ==> Pow2(j) <= r && me.listLeft[j] == Chan(r - Pow2(j), j))
    && (forall j :: Past(me, j, AcceptPhase(r, j)) && Pow2(j) <= r ==> j in me.listLeft)
  }

  ghost predicate RankOk(me: Member, r: nat, n: nat) {
    && me.phase <= 6 && (Finished(me, n) ==> me.phase == 0)
    && (me.calling ==> !Finished(me, n) && me.phase == ConnectPhase(r, me.round) && r + Pow2(me.round) < n)
    && (me.holding.Some? ==>
          && !Finished(me, n) && me.phase == AcceptPhase(r, me.round) && me.round !in me.listLeft && Pow2(me.round) <= r
          && me.holding.value.src + Pow2(me.holding.value.round) == r)
    && NamesOk(me, r, n) && ListsOk(me, r, n)
  }

  /** A call is waiting, or held by the rank that has accepted it, or filed there. */
  ghost predicate WhereOk(ch: Chan, a: Member, b: Member, calls: map<Chan, int>, pending: set<Chan>) {
    var (p, j) := (ch.src, ch.round);
    && (ch in calls <==> Called(a, p, j)) && (ch in calls ==> calls[ch] == p + Pow2(j))
    && (ch in pending ==> ch in calls && b.holding != Some(ch) && j !in b.listLeft)
    && (b.holding == Some(ch) ==> ch in calls && j !in b.listLeft)
    && (j in b.listLeft ==> ch in calls)
    && (ch in calls ==> ch in pending || b.holding == Some(ch) || j in b.listLeft)
  }

  /** What travels to the right on a channel: the round id until it is filed, and the address
      of the caller's left neighbour until it is received. */
  ghost predicate ToRightOk(ch: Chan, a: Member, b: Member, q: seq<Packet>) {
    var (p, j) := (ch.src, ch.round);
    var id := HasId(a, p, j) && j !in b.listLeft;
    var addr := Past(a, j, 3) && !Past(b, j, 4);
    && |q| == (if id then 1 else 0) + (if addr then 1 else 0)
    && (id ==> q[0] == RoundId(j))
    && (addr ==> q[|q| - 1].Address? && (Pow2(j) <= p ==> q[|q| - 1].addr == p - Pow2(j)))
    && (j in b.listLeft ==> HasId(a, p, j)) && (Past(b, j, 4) ==> Past(a, j, 3))
  }

  /** What travels to the left: the address of the callee's right neighbour. */
  ghost predicate ToLeftOk(ch: Chan, a: Member, b: Member, q: seq<int>, n: nat) {
    var (p, j) := (ch.src, ch.round);
    var addr := Past(b, j, 2) && !Past(a, j, 5);
    && |q| == (if addr then 1 else 0)
    && (addr && p + 2 * Pow2(j) < n ==> q[0] == p + 2 * Pow2(j))
    && (Past(a, j, 5) ==> Past(b, j, 2))
  }

  ghost predicate ChanOk(s: Graph, ch: Chan)
    requires ch.src + Pow2(ch.round) < |s.ranks|
  {
    var a, b := s.ranks[ch.src], s.ranks[ch.src + Pow2(ch.round)];
    && WhereOk(ch, a, b, s.calls, s.pending)
    && ToRightOk(ch, a, b, Stream(s.toRight, ch))
    && ToLeftOk(ch, a, b, Stream(s.toLeft, ch), |s.ranks|)
  }

  ghost predicate Inside(s: Graph, ch: Chan) { ch.src + Pow2(ch.round) < |s.ranks| }

  ghost predicate GraphOk(s: Graph) {
    && (forall r :: 0 <= r < |s.ranks| ==> RankOk(s.ranks[r], r, |s.ranks|))
    && (forall ch :: Inside(s, ch) ==> ChanOk(s, ch))
    && (forall ch :: ch in s.calls ==> Inside(s, ch))
    && (forall ch :: ch in s.pending ==> Inside(s, ch))
  }

  // ----- every step keeps it -----

  predicate SameAsCaller(a: Member, a': Member, r: nat, j: nat) {
    && Called(a, r, j) == Called(a', r, j) && HasId(a, r, j) == HasId(a', r, j)
    && Past(a, j, 3) == Past(a', j, 3) && Past(a, j, 5) == Past(a', j, 5)
  }

  predicate SameAsCallee(b: Member, b': Member, ch: Chan) {
    && (b.holding == Some(ch)) == (b'.holding == Some(ch)) && (ch.round in b.listLeft) == (ch.round in b'.listLeft)
    && Past(b, ch.round, 2) == Past(b', ch.round, 2) && Past(b, ch.round, 4) == Past(b', ch.round, 4)
  }

  /** Rank `r` has moved to `me`, and only channel `special`, if any, notices. */
  ghost predicate OnlyTouches(s: Graph, s': Graph, r: nat, me: Member, special: Option<Chan>) {
    && r < |s.ranks| && s'.ranks == s.ranks[r := me]
    && forall ch :: Inside(s, ch) && special != Some(ch) ==>
         && (ch in s.calls <==> ch in s'.calls) && (ch in s.calls ==> s'.calls[ch] == s.calls[ch])
         && (ch in s.pending <==> ch in s'.pending)
         && Stream(s'.toRight, ch) == Stream(s.toRight, ch) && Stream(s'.toLeft, ch) == Stream(s.toLeft, ch)
         && (ch.src == r ==> SameAsCaller(s.ranks[r], me, r, ch.round))
         && (ch.src + Pow2(ch.round) == r ==> SameAsCallee(s.ranks[r], me, ch))
  }

  lemma Untouched(s: Graph, s': Graph, r: nat, me: Member, special: Option<Chan>, ch: Chan)
    requires GraphOk(s) && OnlyTouches(s, s', r, me, special) && Inside(s, ch) && special != Some(ch)
    ensures ChanOk(s', ch)
  {
    hide RankOk, Pow2, ConnectPhase;
    assert ChanOk(s, ch);
  }

  /** So the new state is fine if rank `r` and channel `special` are. */
  lemma Touched(s: Graph, s': Graph, r: nat, me: Member, special: Option<Chan>)
    requires GraphOk(s) && OnlyTouches(s, s', r, me, special) && RankOk(me, r, |s.ranks|)
    requires special.Some? ==> Inside(s, special.value) && ChanOk(s', special.value)
    requires forall ch :: ch in s'.calls ==> ch in s.calls || special == Some(ch)
    requires forall ch :: ch in s'.pending ==> ch in s.pending || special == Some(ch)
    ensures GraphOk(s')
  {
    hide RankOk, ChanOk, OnlyTouches;
    assert |s'.ranks| == |s.ranks| && forall x :: 0 <= x < |s.ranks| && x != r ==> s'.ranks[x] == s.ranks[x] by {
      MovedOnly(s, s', r, me, special);
    }
    assert s'.ranks[r] == me by { MovedOnly(s, s', r, me, special); }
    forall ch | Inside(s', ch) ensures ChanOk(s', ch) {
      if special != Some(ch) { Untouched(s, s', r, me, special, ch); }
    }
  }

  lemma MovedOnly(s: Graph, s': Graph, r: nat, me: Member, special: Option<Chan>)
    requires OnlyTouches(s, s', r, me, special)
    ensures r < |s'.ranks| == |s.ranks| && s'.ranks[r] == me
    ensures forall x :: 0 <= x < |s.ranks| && x != r ==> s'.ranks[x] == s.ranks[x]
  {
  }

  predicate ForRight(me: Member, r: nat) {
    me.phase == ConnectPhase(r, me.round) || me.phase == 3 || me.phase == 5
  }

  /** The rank has no neighbour of the kind that its current phase is about. */
  predicate NoNeighbour(me: Member, r: nat, n: nat) {
    me.phase < 6 && if ForRight(me, r) then r + Pow2(me.round) >= n else r < Pow2(me.round)
  }

  predicate AlreadyFiled(me: Member, r: nat) {
    me.phase == AcceptPhase(r, me.round) && me.holding.None? && me.round in me.listLeft
  }

  /** A rank that only moves its own program counter. */
  lemma AloneKeeps(s: Graph, r: nat, me: Member)
    requires GraphOk(s) && r < |s.ranks| && RankOk(me, r, |s.ranks|)
    requires me.holding == s.ranks[r].holding && me.listLeft == s.ranks[r].listLeft
    requires forall j :: r + Pow2(j) < |s.ranks| ==> SameAsCaller(s.ranks[r], me, r, j)
    requires forall j :: Pow2(j) <= r ==>
               Past(s.ranks[r], j, 2) == Past(me, j, 2) && Past(s.ranks[r], j, 4) == Past(me, j, 4)
    ensures GraphOk(Put(s, r, me))
  {
    hide GraphOk, RankOk, Past, Called, HasId;
    Touched(s, Put(s, r, me), r, me, None);
  }

  lemma SkipRank(me: Member, r: nat, n: nat)
    requires RankOk(me, r, n) && r < n && !Finished(me, n) && NoNeighbour(me, r, n)
    ensures RankOk(Tick(me), r, n)
    ensures forall j :: r + Pow2(j) < n ==> SameAsCaller(me, Tick(me), r, j)
    ensures forall j :: Pow2(j) <= r ==>
              Past(me, j, 2) == Past(Tick(me), j, 2) && Past(me, j, 4) == Past(Tick(me), j, 4)
  {
    hide Pow2, ConnectPhase;
  }

  lemma FiledRank(me: Member, r: nat, n: nat)
    requires RankOk(me, r, n) && r < n && !Finished(me, n) && AlreadyFiled(me, r)
    ensures RankOk(Tick(me), r, n)
    ensures forall j :: r + Pow2(j) < n ==> SameAsCaller(me, Tick(me), r, j)
    ensures forall j :: Pow2(j) <= r ==>
              Past(me, j, 2) == Past(Tick(me), j, 2) && Past(me, j, 4) == Past(Tick(me), j, 4)
  {
    hide Pow2, ConnectPhase;
  }

  lemma AdvanceRank(me: Member, r: nat, n: nat)
    requires RankOk(me, r, n) && r < n && !Finished(me, n) && me.phase == 6
    ensures RankOk(Advance(me), r, n)
    ensures forall j :: r + Pow2(j) < n ==> SameAsCaller(me, Advance(me), r, j)
    ensures forall j :: Pow2(j) <= r ==>
              Past(me, j, 2) == Past(Advance(me), j, 2) && Past(me, j, 4) == Past(Advance(me), j, 4)
  {
    hide Pow2, ConnectPhase, RankOk;
    AdvanceOk(me, r, n);
  }

  lemma AdvanceOk(me: Member, r: nat, n: nat)
    requires RankOk(me, r, n) && r < n && !Finished(me, n) && me.phase == 6
    ensures RankOk(Advance(me), r, n) && !me.calling
  {
    hide ConnectPhase;
    assert Pow2(me.round + 1) == 2 * Pow2(me.round);
  }

  /** Apart from `ch`, calls and streams are as before. */
  ghost predicate NetExcept(s: Graph, s': Graph, ch: Chan) {
    forall c :: c != ch ==>
      && (c in s.calls <==> c in s'.calls) && (c in s.calls ==> s'.calls[c] == s.calls[c])
      && (c in s.pending <==> c in s'.pending)
      && Stream(s'.toRight, c) == Stream(s.toRight, c) && Stream(s'.toLeft, c) == Stream(s.toLeft, c)
  }

  /** A step of rank `r` on the channel that it calls on in its current round. */
  lemma CallerMoves(s: Graph, s': Graph, r: nat, me: Member)
    requires GraphOk(s) && r < |s.ranks| && s'.ranks == s.ranks[r := me] && RankOk(me, r, |s.ranks|)
    requires var ch := Chan(r, s.ranks[r].round);
             Inside(s, ch) && NetExcept(s, s', ch) && Inside(s', ch) && ChanOk(s', ch)
    requires me.holding == s.ranks[r].holding && me.listLeft == s.ranks[r].listLeft
    requires forall j :: j != s.ranks[r].round ==> SameAsCaller(s.ranks[r], me, r, j)
    requires forall j :: Past(s.ranks[r], j, 2) == Past(me, j, 2) && Past(s.ranks[r], j, 4) == Past(me, j, 4)
    ensures GraphOk(s')
  {
    hide GraphOk, RankOk, Past, Called, HasId, ChanOk, Pow2;
    Touched(s, s', r, me, Some(Chan(r, s.ranks[r].round)));
  }

  /** A step of rank `r` on a channel that was called to it. */
  lemma CalleeMoves(s: Graph, s': Graph, r: nat, me: Member, ch: Chan)
    requires GraphOk(s) && r < |s.ranks| && s'.ranks == s.ranks[r := me] && RankOk(me, r, |s.ranks|)
    requires ch.src + Pow2(ch.round) == r && NetExcept(s, s', ch) && Inside(s', ch) && ChanOk(s', ch)
    requires forall j :: SameAsCaller(s.ranks[r], me, r, j)
    requires forall c: Chan :: c.src + Pow2(c.round) == r && c != ch ==> SameAsCallee(s.ranks[r], me, c)
    ensures GraphOk(s')
  {
    hide GraphOk, RankOk, Past, Called, HasId, ChanOk, SameAsCallee, SameAsCaller;
    assert Pow2(ch.round) > 0;
    hide Pow2;
    Touched(s, s', r, me, Some(ch));
  }

  lemma RankFacts(s: Graph, r: nat)
    requires GraphOk(s) && r < |s.ranks|
    ensures RankOk(s.ranks[r], r, |s.ranks|)
  {
  }

  lemma ChanFacts(s: Graph, ch: Chan)
    requires GraphOk(s) && Inside(s, ch)
    ensures ChanOk(s, ch)
  {
  }

  // ----- connecting -----

  /** The rank is about to call its right neighbour, or is in the middle of that call. */
  predicate AtConnect(me: Member, r: nat, n: nat) {
    !Finished(me, n) && me.phase == ConnectPhase(r, me.round) && r + Pow2(me.round) < n
  }

  lemma CallRank(me: Member, r: nat, n: nat)
    requires RankOk(me, r, n) && AtConnect(me, r, n) && !me.calling
    ensures RankOk(me.(calling := true), r, n) && me.right == r + Pow2(me.round)
    ensures forall j :: j != me.round ==> SameAsCaller(me, me.(calling := true), r, j)
  {
    hide Pow2, ConnectPhase;
  }

  function CallOf(s: Graph, r: nat): Graph
    requires r < |s.ranks|
  {
    var me := s.ranks[r];
    var ch := Chan(r, me.round);
    Put(s, r, me.(calling := true)).(calls := s.calls[ch := me.right], pending := s.pending + {ch})
  }

  lemma CallChan(s: Graph, r: nat)
    requires r < |s.ranks| && AtConnect(s.ranks[r], r, |s.ranks|) && !s.ranks[r].calling
    requires s.ranks[r].right == r + Pow2(s.ranks[r].round)
    requires var ch := Chan(r, s.ranks[r].round); Inside(s, ch) && ChanOk(s, ch)
    ensures var ch := Chan(r, s.ranks[r].round);
            Inside(CallOf(s, r), ch) && ChanOk(CallOf(s, r), ch) && NetExcept(s, CallOf(s, r), ch)
  {
    assert Pow2(s.ranks[r].round) > 0;
    hide Pow2, ConnectPhase;
  }

  lemma CallKeeps(s: Graph, r: nat)
    requires GraphOk(s) && r < |s.ranks| && AtConnect(s.ranks[r], r, |s.ranks|) && !s.ranks[r].calling
    ensures GraphOk(CallOf(s, r))
  {
    hide GraphOk, RankOk, ChanOk, NetExcept, ConnectPhase, Pow2, SameAsCaller;
    var me := s.ranks[r];
    RankFacts(s, r);
    ChanFacts(s, Chan(r, me.round));
    CallRank(me, r, |s.ranks|);
    CallChan(s, r);
    CallerMoves(s, CallOf(s, r), r, me.(calling := true));
  }

  function Connected(s: Graph, r: nat): Graph
    requires r < |s.ranks|
  {
    var me := s.ranks[r];
    var ch := Chan(r, me.round);
    Put(s, r, Tick(me).(calling := false, listRight := me.listRight[me.round := ch]))
    .(toRight := s.toRight[ch := Stream(s.toRight, ch) + [RoundId(me.round)]])
  }

  lemma ConnectedRank(me: Member, r: nat, n: nat)
    requires RankOk(me, r, n) && AtConnect(me, r, n) && me.calling
    ensures var me' := Tick(me).(calling := false, listRight := me.listRight[me.round := Chan(r, me.round)]);
            && RankOk(me', r, n)
            && (forall j :: j != me.round ==> SameAsCaller(me, me', r, j))
            && (forall j :: Past(me, j, 2) == Past(me', j, 2) && Past(me, j, 4) == Past(me', j, 4))
  {
    hide Pow2, ConnectPhase;
  }

  lemma ConnectedChan(s: Graph, r: nat)
    requires r < |s.ranks| && AtConnect(s.ranks[r], r, |s.ranks|) && s.ranks[r].calling
    requires var ch := Chan(r, s.ranks[r].round); Inside(s, ch) && ChanOk(s, ch)
    ensures var ch := Chan(r, s.ranks[r].round);
            Inside(Connected(s, r), ch) && ChanOk(Connected(s, r), ch) && NetExcept(s, Connected(s, r), ch)
  {
    assert Pow2(s.ranks[r].round) > 0;
    hide Pow2, ConnectPhase;
  }

  lemma ConnectedKeeps(s: Graph, r: nat)
    requires GraphOk(s) && r < |s.ranks| && AtConnect(s.ranks[r], r, |s.ranks|) && s.ranks[r].calling
    ensures GraphOk(Connected(s, r))
  {
    hide GraphOk, RankOk, ChanOk, NetExcept, ConnectPhase, Pow2, SameAsCaller, Past;
    var me := s.ranks[r];
    RankFacts(s, r);
    ChanFacts(s, Chan(r, me.round));
    ConnectedRank(me, r, |s.ranks|);
    ConnectedChan(s, r);
    CallerMoves(s, Connected(s, r), r, Connected(s, r).ranks[r]);
  }

  // ----- accepting -----

  /** The rank is waiting for its left neighbour's call. */
  predicate AtAccept(me: Member, r: nat, n: nat) {
    !Finished(me, n) && me.phase == AcceptPhase(r, me.round) && Pow2(me.round) <= r
  }

  function Accepted(s: Graph, r: nat, ch: Chan): Graph
    requires r < |s.ranks|
  {
    Put(s, r, s.ranks[r].(holding := Some(ch))).(pending := s.pending - {ch})
  }

  lemma AcceptedRank(me: Member, r: nat, n: nat, ch: Chan)
    requires RankOk(me, r, n) && AtAccept(me, r, n) && me.holding.None? && me.round !in me.listLeft
             && ch.src + Pow2(ch.round) == r
    ensures RankOk(me.(holding := Some(ch)), r, n)
    ensures forall j :: SameAsCaller(me, me.(holding := Some(ch)), r, j)
    ensures forall c: Chan :: c != ch ==> SameAsCallee(me, me.(holding := Some(ch)), c)
  {
    hide Pow2, ConnectPhase;
  }

  lemma AcceptedChan(s: Graph, r: nat, ch: Chan)
    requires r < |s.ranks| && s.ranks[r].holding.None? && ch in s.pending && ch.src + Pow2(ch.round) == r
             && ChanOk(s, ch)
    ensures Inside(Accepted(s, r, ch), ch) && ChanOk(Accepted(s, r, ch), ch) && NetExcept(s, Accepted(s, r, ch), ch)
  {
    assert Pow2(ch.round) > 0;
    hide Pow2, ConnectPhase;
  }

  lemma AcceptedKeeps(s: Graph, r: nat, ch: Chan)
    requires GraphOk(s) && r < |s.ranks| && AtAccept(s.ranks[r], r, |s.ranks|)
    requires s.ranks[r].holding.None? && s.ranks[r].round !in s.ranks[r].listLeft && ch in s.pending
             && ch in s.calls && s.calls[ch] == r
    ensures GraphOk(Accepted(s, r, ch))
  {
    assert Inside(s, ch);
    hide GraphOk, RankOk, NetExcept, ConnectPhase, Pow2, SameAsCaller, SameAsCallee;
    RankFacts(s, r);
    ChanFacts(s, ch);
    assert s.calls[ch] == ch.src + Pow2(ch.round);
    hide ChanOk;
    AcceptedRank(s.ranks[r], r, |s.ranks|, ch);
    AcceptedChan(s, r, ch);
    CalleeMoves(s, Accepted(s, r, ch), r, Accepted(s, r, ch).ranks[r], ch);
  }

  function Filed(s: Graph, r: nat, ch: Chan): Graph
    requires r < |s.ranks| && Stream(s.toRight, ch) != []
  {
    Put(s, r, s.ranks[r].(holding := None, listLeft := s.ranks[r].listLeft[ch.round := ch]))
    .(toRight := s.toRight[ch := Stream(s.toRight, ch)[1..]])
  }

  lemma FileRank(me: Member, r: nat, n: nat, ch: Chan)
    requires RankOk(me, r, n) && AtAccept(me, r, n) && me.holding == Some(ch)
    ensures var me' := me.(holding := None, listLeft := me.listLeft[ch.round := ch]);
            && RankOk(me', r, n) && (forall j :: SameAsCaller(me, me', r, j))
            && (forall c: Chan :: c.src + Pow2(c.round) == r && c != ch ==> SameAsCallee(me, me', c))
  {
    hide Pow2, ConnectPhase;
    var me' := me.(holding := None, listLeft := me.listLeft[ch.round := ch]);
    assert ch == Chan(r - Pow2(ch.round), ch.round);
    assert ListsOk(me', r, n);
    hide ListsOk;
    assert forall j :: SameAsCaller(me, me', r, j);
  }

  lemma FileChan(s: Graph, r: nat, ch: Chan)
    requires r < |s.ranks| && s.ranks[r].holding == Some(ch) && ch.src + Pow2(ch.round) == r && ChanOk(s, ch)
    requires Stream(s.toRight, ch) != [] && Stream(s.toRight, ch)[0].RoundId?
    ensures Stream(s.toRight, ch)[0].id == ch.round
    ensures Inside(Filed(s, r, ch), ch) && ChanOk(Filed(s, r, ch), ch) && NetExcept(s, Filed(s, r, ch), ch)
  {
    assert Pow2(ch.round) > 0;
    hide Pow2, ConnectPhase;
  }

  lemma FileKeeps(s: Graph, r: nat, ch: Chan)
    requires GraphOk(s) && r < |s.ranks| && AtAccept(s.ranks[r], r, |s.ranks|) && s.ranks[r].holding == Some(ch)
    requires Stream(s.toRight, ch) != [] && Stream(s.toRight, ch)[0].RoundId?
    ensures Stream(s.toRight, ch)[0].id == ch.round && GraphOk(Filed(s, r, ch))
  {
    hide GraphOk, NetExcept, ConnectPhase, Pow2, SameAsCaller, SameAsCallee, ChanOk;
    RankFacts(s, r);
    assert ch.src + Pow2(ch.round) == r;
    hide RankOk;
    ChanFacts(s, ch);
    FileRank(s.ranks[r], r, |s.ranks|, ch);
    FileChan(s, r, ch);
    CalleeMoves(s, Filed(s, r, ch), r, Filed(s, r, ch).ranks[r], ch);
  }

  // ----- exchanging addresses -----

  predicate AtPhase(me: Member, r: nat, n: nat, phase: nat) {
    !Finished(me, n) && me.phase == phase
  }

  lemma TickCaller(me: Member, r: nat, n: nat, next: int)
    requires RankOk(me, r, n) && (AtPhase(me, r, n, 3) || AtPhase(me, r, n, 5)) && r + Pow2(me.round) < n
    requires me.phase == 5 && r + 2 * Pow2(me.round) < n ==> next == r + 2 * Pow2(me.round)
    ensures me.round in me.listRight && me.listRight[me.round] == Chan(r, me.round)
    ensures var me' := Tick(me).(nextRight := if me.phase == 5 then next else me.nextRight);
            && RankOk(me', r, n) && (forall j :: j != me.round ==> SameAsCaller(me, me', r, j))
            && (forall j :: Past(me, j, 2) == Past(me', j, 2) && Past(me, j, 4) == Past(me', j, 4))
  {
    hide Pow2, ConnectPhase;
  }

  lemma TickCallee(me: Member, r: nat, n: nat, next: int)
    requires RankOk(me, r, n) && (AtPhase(me, r, n, 2) || AtPhase(me, r, n, 4)) && Pow2(me.round) <= r
    requires me.phase == 4 && 2 * Pow2(me.round) <= r ==> next == r - 2 * Pow2(me.round)
    ensures me.round in me.listLeft && me.listLeft[me.round] == Chan(r - Pow2(me.round), me.round)
    ensures var me' := Tick(me).(nextLeft := if me.phase == 4 then next else me.nextLeft);
            var ch := Chan(r - Pow2(me.round), me.round);
            && RankOk(me', r, n) && (forall j :: SameAsCaller(me, me', r, j))
            && (forall c: Chan :: c.src + Pow2(c.round) == r && c != ch ==> SameAsCallee(me, me', c))
  {
    hide Pow2, ConnectPhase;
  }

  lemma SendLeftChan(s: Graph, s': Graph, r: nat, ch: Chan)
    requires r < |s.ranks| && AtPhase(s.ranks[r], r, |s.ranks|, 2) && ch.round == s.ranks[r].round
             && ch.src + Pow2(ch.round) == r
    requires ChanOk(s, ch) && (r + Pow2(ch.round) < |s.ranks| ==> s.ranks[r].right == r + Pow2(ch.round))
    requires s' == Put(s, r, Tick(s.ranks[r])).(toLeft := s.toLeft[ch := Stream(s.toLeft, ch) + [s.ranks[r].right]])
    ensures Inside(s', ch) && ChanOk(s', ch) && NetExcept(s, s', ch)
  {
    assert Pow2(ch.round) > 0;
    hide Pow2, ConnectPhase;
  }

  lemma SendRightChan(s: Graph, s': Graph, r: nat)
    requires r < |s.ranks| && AtPhase(s.ranks[r], r, |s.ranks|, 3) && Inside(s, Chan(r, s.ranks[r].round))
    requires var ch := Chan(r, s.ranks[r].round);
             && ChanOk(s, ch) && (Pow2(ch.round) <= r ==> s.ranks[r].left == r - Pow2(ch.round))
             && s' == Put(s, r, Tick(s.ranks[r])).(toRight := s.toRight[ch := Stream(s.toRight,
               ch) + [Address(s.ranks[r].left)]])
    ensures var ch := Chan(r, s.ranks[r].round); Inside(s', ch) && ChanOk(s', ch) && NetExcept(s, s', ch)
  {
    assert Pow2(s.ranks[r].round) > 0;
    hide Pow2, ConnectPhase;
  }

  lemma ReadLeftChan(s: Graph, s': Graph, r: nat, ch: Chan)
    requires r < |s.ranks| && AtPhase(s.ranks[r], r, |s.ranks|, 4) && ch.round == s.ranks[r].round
             && ch.src + Pow2(ch.round) == r
    requires ChanOk(s, ch) && ch.round in s.ranks[r].listLeft && Stream(s.toRight, ch) != []
             && Stream(s.toRight, ch)[0].Address?
    requires var q := Stream(s.toRight, ch);
             s' == Put(s, r, Tick(s.ranks[r]).(nextLeft := q[0].addr)).(toRight := s.toRight[ch := q[1..]])
    ensures 2 * Pow2(ch.round) <= r ==> Stream(s.toRight, ch)[0].addr == r - 2 * Pow2(ch.round)
    ensures Inside(s', ch) && ChanOk(s', ch) && NetExcept(s, s', ch)
  {
    assert Pow2(ch.round) > 0;
    hide Pow2, ConnectPhase;
  }

  lemma ReadRightChan(s: Graph, s': Graph, r: nat)
    requires r < |s.ranks| && AtPhase(s.ranks[r], r, |s.ranks|, 5) && Inside(s, Chan(r, s.ranks[r].round))
    requires var ch := Chan(r, s.ranks[r].round);
             && ChanOk(s, ch) && Stream(s.toLeft, ch) != []
             && var q := Stream(s.toLeft, ch);
             s' == Put(s, r, Tick(s.ranks[r]).(nextRight := q[0])).(toLeft := s.toLeft[ch := q[1..]])
    ensures var ch := Chan(r, s.ranks[r].round);
            && (r + 2 * Pow2(ch.round) < |s.ranks| ==> Stream(s.toLeft, ch)[0] == r + 2 * Pow2(ch.round))
            && Inside(s', ch) && ChanOk(s', ch) && NetExcept(s, s', ch)
  {
    assert Pow2(s.ranks[r].round) > 0;
    hide Pow2, ConnectPhase;
  }

  lemma NamesFacts(me: Member, r: nat, n: nat)
    requires RankOk(me, r, n) && !Finished(me, n)
    ensures Pow2(me.round) <= r ==> me.left == r - Pow2(me.round)
    ensures r + Pow2(me.round) < n ==> me.right == r + Pow2(me.round)
  {
  }

  lemma SendKeeps(s: Graph, r: nat)
    requires GraphOk(s) && r < |s.ranks|
             && (AtPhase(s.ranks[r], r, |s.ranks|, 2) || AtPhase(s.ranks[r], r, |s.ranks|, 3))
    ensures SendStep(s, r).Some? && GraphOk(SendStep(s, r).value)
  {
    hide GraphOk, RankOk, ChanOk, NetExcept, ConnectPhase, Pow2, SameAsCaller, SameAsCallee, Past;
    var me, n := s.ranks[r], |s.ranks|;
    RankFacts(s, r);
    NamesFacts(me, r, n);
    if NoNeighbour(me, r, n) {
      SkipRank(me, r, n);
      AloneKeeps(s, r, Tick(me));
    } else if me.phase == 2 {
      TickCallee(me, r, n, 0);
      var ch := me.listLeft[me.round];
      ChanFacts(s, ch);
      var s' := SendStep(s, r).value;
      SendLeftChan(s, s', r, ch);
      CalleeMoves(s, s', r, Tick(me), ch);
    } else {
      TickCaller(me, r, n, 0);
      var ch := me.listRight[me.round];
      ChanFacts(s, ch);
      var s' := SendStep(s, r).value;
      SendRightChan(s, s', r);
      CallerMoves(s, s', r, Tick(me));
    }
  }

  lemma ReceiveKeeps(s: Graph, r: nat)
    requires GraphOk(s) && r < |s.ranks|
             && (AtPhase(s.ranks[r], r, |s.ranks|, 4) || AtPhase(s.ranks[r], r, |s.ranks|, 5))
    requires ReceiveStep(s, r).Some?
    ensures GraphOk(ReceiveStep(s, r).value)
  {
    hide GraphOk, RankOk, ChanOk, NetExcept, ConnectPhase, Pow2, SameAsCaller, SameAsCallee, Past;
    var me, n, s' := s.ranks[r], |s.ranks|, ReceiveStep(s, r).value;
    RankFacts(s, r);
    if NoNeighbour(me, r, n) {
      SkipRank(me, r, n);
      AloneKeeps(s, r, Tick(me));
    } else if me.phase == 4 {
      ListedLeft(me, r, n);
      var ch := me.listLeft[me.round];
      ChanFacts(s, ch);
      ReadLeftChan(s, s', r, ch);
      TickCallee(me, r, n, Stream(s.toRight, ch)[0].addr);
      CalleeMoves(s, s', r, s'.ranks[r], ch);
    } else {
      ListedRight(me, r, n);
      var ch := me.listRight[me.round];
      ChanFacts(s, ch);
      ReadRightChan(s, s', r);
      TickCaller(me, r, n, Stream(s.toLeft, ch)[0]);
      CallerMoves(s, s', r, s'.ranks[r]);
    }
  }

  lemma ListedLeft(me: Member, r: nat, n: nat)
    requires RankOk(me, r, n) && !Finished(me, n) && me.phase > 1 && Pow2(me.round) <= r
    ensures me.round in me.listLeft && me.listLeft[me.round] == Chan(r - Pow2(me.round), me.round)
  {
    hide Pow2, ConnectPhase;
  }

  lemma ListedRight(me: Member, r: nat, n: nat)
    requires RankOk(me, r, n) && !Finished(me, n) && me.phase > 1 && r + Pow2(me.round) < n
    ensures me.round in me.listRight && me.listRight[me.round] == Chan(r, me.round)
  {
    hide Pow2, ConnectPhase;
  }

  lemma AcceptKeeps(s: Graph, r: nat, ch: Chan)
    requires GraphOk(s) && r < |s.ranks| && !Finished(s.ranks[r], |s.ranks|)
    requires s.ranks[r].phase == AcceptPhase(r, s.ranks[r].round) && AcceptStep(s, r, ch).Some?
    ensures GraphOk(AcceptStep(s, r, ch).value)
  {
    hide GraphOk, RankOk, ChanOk, NetExcept, ConnectPhase, Pow2, SameAsCaller, SameAsCallee, Past;
    var me, n := s.ranks[r], |s.ranks|;
    RankFacts(s, r);
    if r < Pow2(me.round) {
      SkipRank(me, r, n);
      AloneKeeps(s, r, Tick(me));
    } else if me.holding.Some? {
      FileKeeps(s, r, me.holding.value);
    } else if me.round in me.listLeft {
      FiledRank(me, r, n);
      AloneKeeps(s, r, Tick(me));
    } else {
      AcceptedKeeps(s, r, ch);
    }
  }

  lemma ConnectKeeps(s: Graph, r: nat, sync: bool)
    requires GraphOk(s) && r < |s.ranks| && !Finished(s.ranks[r], |s.ranks|)
    requires s.ranks[r].phase == ConnectPhase(r, s.ranks[r].round) && ConnectStep(s, r, sync).Some?
    ensures GraphOk(ConnectStep(s, r, sync).value)
  {
    hide GraphOk, RankOk, ChanOk, NetExcept, ConnectPhase, Pow2, SameAsCaller, SameAsCallee, Past;
    var me, n := s.ranks[r], |s.ranks|;
    RankFacts(s, r);
    if r + Pow2(me.round) >= n {
      SkipRank(me, r, n);
      AloneKeeps(s, r, Tick(me));
    } else if !me.calling {
      CallKeeps(s, r);
    } else {
      ConnectedKeeps(s, r);
    }
  }

  /** Every step keeps the invariant. */
  lemma StepKeeps(s: Graph, r: nat, ch: Chan, sync: bool)
    requires GraphOk(s) && GraphStep(s, r, ch, sync).Some?
    ensures var s' := GraphStep(s, r, ch, sync).value; GraphOk(s') && |s'.ranks| == |s.ranks|
  {
    hide GraphOk, RankOk, ConnectPhase, Pow2, SameAsCaller, SameAsCallee, Past, ConnectStep, AcceptStep, SendStep,
      ReceiveStep;
    var me, n := s.ranks[r], |s.ranks|;
    RankFacts(s, r);
    StepSize(s, r, ch, sync);
    if me.phase == ConnectPhase(r, me.round) {
      ConnectKeeps(s, r, sync);
    } else if me.phase < 2 {
      AcceptKeeps(s, r, ch);
    } else if me.phase < 4 {
      SendKeeps(s, r);
    } else if me.phase < 6 {
      ReceiveKeeps(s, r);
    } else {
      assert me.phase == 6 by { PhaseBound(me, r, n); }
      AdvanceRank(me, r, n);
      AloneKeeps(s, r, Advance(me));
    }
  }

  lemma PhaseBound(me: Member, r: nat, n: nat)
    requires RankOk(me, r, n)
    ensures me.phase <= 6
  {
  }

  lemma StepSize(s: Graph, r: nat, ch: Chan, sync: bool)
    requires GraphStep(s, r, ch, sync).Some?
    ensures |GraphStep(s, r, ch, sync).value.ranks| == |s.ranks|
  {
    hide ConnectPhase, Pow2, Stream;
  }

  // ----- whole runs -----

  /** All ranks know their ring neighbours, and nothing has happened. */
  ghost predicate RingOnly(s: Graph) {
    && s.calls == map[] && s.pending == {} && s.toRight == map[] && s.toLeft == map[]
    && forall r :: 0 <= r < |s.ranks| ==>
         var me := s.ranks[r];
         && me.round == 0 && me.phase == 0 && !me.calling && me.holding.None? && me.listLeft == map[]
           && me.listRight == map[]
         && (r >= 1 ==> me.left == r - 1) && (r + 1 < |s.ranks| ==> me.right == r + 1)
  }

  lemma RingIsOk(s: Graph)
    requires RingOnly(s)
    ensures GraphOk(s)
  {
    assert Pow2(0) == 1;
    hide Pow2, ConnectPhase;
  }

  type Moves = seq<(nat, Chan)>

  function GraphRun(s: Graph, run: Moves, sync: bool): Option<Graph>
    decreases |run|
  {
    if run == [] then Some(s)
    else
      var t := GraphStep(s, run[0].0, run[0].1, sync);
      if t.None? then None else GraphRun(t.value, run[1..], sync)
  }

  lemma {:induction false} GraphRunKeeps(s: Graph, run: Moves, sync: bool)
    requires GraphOk(s) && GraphRun(s, run, sync).Some?
    ensures var u := GraphRun(s, run, sync).value; GraphOk(u) && |u.ranks| == |s.ranks|
    decreases |run|
  {
    hide GraphOk, GraphStep;
    if run != [] {
      StepKeeps(s, run[0].0, run[0].1, sync);
      GraphRunKeeps(GraphStep(s, run[0].0, run[0].1, sync).value, run[1..], sync);
    }
  }

  /** The lists of one rank are complete: a channel to each rank 2^k places to the right and from
      each rank 2^k places to the left, where there is one, and no others. */
  ghost predicate ListsComplete(me: Member, r: nat, n: nat) {
    && (forall k :: k in me.listRight <==> r + Pow2(k) < n)
    && (forall k :: k in me.listLeft <==> Pow2(k) <= r)
    && (forall k :: k in me.listRight ==> me.listRight[k] == Chan(r, k))
    && (forall k :: k in me.listLeft ==> me.listLeft[k] == Chan(r - Pow2(k), k))
  }

  lemma {:induction false} Pow2Grows(j: nat, k: nat)
    requires k <= j
    ensures Pow2(k) <= Pow2(j)
  {
    if k < j { Pow2Grows(j - 1, k); }
  }

  lemma FinishedLists(me: Member, r: nat, n: nat)
    requires RankOk(me, r, n) && Finished(me, n) && r < n
    ensures ListsComplete(me, r, n)
  {
    hide ConnectPhase;
    forall k: nat | Pow2(k) < n ensures k < me.round {
      if k >= me.round { Pow2Grows(k, me.round); }
    }
    hide Pow2;
  }

  /** Whatever the order of arrival: a rank that has finished has exactly the channels of the hop
      graph; each call went to the rank 2^k places to the right; and two finished ranks that are
      2^k apart hold the two ends of one channel. */
  lemma HopGraphBuilt(s: Graph, run: Moves, sync: bool, r: nat)
    requires RingOnly(s) && GraphRun(s, run, sync).Some? && r < |s.ranks|
    ensures var u, n := GraphRun(s, run, sync).value, |s.ranks|;
            && |u.ranks| == n
            && (Finished(u.ranks[r], n) ==>
                  && ListsComplete(u.ranks[r], r, n)
                  && forall k :: r + Pow2(k) < n ==>
                       && Chan(r, k) in u.calls && u.calls[Chan(r, k)] == r + Pow2(k)
                       && (Finished(u.ranks[r + Pow2(k)], n) ==>
                             && k in u.ranks[r + Pow2(k)].listLeft
                             && u.ranks[r + Pow2(k)].listLeft[k] == u.ranks[r].listRight[k]))
  {
    hide GraphOk, RankOk, ListsComplete, Pow2, GraphRun, RingOnly;
    RingIsOk(s);
    GraphRunKeeps(s, run, sync);
    var u, n := GraphRun(s, run, sync).value, |s.ranks|;
    RankFacts(u, r);
    if Finished(u.ranks[r], n) {
      FinishedLists(u.ranks[r], r, n);
      forall k | r + Pow2(k) < n
        ensures Chan(r, k) in u.calls && u.calls[Chan(r, k)] == r + Pow2(k) && k in u.ranks[r].listRight
        ensures Finished(u.ranks[r + Pow2(k)], n) ==>
                  && k in u.ranks[r + Pow2(k)].listLeft
                  && u.ranks[r + Pow2(k)].listLeft[k] == u.ranks[r].listRight[k]
      {
        EndsMeet(u, r, k);
      }
    }
  }

  lemma EndsMeet(u: Graph, r: nat, k: nat)
    requires GraphOk(u) && r < |u.ranks| && r + Pow2(k) < |u.ranks| && Finished(u.ranks[r], |u.ranks|)
    ensures Chan(r, k) in u.calls && u.calls[Chan(r, k)] == r + Pow2(k) && k in u.ranks[r].listRight
    ensures Finished(u.ranks[r + Pow2(k)], |u.ranks|) ==>
              k in u.ranks[r + Pow2(k)].listLeft && u.ranks[r + Pow2(k)].listLeft[k] == u.ranks[r].listRight[k]
  {
    var n, t := |u.ranks|, r + Pow2(k);
    hide GraphOk, RankOk;
    RankFacts(u, r);
    RankFacts(u, t);
    FinishedLists(u.ranks[r], r, n);
    if Finished(u.ranks[t], n) { FinishedLists(u.ranks[t], t, n); }
    ChanFacts(u, Chan(r, k));
    if k >= u.ranks[r].round { Pow2Grows(k, u.ranks[r].round); }
    hide Pow2, ConnectPhase;
  }

  // ----- no run gets stuck -----

  ghost predicate CanMove(s: Graph, sync: bool) {
    exists r, ch :: GraphStep(s, r, ch, sync).Some?
  }

  lemma ParityFlips(r: nat, k: nat)
    ensures ConnectPhase(r + Pow2(k), k) == 1 - ConnectPhase(r, k)
    ensures AcceptPhase(r + Pow2(k), k) == ConnectPhase(r, k)
  {
    BlockingRounds.ShiftAlternates(r, k);
  }

  lemma HeldFacts(me: Member, r: nat, n: nat)
    requires RankOk(me, r, n) && me.holding.Some?
    ensures !Finished(me, n) && AtAccept(me, r, n) && me.holding.value.src + Pow2(me.holding.value.round) == r
  {
  }

  /** A held channel carries its round id, or its caller is still in the call. */
  lemma HeldChan(s: Graph, ch: Chan)
    requires Inside(s, ch) && ChanOk(s, ch) && s.ranks[ch.src + Pow2(ch.round)].holding == Some(ch)
    ensures var a := s.ranks[ch.src];
            && ch !in s.pending
            && (HasId(a, ch.src, ch.round) ==> Stream(s.toRight, ch) != [] && Stream(s.toRight, ch)[0].RoundId?)
            && (!HasId(a, ch.src, ch.round) ==> a.calling && a.round == ch.round)
  {
    hide Pow2, ConnectPhase;
  }

  lemma CallingFacts(me: Member, r: nat, n: nat)
    requires RankOk(me, r, n) && me.calling
    ensures AtConnect(me, r, n)
  {
  }

  /** A rank that holds an unfiled channel can file it, or its caller can go on. */
  lemma HolderMoves(s: Graph, t: nat, sync: bool)
    requires GraphOk(s) && t < |s.ranks| && s.ranks[t].holding.Some?
    ensures CanMove(s, sync)
  {
    hide GraphOk, RankOk, ChanOk, Pow2, ConnectPhase, HasId;
    RankFacts(s, t);
    HeldFacts(s.ranks[t], t, |s.ranks|);
    var ch := s.ranks[t].holding.value;
    ChanFacts(s, ch);
    HeldChan(s, ch);
    if HasId(s.ranks[ch.src], ch.src, ch.round) {
      assert GraphStep(s, t, ch, sync).Some?;
    } else {
      RankFacts(s, ch.src);
      CallingFacts(s.ranks[ch.src], ch.src, |s.ranks|);
      assert GraphStep(s, ch.src, ch, sync).Some?;
    }
  }

  lemma CalledFacts(s: Graph, ch: Chan)
    requires Inside(s, ch) && ChanOk(s, ch) && Called(s.ranks[ch.src], ch.src, ch.round)
    ensures var b := s.ranks[ch.src + Pow2(ch.round)];
            && ch in s.calls && s.calls[ch] == ch.src + Pow2(ch.round)
            && (b.holding.None? && ch.round !in b.listLeft ==> ch in s.pending)
  {
    hide Pow2, ConnectPhase;
  }

  /** A rank that waits for a call which has been made can move, unless its left neighbour can. */
  lemma AcceptorMoves(s: Graph, t: nat, sync: bool)
    requires GraphOk(s) && t < |s.ranks| && AtAccept(s.ranks[t], t, |s.ranks|)
    requires Called(s.ranks[t - Pow2(s.ranks[t].round)], t - Pow2(s.ranks[t].round), s.ranks[t].round)
    ensures CanMove(s, sync)
  {
    hide GraphOk, RankOk, ChanOk, Pow2, ConnectPhase, Called;
    var b := s.ranks[t];
    if b.holding.Some? {
      HolderMoves(s, t, sync);
    } else {
      var ch := Chan(t - Pow2(b.round), b.round);
      ChanFacts(s, ch);
      CalledFacts(s, ch);
      assert GraphStep(s, t, ch, sync).Some?;
    }
  }

  /** A rank at its connect phase can move, or waits for its right neighbour to accept. */
  lemma ConnectorMoves(s: Graph, r: nat, sync: bool)
    requires GraphOk(s) && r < |s.ranks| && !Finished(s.ranks[r], |s.ranks|)
             && s.ranks[r].phase == ConnectPhase(r, s.ranks[r].round)
    ensures CanMove(s, sync) || (r + Pow2(s.ranks[r].round) < |s.ranks| && Chan(r, s.ranks[r].round) in s.pending)
  {
    hide Pow2, ConnectPhase, GraphOk;
    if r + Pow2(s.ranks[r].round) >= |s.ranks| || Chan(r, s.ranks[r].round) !in s.pending {
      assert GraphStep(s, r, Chan(0, 0), sync).Some?;
    }
  }

  /** No rank is behind round `k`. */
  ghost predicate AllReached(s: Graph, k: nat) {
    forall x :: 0 <= x < |s.ranks| ==> s.ranks[x].round >= k
  }

  lemma PendingFacts(s: Graph, ch: Chan)
    requires Inside(s, ch) && ChanOk(s, ch) && ch in s.pending
    ensures Called(s.ranks[ch.src], ch.src, ch.round) && ch.round !in s.ranks[ch.src + Pow2(ch.round)].listLeft
  {
    hide Pow2, ConnectPhase;
  }

  lemma NotPastAccept(me: Member, r: nat, n: nat, k: nat)
    requires RankOk(me, r, n) && Pow2(k) < n && Pow2(k) <= r && k !in me.listLeft && me.round >= k
    requires me.round == k ==> me.phase >= AcceptPhase(r, k)
    ensures me.round == k && AtAccept(me, r, n)
  {
    hide Pow2, ConnectPhase;
  }

  /** A pending call of round `k` will be accepted: the callee is at its accept phase, provided
      that it is not behind. */
  lemma PendingMoves(s: Graph, r: nat, k: nat, sync: bool)
    requires GraphOk(s) && Pow2(k) < |s.ranks| && AllReached(s, k) && r + Pow2(k) < |s.ranks| && Chan(r, k) in s.pending
    requires s.ranks[r + Pow2(k)].round == k ==> s.ranks[r + Pow2(k)].phase >= AcceptPhase(r + Pow2(k), k)
    ensures CanMove(s, sync)
  {
    hide Pow2, GraphOk, ChanOk, ConnectPhase, RankOk, Called;
    var t := r + Pow2(k);
    ChanFacts(s, Chan(r, k));
    RankFacts(s, t);
    PendingFacts(s, Chan(r, k));
    NotPastAccept(s.ranks[t], t, |s.ranks|, k);
    assert t - Pow2(k) == r;
    AcceptorMoves(s, t, sync);
  }

  /** Some rank of the earliest round is in phase 0: even ranks call, odd ranks accept. */
  lemma FirstPhaseMoves(s: Graph, r: nat, k: nat, sync: bool)
    requires GraphOk(s) && r < |s.ranks| && Pow2(k) < |s.ranks| && AllReached(s, k) && s.ranks[r].round == k
             && s.ranks[r].phase == 0
    ensures CanMove(s, sync)
  {
    hide Pow2, GraphOk, ConnectPhase;
    if ConnectPhase(r, k) == 0 {
      CallFirst(s, r, k, sync);
    } else if r < Pow2(k) {
      assert GraphStep(s, r, Chan(0, 0), sync).Some?;
    } else {
      var p := r - Pow2(k);
      ParityFlips(p, k);
      hide CanMove, GraphStep;
      if Called(s.ranks[p], p, k) {
        AcceptorMoves(s, r, sync);
      } else {
        assert s.ranks[p].round == k && s.ranks[p].phase == 0;
        CallFirst(s, p, k, sync);
      }
    }
  }

  lemma CallFirst(s: Graph, r: nat, k: nat, sync: bool)
    requires GraphOk(s) && r < |s.ranks| && Pow2(k) < |s.ranks| && AllReached(s, k)
    requires s.ranks[r].round == k && s.ranks[r].phase == 0 && ConnectPhase(r, k) == 0
    ensures CanMove(s, sync)
  {
    ConnectorMoves(s, r, sync);
    if !CanMove(s, sync) {
      ParityFlips(r, k);
      PendingMoves(s, r, k, sync);
    }
  }

  /** All ranks of the earliest round are past phase 0, and some are in phase 1: odd ranks call,
      even ranks accept. */
  lemma SecondPhaseMoves(s: Graph, r: nat, k: nat, sync: bool)
    requires GraphOk(s) && r < |s.ranks| && Pow2(k) < |s.ranks| && AllReached(s, k) && s.ranks[r].round == k
             && s.ranks[r].phase == 1
    requires forall x :: 0 <= x < |s.ranks| && s.ranks[x].round == k ==> s.ranks[x].phase >= 1
    ensures CanMove(s, sync)
  {
    hide Pow2, GraphOk, ConnectPhase;
    if ConnectPhase(r, k) == 1 {
      CallSecond(s, r, k, sync);
    } else if r < Pow2(k) {
      assert GraphStep(s, r, Chan(0, 0), sync).Some?;
    } else {
      var p := r - Pow2(k);
      ParityFlips(p, k);
      hide CanMove, GraphStep;
      if Called(s.ranks[p], p, k) {
        AcceptorMoves(s, r, sync);
      } else {
        assert s.ranks[p].round == k && s.ranks[p].phase == 1;
        CallSecond(s, p, k, sync);
      }
    }
  }

  lemma CallSecond(s: Graph, r: nat, k: nat, sync: bool)
    requires GraphOk(s) && r < |s.ranks| && Pow2(k) < |s.ranks| && AllReached(s, k)
    requires s.ranks[r].round == k && s.ranks[r].phase == 1 && ConnectPhase(r, k) == 1
    requires forall x :: 0 <= x < |s.ranks| && s.ranks[x].round == k ==> s.ranks[x].phase >= 1
    ensures CanMove(s, sync)
  {
    hide GraphOk, Pow2, ConnectPhase;
    ConnectorMoves(s, r, sync);
    if !CanMove(s, sync) {
      ParityFlips(r, k);
      PendingMoves(s, r, k, sync);
    }
  }

  lemma {:induction false} EarliestRound(s: Graph, n: nat) returns (m: nat)
    requires 0 < n <= |s.ranks|
    ensures m < n && forall x :: 0 <= x < n ==> s.ranks[x].round >= s.ranks[m].round
    decreases n
  {
    m := 0;
    if n > 1 {
      m := EarliestRound(s, n - 1);
      if s.ranks[n - 1].round < s.ranks[m].round { m := n - 1; }
    }
  }

  /** A rank of the earliest round that is through with its calls can move, or its sending
      neighbour can. */
  lemma LaterPhaseMoves(s: Graph, r: nat, k: nat, sync: bool)
    requires GraphOk(s) && r < |s.ranks| && Pow2(k) < |s.ranks| && AllReached(s, k) && s.ranks[r].round == k
             && s.ranks[r].phase >= 2
    requires forall x :: 0 <= x < |s.ranks| && s.ranks[x].round == k ==> s.ranks[x].phase >= 2
    ensures CanMove(s, sync)
  {
    hide Pow2, GraphOk, ChanOk, ConnectPhase, RankOk;
    var me, n := s.ranks[r], |s.ranks|;
    if me.phase < 4 {
      SenderMoves(s, r, sync);
    } else if me.phase >= 6 || NoNeighbour(me, r, n) {
      assert GraphStep(s, r, Chan(0, 0), sync).Some?;
    } else {
      var p := if me.phase == 4 then r - Pow2(k) else r + Pow2(k);
      if s.ranks[p].round == k && s.ranks[p].phase < 4 {
        SenderMoves(s, p, sync);
      } else {
        RankFacts(s, r);
        ReceiverMoves(s, r, sync);
      }
    }
  }

  lemma SenderMoves(s: Graph, r: nat, sync: bool)
    requires GraphOk(s) && r < |s.ranks| && !Finished(s.ranks[r], |s.ranks|) && 2 <= s.ranks[r].phase < 4
    ensures CanMove(s, sync)
  {
    hide GraphOk, Pow2, SendStep, ConnectPhase;
    SendKeeps(s, r);
    assert GraphStep(s, r, Chan(0, 0), sync).Some?;
  }

  lemma ReceiverMoves(s: Graph, r: nat, sync: bool)
    requires GraphOk(s) && r < |s.ranks| && !Finished(s.ranks[r], |s.ranks|) && RankOk(s.ranks[r], r, |s.ranks|)
    requires var me := s.ranks[r];
             && (me.phase == 4 || me.phase == 5) && !NoNeighbour(me, r, |s.ranks|)
             && Past(s.ranks[if me.phase == 4 then r - Pow2(me.round) else r + Pow2(me.round)], me.round, 3)
    ensures CanMove(s, sync)
  {
    hide GraphOk, Pow2, RankOk, ConnectPhase, ChanOk, Past;
    var me := s.ranks[r];
    if me.phase == 4 {
      ListedLeft(me, r, |s.ranks|);
      ChanFacts(s, me.listLeft[me.round]);
      AddressComes(s, me.listLeft[me.round]);
    } else {
      ListedRight(me, r, |s.ranks|);
      ChanFacts(s, me.listRight[me.round]);
      AddressReturns(s, me.listRight[me.round]);
    }
    assert GraphStep(s, r, Chan(0, 0), sync).Some?;
  }

  lemma AddressComes(s: Graph, ch: Chan)
    requires Inside(s, ch) && ChanOk(s, ch) && Past(s.ranks[ch.src], ch.round, 3)
    requires var b := s.ranks[ch.src + Pow2(ch.round)]; b.round == ch.round && b.phase == 4 && ch.round in b.listLeft
    ensures Stream(s.toRight, ch) != [] && Stream(s.toRight, ch)[0].Address?
  {
    hide Pow2, ConnectPhase;
  }

  lemma AddressReturns(s: Graph, ch: Chan)
    requires Inside(s, ch) && ChanOk(s, ch) && s.ranks[ch.src].round == ch.round && s.ranks[ch.src].phase == 5
    requires Past(s.ranks[ch.src + Pow2(ch.round)], ch.round, 3)
    ensures Stream(s.toLeft, ch) != []
  {
    hide Pow2, ConnectPhase;
  }

  lemma UnfinishedMoves(s: Graph, r: nat, sync: bool)
    requires GraphOk(s) && r < |s.ranks| && !Finished(s.ranks[r], |s.ranks|)
    ensures CanMove(s, sync)
  {
    hide GraphOk, GraphStep, CanMove;
    var m := EarliestRound(s, |s.ranks|);
    var k := s.ranks[m].round;
    Pow2Grows(s.ranks[r].round, k);
    assert AllReached(s, k);
    hide Pow2, AllReached;
    if x :| 0 <= x < |s.ranks| && s.ranks[x].round == k && s.ranks[x].phase == 0 {
      FirstPhaseMoves(s, x, k, sync);
    } else if x :| 0 <= x < |s.ranks| && s.ranks[x].round == k && s.ranks[x].phase == 1 {
      SecondPhaseMoves(s, x, k, sync);
    } else {
      LaterPhaseMoves(s, m, k, sync);
    }
  }

  /** Until every rank has finished, some rank can move, even if every connect call waits until
      it has been accepted. */
  lemma GraphNeverStuck(s: Graph, run: Moves, sync: bool)
    requires RingOnly(s) && GraphRun(s, run, sync).Some?
    ensures var u := GraphRun(s, run, sync).value;
            && |u.ranks| == |s.ranks|
            && (CanMove(u, sync) <==> exists r :: 0 <= r < |u.ranks| && !Finished(u.ranks[r], |u.ranks|))
  {
    hide GraphOk, GraphRun;
    RingIsOk(s);
    GraphRunKeeps(s, run, sync);
    var u := GraphRun(s, run, sync).value;
    if r :| 0 <= r < |u.ranks| && !Finished(u.ranks[r], |u.ranks|) {
      UnfinishedMoves(u, r, sync);
    }
    if CanMove(u, sync) {
      var r: nat, ch :| GraphStep(u, r, ch, sync).Some?;
      assert 0 <= r < |u.ranks| && !Finished(u.ranks[r], |u.ranks|);
    }
  }

  // ----- every run ends -----

  /** An upper bound on the steps that a rank has yet to take, when there are `K` rounds. */
  function Work(me: Member, K: nat): int {
    16 * (K - me.round) - 2 * me.phase - (if me.calling then 1 else 0)
    + 3 * (K - |me.listLeft|) - (if me.holding.Some? then 1 else 0)
  }

  ghost function TotalWork(ranks: seq<Member>, K: nat): int {
    if ranks == [] then 0 else Work(ranks[0], K) + TotalWork(ranks[1..], K)
  }

  lemma {:induction false} WorkOfOne(ranks: seq<Member>, r: nat, me: Member, K: nat)
    requires r < |ranks|
    ensures TotalWork(ranks[r := me], K) == TotalWork(ranks, K) - Work(ranks[r], K) + Work(me, K)
  {
    if r == 0 {
      assert ranks[r := me][1..] == ranks[1..];
    } else {
      assert ranks[r := me][1..] == ranks[1..][r - 1 := me];
      WorkOfOne(ranks[1..], r - 1, me, K);
    }
  }

  /** A round number that is in the list stays below `K`, so there are at most `K` entries. */
  lemma {:induction false} FewKeys(keys: set<nat>, K: nat)
    requires forall j :: j in keys ==> j < K
    ensures |keys| <= K
    decreases K
  {
    if K == 0 {
      assert keys == {};
    } else {
      FewKeys(keys - {K - 1}, K - 1);
      if K - 1 in keys { assert keys == (keys - {K - 1}) + {K - 1}; } else { assert keys == keys - {K - 1}; }
    }
  }

  lemma WorkLeft(me: Member, r: nat, n: nat, K: nat)
    requires RankOk(me, r, n) && r < n && Pow2(K) >= n && me.round <= K
    ensures Work(me, K) >= 0
  {
    forall j | j in me.listLeft ensures j < K {
      if j >= K { Pow2Grows(j, K); }
    }
    FewKeys(me.listLeft.Keys, K);
    assert |me.listLeft| == |me.listLeft.Keys|;
    if me.round == K { assert Finished(me, n); }
    if me.calling && me.round == K { assert false; }
  }

  ghost predicate Worked(s: Graph, s': Graph, r: nat, K: nat) {
    && r < |s.ranks| == |s'.ranks| && s'.ranks == s.ranks[r := s'.ranks[r]]
    && Work(s'.ranks[r], K) < Work(s.ranks[r], K)
    && (s'.ranks[r].round == s.ranks[r].round || s'.ranks[r].round == s.ranks[r].round + 1)
  }

  lemma ConnectWorks(s: Graph, r: nat, sync: bool, K: nat)
    requires r < |s.ranks| && ConnectStep(s, r, sync).Some?
    ensures Worked(s, ConnectStep(s, r, sync).value, r, K)
  {
    hide Pow2, Stream;
  }

  lemma AcceptWorks(s: Graph, r: nat, ch: Chan, K: nat)
    requires r < |s.ranks| && AcceptStep(s, r, ch).Some?
    requires s.ranks[r].holding.Some? ==>
               var q := Stream(s.toRight, s.ranks[r].holding.value);
               q != [] && q[0].RoundId? ==> q[0].id !in s.ranks[r].listLeft
    ensures Worked(s, AcceptStep(s, r, ch).value, r, K)
  {
    hide Pow2, Stream;
    var me := s.ranks[r];
    if me.holding.Some? && r >= Pow2(me.round) {
      var q := Stream(s.toRight, me.holding.value);
      OneMore(me.listLeft, q[0].id, me.holding.value);
    }
  }

  lemma OneMore(m: map<nat, Chan>, j: nat, ch: Chan)
    requires j !in m
    ensures |m[j := ch]| == |m| + 1
  {
    assert m[j := ch].Keys == m.Keys + {j};
    assert |m[j := ch]| == |m[j := ch].Keys| && |m| == |m.Keys|;
  }

  lemma SendWorks(s: Graph, r: nat, K: nat)
    requires r < |s.ranks| && SendStep(s, r).Some?
    ensures Worked(s, SendStep(s, r).value, r, K)
  {
    hide Pow2, Stream;
    var s' := SendStep(s, r).value;
    assert s'.ranks == s.ranks[r := Tick(s.ranks[r])];
    hide SendStep;
  }

  lemma ReceiveWorks(s: Graph, r: nat, K: nat)
    requires r < |s.ranks| && ReceiveStep(s, r).Some?
    ensures Worked(s, ReceiveStep(s, r).value, r, K)
  {
    hide Pow2, Stream;
    var s' := ReceiveStep(s, r).value;
    var me := s'.ranks[r];
    assert s'.ranks == s.ranks[r := me] && me.round == s.ranks[r].round && me.phase == s.ranks[r].phase + 1;
    assert me.listLeft == s.ranks[r].listLeft && me.holding == s.ranks[r].holding && me.calling == s.ranks[r].calling;
    hide ReceiveStep;
  }

  /** Each step is one step less to take. */
  lemma StepWorks(s: Graph, r: nat, ch: Chan, sync: bool, K: nat)
    requires GraphOk(s) && GraphStep(s, r, ch, sync).Some?
    ensures Worked(s, GraphStep(s, r, ch, sync).value, r, K)
  {
    hide GraphOk, RankOk, ConnectPhase, ChanOk, ConnectStep, AcceptStep, SendStep, ReceiveStep;
    RankFacts(s, r);
    var me := s.ranks[r];
    PhaseBound(me, r, |s.ranks|);
    if me.holding.Some? {
      HeldFacts(me, r, |s.ranks|);
      ChanFacts(s, me.holding.value);
      NewEntry(s, me.holding.value);
    }
    hide Worked, Pow2;
    if me.phase == ConnectPhase(r, me.round) {
      ConnectWorks(s, r, sync, K);
    } else if me.phase < 2 {
      AcceptWorks(s, r, ch, K);
    } else if me.phase < 4 {
      SendWorks(s, r, K);
    } else if me.phase < 6 {
      ReceiveWorks(s, r, K);
    } else {
      AdvanceWorks(s, r, K);
    }
  }

  lemma AdvanceWorks(s: Graph, r: nat, K: nat)
    requires r < |s.ranks| && s.ranks[r].phase == 6
    ensures Worked(s, Put(s, r, Advance(s.ranks[r])), r, K)
  {
  }

  ghost predicate RoundsWithin(s: Graph, K: nat) {
    forall r :: 0 <= r < |s.ranks| ==> s.ranks[r].round <= K
  }

  lemma {:induction false} TotalWorkLeft(s: Graph, K: nat, i: nat)
    requires GraphOk(s) && Pow2(K) >= |s.ranks| && RoundsWithin(s, K) && i <= |s.ranks|
    ensures TotalWork(s.ranks[i..], K) >= 0
    decreases |s.ranks| - i
  {
    hide GraphOk, RankOk, Pow2, Work;
    if i < |s.ranks| {
      TotalWorkLeft(s, K, i + 1);
      assert s.ranks[i..][0] == s.ranks[i] && s.ranks[i..][1..] == s.ranks[i + 1..];
      RankFacts(s, i);
      WorkLeft(s.ranks[i], i, |s.ranks|, K);
    }
  }

  lemma StepRounds(s: Graph, r: nat, ch: Chan, sync: bool, K: nat)
    requires Pow2(K) >= |s.ranks| && RoundsWithin(s, K) && GraphStep(s, r, ch, sync).Some?
    requires Worked(s, GraphStep(s, r, ch, sync).value, r, K)
    ensures RoundsWithin(GraphStep(s, r, ch, sync).value, K)
  {
    assert !Finished(s.ranks[r], |s.ranks|);
    hide GraphStep, Work;
    assert s.ranks[r].round < K;
  }

  /** No run is longer than the work there was at the start. */
  lemma {:induction false} RunBounded(s: Graph, run: Moves, sync: bool, K: nat)
    requires GraphOk(s) && Pow2(K) >= |s.ranks| && RoundsWithin(s, K) && GraphRun(s, run, sync).Some?
    ensures |run| <= TotalWork(s.ranks, K)
    decreases |run|
  {
    if run == [] {
      TotalWorkLeft(s, K, 0);
      assert s.ranks[0..] == s.ranks;
    } else {
      hide GraphOk, GraphStep, Pow2, RoundsWithin, Work;
      var r, ch := run[0].0, run[0].1;
      var s' := GraphStep(s, r, ch, sync).value;
      StepWorks(s, r, ch, sync, K);
      StepKeeps(s, r, ch, sync);
      StepRounds(s, r, ch, sync, K);
      WorkOfOne(s.ranks, r, s'.ranks[r], K);
      RunBounded(s', run[1..], sync, K);
    }
  }

  lemma {:induction false} RingWork(ranks: seq<Member>, K: nat)
    requires forall r :: 0 <= r < |ranks| ==> Work(ranks[r], K) == 19 * K
    ensures TotalWork(ranks, K) == 19 * K * |ranks|
  {
    if ranks != [] {
      RingWork(ranks[1..], K);
    }
  }

  /** Every run is finite: with `K` rounds and n ranks it has at most 19 K n steps.  As no run gets
      stuck, every run that goes on as long as it can ends with all ranks finished. */
  lemma GraphRunsEnd(s: Graph, run: Moves, sync: bool, K: nat)
    requires RingOnly(s) && Pow2(K) >= |s.ranks| && GraphRun(s, run, sync).Some?
    ensures |run| <= 19 * K * |s.ranks|
  {
    RingIsOk(s);
    RingWork(s.ranks, K);
    hide GraphOk, GraphRun, TotalWork;
    RunBounded(s, run, sync, K);
  }

  lemma NewEntry(s: Graph, ch: Chan)
    requires Inside(s, ch) && ChanOk(s, ch) && s.ranks[ch.src + Pow2(ch.round)].holding == Some(ch)
    ensures var q := Stream(s.toRight, ch);
            q != [] && q[0].RoundId? ==> q[0].id == ch.round && ch.round !in s.ranks[ch.src + Pow2(ch.round)].listLeft
  {
    hide Pow2, ConnectPhase;
  }
}
