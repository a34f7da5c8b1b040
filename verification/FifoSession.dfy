/** Connecting over named pipes: any number of processes call connect and accept in any order, and
  requests, replies and messages mix in their pipes.  The two ends of every channel hold each
  other's ids. */
module FifoSession {
  import opened Confluence
  import opened Lists
  import opened Lex
  import opened StrPack
  import opened FifoQueue
  import opened FifoEndpoint

  /** The other end of a channel: its process, and the id to put on packets for it. */
  datatype Peer = Peer(proc: nat, writeid: int)

  /** A process: the next free id, the packets that wait in its pipe or queue, its connect calls in
      progress with their targets, and its channels by read id: those that it connected, and those
      that it accepted. */
  datatype Process = Process(
    nextId: nat, coming: seq<Packet>,
    calls: map<int, nat>, dialed: map<int, Peer>, accepted: map<int, Peer>)

  datatype Step =
    | Dial(p: nat, q: nat)          // `p` sends a connection request to `q`
    | Answer(q: nat)                // `q` accepts the first request in its pipe
    | Finish(p: nat, r: int)        // the call of `p` with id `r` gets its reply
    | Arrive(p: nat, packet: Packet)  // a message arrives at `p`
    | Read(p: nat, id: int)         // `p` reads a message

  function Start(n: nat): seq<Process> { seq(n, _ => Process(1, [], map[], map[], map[])) }

  /** The process with this name. */
  function WhoIs(names: seq<CString>, name: CString): (i: nat)
    ensures i <= |names| && (i < |names| ==> names[i] == name) && forall j :: 0 <= j < i ==> names[j] != name
  {
    if names == [] || names[0] == name then 0 else 1 + WhoIs(names[1..], name)
  }

  function Deliver(ps: seq<Process>, p: nat, packet: Packet): seq<Process>
    requires p < |ps|
  {
    ps[p := ps[p].(coming := ps[p].coming + [packet])]
  }

  function DialStep(ps: seq<Process>, names: seq<CString>, p: nat, q: nat): Option<seq<Process>> {
    if p < |ps| == |names| && q < |ps| && ps[p].nextId < Pow256(8) then
      var r := ps[p].nextId;
      Some(Deliver(ps[p := ps[p].(nextId := r + 1, calls := ps[p].calls[r := q])], q, Request(r, names[p])))
    else None
  }

  function AnswerStep(ps: seq<Process>, names: seq<CString>, q: nat): Option<seq<Process>> {
    if q < |ps| == |names| && ps[q].nextId < Pow256(8) then
      var k := FirstMatch(ps[q].coming, Connect, -1);
      if k < |ps[q].coming| && 8 <= |ps[q].coming[k].data| && WhoIs(names, NameOf(ps[q].coming[k])) < |names| then
        var w, packet := ps[q].nextId, ps[q].coming[k];
        var p, r := WhoIs(names, NameOf(packet)), IdOf(packet);
        Some(Deliver(ps[q := ps[q].(nextId := w + 1, coming := Without(ps[q].coming, k),
          accepted := ps[q].accepted[w := Peer(p, r)])], p, Reply(r, w)))
      else None
    else None
  }

  function FinishStep(ps: seq<Process>, p: nat, r: int): Option<seq<Process>> {
    if p < |ps| && r in ps[p].calls then
      var k := FirstMatch(ps[p].coming, Accept, r);
      if k < |ps[p].coming| && 8 <= |ps[p].coming[k].data| then
        Some(ps[p := ps[p].(coming := Without(ps[p].coming, k), calls := ps[p].calls - {r},
          dialed := ps[p].dialed[r := Peer(ps[p].calls[r], IdOf(ps[p].coming[k]))])])
      else None
    else None
  }

  function Next(ps: seq<Process>, names: seq<CString>, step: Step): Option<seq<Process>> {
    match step
    case Dial(p, q) => DialStep(ps, names, p, q)
    case Answer(q) => AnswerStep(ps, names, q)
    case Finish(p, r) => FinishStep(ps, p, r)
    case Arrive(p, packet) => if p < |ps| && packet.kind == Message then Some(Deliver(ps, p, packet)) else None
    case Read(p, id) =>
      if p < |ps| && FirstMatch(ps[p].coming, Message, id) < |ps[p].coming| then
        Some(ps[p := ps[p].(coming := Without(ps[p].coming, FirstMatch(ps[p].coming, Message, id)))])
      else None
  }

  function Steps(ps: seq<Process>, names: seq<CString>, steps: seq<Step>): Option<seq<Process>>
    decreases |steps|
  {
    if steps == [] then Some(ps)
    else
      var m := Next(ps, names, steps[0]);
      if m.None? then None else Steps(m.value, names, steps[1..])
  }

  /** Every process has a name of its own, which is a C string. */
  ghost predicate Names(names: seq<CString>) {
    NoDup(names) && forall i :: 0 <= i < |names| ==> NulFree(names[i])
  }

  // ----- what every step keeps -----

  /** A connect call: the process and the id that it gave out. */
  datatype Call = Call(p: nat, r: int)

  /** The request is on its way to `q`; or `q` has made a channel with read id `w` and the reply is on
      its way; or both ends have their channel. */
  datatype Stage = Asked(q: nat) | Answered(q: nat, w: int) | Done(q: nat, w: int)

  ghost function Count(s: seq<Packet>, x: Packet): nat { multiset(s)[x] }

  lemma CountAppend(s: seq<Packet>, x: Packet, y: Packet)
    ensures Count(s + [x], y) == Count(s, y) + if x == y then 1 else 0
  {
  }

  lemma CountWithout(s: seq<Packet>, k: nat, y: Packet)
    requires k < |s|
    ensures Count(s, y) == Count(Without(s, k), y) + if s[k] == y then 1 else 0
  {
    assert s == s[..k] + [s[k]] + s[k + 1..];
  }

  lemma CountIn(s: seq<Packet>, x: Packet)
    ensures x in s <==> Count(s, x) > 0
  {
  }

  /** Where the packets and channels of a call are. */
  ghost predicate CallOk(ps: seq<Process>, names: seq<CString>, c: Call, st: Stage)
    requires |ps| == |names|
  {
    && c.p < |ps| && st.q < |ps| && 0 <= c.r < ps[c.p].nextId && c.r !in ps[c.p].accepted
    && match st
       case Asked(q) =>
         && c.r in ps[c.p].calls && ps[c.p].calls[c.r] == q && c.r !in ps[c.p].dialed
         && Count(ps[q].coming, Request(c.r, names[c.p])) == 1
       case Answered(q, w) =>
         && c.r in ps[c.p].calls && ps[c.p].calls[c.r] == q && c.r !in ps[c.p].dialed
         && 0 <= w < ps[q].nextId && Count(ps[c.p].coming, Reply(c.r, w)) == 1
         && w in ps[q].accepted && ps[q].accepted[w] == Peer(c.p, c.r)
       case Done(q, w) =>
         && c.r !in ps[c.p].calls && c.r in ps[c.p].dialed && ps[c.p].dialed[c.r] == Peer(q, w)
         && 0 <= w < ps[q].nextId && w in ps[q].accepted && ps[q].accepted[w] == Peer(c.p, c.r)
  }

  /** Every call, channel, request and reply at a process is one of those. */
  ghost predicate ProcOk(ps: seq<Process>, names: seq<CString>, stage: map<Call, Stage>, p: nat)
    requires |ps| == |names| && p < |ps|
  {
    && ps[p].nextId <= Pow256(8)
    && (forall r :: r in ps[p].calls ==> Call(p, r) in stage)
    && (forall r :: r in ps[p].dialed ==> Call(p, r) in stage)
    && (forall w :: w in ps[p].accepted ==>
          var c := Call(ps[p].accepted[w].proc, ps[p].accepted[w].writeid);
          w < ps[p].nextId && c in stage && (stage[c] == Answered(p, w) || stage[c] == Done(p, w)))
    && (forall x :: x in ps[p].coming && x.kind == Connect ==> IsRequest(names, stage, p, x))
    && (forall x :: x in ps[p].coming && x.kind == Accept ==> IsReply(stage, p, x))
  }

  ghost predicate IsRequest(names: seq<CString>, stage: map<Call, Stage>, q: nat, x: Packet) {
    exists c :: c in stage && stage[c] == Asked(q) && c.p < |names| && 0 <= c.r && x == Request(c.r, names[c.p])
  }

  ghost predicate IsReply(stage: map<Call, Stage>, p: nat, x: Packet) {
    var c := Call(p, x.src);
    c in stage && stage[c].Answered? && 0 <= stage[c].w && x == Reply(x.src, stage[c].w)
  }

  ghost predicate NetOk(ps: seq<Process>, names: seq<CString>, stage: map<Call, Stage>) {
    && |ps| == |names|
    && (forall c :: c in stage ==> CallOk(ps, names, c, stage[c]))
    && (forall p :: 0 <= p < |ps| ==> ProcOk(ps, names, stage, p))
  }

  /** Requests of different calls are different packets. */
  lemma RequestsDiffer(names: seq<CString>, c: Call, d: Call)
    requires Names(names) && c.p < |names| && d.p < |names| && c != d
    requires 0 <= c.r < Pow256(8) && 0 <= d.r < Pow256(8)
    ensures Request(c.r, names[c.p]) != Request(d.r, names[d.p])
  {
    hide Request, IdOf, NameOf, NulFree, Pow256;
    RequestRead(c.r, names[c.p]);
    RequestRead(d.r, names[d.p]);
  }

  /** Packets other than messages are as they were. */
  ghost predicate SameTraffic(before: seq<Packet>, after: seq<Packet>) {
    forall x: Packet :: x.kind != Message ==> Count(after, x) == Count(before, x)
  }

  lemma MessageKeeps(ps: seq<Process>, names: seq<CString>, stage: map<Call, Stage>, p: nat, coming: seq<Packet>)
    requires NetOk(ps, names, stage) && p < |ps| && SameTraffic(ps[p].coming, coming)
    ensures NetOk(ps[p := ps[p].(coming := coming)], names, stage)
  {
    hide Count, Request, Reply, IsRequest, IsReply, Pow256;
    var ps' := ps[p := ps[p].(coming := coming)];
    forall c | c in stage ensures CallOk(ps', names, c, stage[c]) {
      assert CallOk(ps, names, c, stage[c]);
      RequestKind(c.r, names[c.p]);
      if !stage[c].Asked? { ReplyKind(c.r, stage[c].w); }
    }
    forall i | 0 <= i < |ps| ensures ProcOk(ps', names, stage, i) {
      assert ProcOk(ps, names, stage, i);
      forall x | x in ps'[i].coming && x.kind != Message ensures x in ps[i].coming {
        CountIn(coming, x);
        CountIn(ps[p].coming, x);
      }
    }
  }

  lemma RequestKind(r: nat, name: CString)
    ensures Request(r, name).kind == Connect
  {
  }

  lemma ReplyKind(r: int, w: nat)
    ensures Reply(r, w).kind == Accept && Reply(r, w).src == r
  {
  }

  /** The new request is not in any pipe yet. */
  lemma NotYetAsked(ps: seq<Process>, names: seq<CString>, stage: map<Call, Stage>, c: Call, q: nat)
    requires Names(names) && NetOk(ps, names, stage) && c.p < |ps| && 0 <= c.r < Pow256(8) && q < |ps|
    requires c in stage ==> stage[c] != Asked(q)
    ensures Count(ps[q].coming, Request(c.r, names[c.p])) == 0
  {
    hide Count, Request, Pow256, Names, CallOk;
    var x := Request(c.r, names[c.p]);
    RequestKind(c.r, names[c.p]);
    CountIn(ps[q].coming, x);
    if x in ps[q].coming {
      assert ProcOk(ps, names, stage, q);
      var d :| d in stage && stage[d] == Asked(q) && d.p < |names| && 0 <= d.r && x == Request(d.r, names[d.p]);
      IdInRange(ps, names, stage, d);
      RequestsDiffer(names, c, d);
      assert false;
    }
  }

  lemma IdInRange(ps: seq<Process>, names: seq<CString>, stage: map<Call, Stage>, c: Call)
    requires NetOk(ps, names, stage) && c in stage
    ensures c.p < |ps| && 0 <= c.r < ps[c.p].nextId && c.r < Pow256(8)
  {
    assert CallOk(ps, names, c, stage[c]);
    assert ProcOk(ps, names, stage, c.p);
  }

  lemma DialCall(ps: seq<Process>, names: seq<CString>, stage: map<Call, Stage>, p: nat, q: nat, c: Call)
    requires Names(names) && NetOk(ps, names, stage) && DialStep(ps, names, p, q).Some?
    requires c in stage || c == Call(p, ps[p].nextId)
    ensures CallOk(DialStep(ps, names, p, q).value, names, c, if c in stage then stage[c] else Asked(q))
  {
    hide Count, Request, Reply, IsRequest, IsReply, Pow256, Names;
    var r := ps[p].nextId;
    var x := Request(r, names[p]);
    assert ProcOk(ps, names, stage, p);
    RequestKind(r, names[p]);
    if c in stage {
      assert CallOk(ps, names, c, stage[c]);
      IdInRange(ps, names, stage, c);
      RequestsDiffer(names, c, Call(p, r));
      CountAppend(ps[q].coming, x, Request(c.r, names[c.p]));
      if !stage[c].Asked? {
        ReplyKind(c.r, stage[c].w);
        CountAppend(ps[q].coming, x, Reply(c.r, stage[c].w));
      }
    } else {
      NotYetAsked(ps, names, stage, c, q);
      CountAppend(ps[q].coming, x, x);
    }
  }

  lemma DialKeeps(ps: seq<Process>, names: seq<CString>, stage: map<Call, Stage>, p: nat, q: nat)
    requires Names(names) && NetOk(ps, names, stage) && DialStep(ps, names, p, q).Some?
    ensures NetOk(DialStep(ps, names, p, q).value, names, stage[Call(p, ps[p].nextId) := Asked(q)])
  {
    hide Count, Request, Reply, IsReply, Pow256, Names, CallOk;
    var ps', r := DialStep(ps, names, p, q).value, ps[p].nextId;
    var call := Call(p, r);
    var stage' := stage[call := Asked(q)];
    if call in stage { IdInRange(ps, names, stage, call); }
    forall c | c in stage' ensures CallOk(ps', names, c, stage'[c]) {
      DialCall(ps, names, stage, p, q, c);
    }
    forall i | 0 <= i < |ps| ensures ProcOk(ps', names, stage', i) {
      assert ProcOk(ps, names, stage, i);
      RequestKind(r, names[p]);
      forall x | x in ps'[i].coming && x.kind == Connect ensures IsRequest(names, stage', i, x) {
        if x in ps[i].coming {
          assert IsRequest(names, stage, i, x);
          var d :| d in stage && stage[d] == Asked(i) && d.p < |names| && 0 <= d.r && x == Request(d.r, names[d.p]);
          assert d in stage' && stage'[d] == Asked(i);
        } else {
          assert call in stage' && stage'[call] == Asked(i);
        }
      }
      forall x | x in ps'[i].coming && x.kind == Accept ensures IsReply(stage', i, x) {
        assert IsReply(stage, i, x);
        SameReply(stage, call, Asked(q), i, x);
      }
    }
  }

  /** A reply to one call is not affected by what happens to another. */
  lemma SameReply(stage: map<Call, Stage>, c: Call, st: Stage, p: nat, x: Packet)
    requires IsReply(stage, p, x) && (c == Call(p, x.src) ==> c !in stage || !stage[c].Answered?)
    ensures IsReply(stage[c := st], p, x)
  {
  }

  // ----- accepting -----

  /** Process `q` has taken packet `k` out, and packet `y` has been delivered to `p`. */
  ghost predicate Moved(ps: seq<Process>, ps': seq<Process>, q: nat, k: nat, p: nat, y: Packet)
    requires q < |ps| && k < |ps[q].coming| && p < |ps|
  {
    && |ps'| == |ps|
    && (forall i, x :: 0 <= i < |ps| ==>
          Count(ps'[i].coming, x) + (if i == q && x == ps[q].coming[k] then 1 else 0)
          == Count(ps[i].coming, x) + if i == p && x == y then 1 else 0)
  }

  /** What the accept step does when the first request is that of call `c`. */
  ghost predicate Answers(ps: seq<Process>, names: seq<CString>, q: nat, c: Call, ps': seq<Process>)
    requires |ps| == |names| && q < |ps|
  {
    var w, k := ps[q].nextId, FirstMatch(ps[q].coming, Connect, -1);
    && c.p < |ps| && 0 <= c.r && k < |ps[q].coming| && w < Pow256(8)
    && ps[q].coming[k] == Request(c.r, names[c.p]) && Moved(ps, ps', q, k, c.p, Reply(c.r, w))
    && (forall i :: 0 <= i < |ps| ==>
          && ps'[i].calls == ps[i].calls && ps'[i].dialed == ps[i].dialed
          && ps'[i].nextId == (if i == q then w + 1 else ps[i].nextId)
          && ps'[i].accepted == if i == q then ps[q].accepted[w := Peer(c.p, c.r)] else ps[i].accepted)
  }

  lemma AnswerIs(ps: seq<Process>, names: seq<CString>, stage: map<Call, Stage>, q: nat) returns (c: Call)
    requires Names(names) && NetOk(ps, names, stage) && AnswerStep(ps, names, q).Some?
    ensures c in stage && stage[c] == Asked(q) && Answers(ps, names, q, c, AnswerStep(ps, names, q).value)
  {
    hide Count, Request, Reply, Pow256, CallOk, Without, IdOf, NameOf, NulFree, StrEnd;
    var k := FirstMatch(ps[q].coming, Connect, -1);
    var x := ps[q].coming[k];
    assert ProcOk(ps, names, stage, q);
    assert IsRequest(names, stage, q, x);
    c :| c in stage && stage[c] == Asked(q) && c.p < |names| && 0 <= c.r && x == Request(c.r, names[c.p]);
    IdInRange(ps, names, stage, c);
    RequestRead(c.r, names[c.p]);
    assert WhoIs(names, names[c.p]) == c.p;
    var y := Reply(c.r, ps[q].nextId);
    forall i, z | 0 <= i < |ps|
      ensures Count(AnswerStep(ps, names, q).value[i].coming, z) + (if i == q && z == x then 1 else 0)
              == Count(ps[i].coming, z) + if i == c.p && z == y then 1 else 0
    {
      CountWithout(ps[q].coming, k, z);
      CountAppend(ps[i].coming, y, z);
      CountAppend(Without(ps[q].coming, k), y, z);
    }
  }

  lemma AnswerCall(
    ps: seq<Process>, names: seq<CString>, stage: map<Call, Stage>, q: nat, c: Call, ps': seq<Process>, d: Call)
    requires Names(names) && NetOk(ps, names, stage) && q < |ps| && c in stage && stage[c] == Asked(q)
    requires Answers(ps, names, q, c, ps') && d in stage
    ensures CallOk(ps', names, d, if d == c then Answered(q, ps[q].nextId) else stage[d])
  {
    hide Count, Request, Reply, IsRequest, IsReply, Pow256, Names, FirstMatch, ProcOk;
    assert CallOk(ps, names, c, stage[c]) && CallOk(ps, names, d, stage[d]);
    IdInRange(ps, names, stage, c);
    IdInRange(ps, names, stage, d);
    var w := ps[q].nextId;
    RequestKind(c.r, names[c.p]);
    RequestKind(d.r, names[d.p]);
    ReplyKind(c.r, w);
    if d == c {
      NotYetAnswered(ps, names, stage, c, w);
    } else {
      RequestsDiffer(names, c, d);
      if !stage[d].Asked? { ReplyKind(d.r, stage[d].w); }
    }
  }

  lemma NotYetAnswered(ps: seq<Process>, names: seq<CString>, stage: map<Call, Stage>, c: Call, w: nat)
    requires NetOk(ps, names, stage) && c in stage && stage[c].Asked? && c.p < |ps|
    ensures Count(ps[c.p].coming, Reply(c.r, w)) == 0
  {
    hide Count, Reply, CallOk;
    var x := Reply(c.r, w);
    ReplyKind(c.r, w);
    CountIn(ps[c.p].coming, x);
    assert ProcOk(ps, names, stage, c.p);
    assert x !in ps[c.p].coming;
  }

  lemma AnswerProc(
    ps: seq<Process>, names: seq<CString>, stage: map<Call, Stage>, q: nat, c: Call, ps': seq<Process>, i: nat)
    requires Names(names) && NetOk(ps, names, stage) && q < |ps| && c in stage && stage[c] == Asked(q)
    requires Answers(ps, names, q, c, ps') && i < |ps|
    ensures ProcOk(ps', names, stage[c := Answered(q, ps[q].nextId)], i)
  {
    hide Count, Request, Reply, Pow256, Names, FirstMatch, CallOk, IsReply;
    var w := ps[q].nextId;
    var stage' := stage[c := Answered(q, w)];
    assert ProcOk(ps, names, stage, i) && ProcOk(ps, names, stage, q);
    RequestKind(c.r, names[c.p]);
    ReplyKind(c.r, w);
    forall x | x in ps'[i].coming && x.kind == Connect ensures IsRequest(names, stage', i, x) {
      CountIn(ps'[i].coming, x);
      CountIn(ps[i].coming, x);
      var d :| d in stage && stage[d] == Asked(i) && d.p < |names| && 0 <= d.r && x == Request(d.r, names[d.p]);
      AskedOnce(ps, names, stage, c, q);
      assert d != c && d in stage' && stage'[d] == Asked(i);
    }
    forall x | x in ps'[i].coming && x.kind == Accept ensures IsReply(stage', i, x) {
      CountIn(ps'[i].coming, x);
      CountIn(ps[i].coming, x);
      if x in ps[i].coming {
        SameReply(stage, c, Answered(q, w), i, x);
      } else {
        assert i == c.p && x == Reply(c.r, w);
        NewReply(stage', c, q, w);
      }
    }
  }

  lemma AskedOnce(ps: seq<Process>, names: seq<CString>, stage: map<Call, Stage>, c: Call, q: nat)
    requires NetOk(ps, names, stage) && c in stage && stage[c] == Asked(q)
    ensures c.p < |ps| && q < |ps| && 0 <= c.r && Count(ps[q].coming, Request(c.r, names[c.p])) == 1
  {
    assert CallOk(ps, names, c, stage[c]);
  }

  lemma NewReply(stage: map<Call, Stage>, c: Call, q: nat, w: nat)
    requires c in stage && stage[c] == Answered(q, w)
    ensures IsReply(stage, c.p, Reply(c.r, w))
  {
  }

  lemma AnswerKeeps(ps: seq<Process>, names: seq<CString>, stage: map<Call, Stage>, q: nat)
    returns (stage': map<Call, Stage>)
    requires Names(names) && NetOk(ps, names, stage) && AnswerStep(ps, names, q).Some?
    ensures NetOk(AnswerStep(ps, names, q).value, names, stage')
  {
    hide Names, CallOk, ProcOk, Answers;
    var ps' := AnswerStep(ps, names, q).value;
    var c := AnswerIs(ps, names, stage, q);
    stage' := stage[c := Answered(q, ps[q].nextId)];
    forall d | d in stage' ensures CallOk(ps', names, d, stage'[d]) {
      AnswerCall(ps, names, stage, q, c, ps', d);
    }
    forall i | 0 <= i < |ps| ensures ProcOk(ps', names, stage', i) {
      AnswerProc(ps, names, stage, q, c, ps', i);
    }
  }

  // ----- the end of a connect call -----

  /** The packet that a call takes for its reply is the reply of the process it called. */
  lemma FinishIs(ps: seq<Process>, names: seq<CString>, stage: map<Call, Stage>, p: nat, r: int)
    requires NetOk(ps, names, stage) && FinishStep(ps, p, r).Some?
    ensures var (c, k) := (Call(p, r), FirstMatch(ps[p].coming, Accept, r));
            && c in stage && stage[c].Answered? && 0 <= stage[c].w && ps[p].coming[k] == Reply(r, stage[c].w)
            && ps[p].calls[r] == stage[c].q && IdOf(ps[p].coming[k]) == stage[c].w
            && Count(ps[p].coming, Reply(r, stage[c].w)) == 1
  {
    hide Count, Reply, Pow256, IdOf;
    var c, x := Call(p, r), ps[p].coming[FirstMatch(ps[p].coming, Accept, r)];
    assert ProcOk(ps, names, stage, p);
    assert IsReply(stage, p, x);
    assert CallOk(ps, names, c, stage[c]);
    assert ProcOk(ps, names, stage, stage[c].q);
    ReplyRead(r, stage[c].w);
  }

  lemma FinishCall(ps: seq<Process>, names: seq<CString>, stage: map<Call, Stage>, p: nat, r: int, d: Call)
    requires NetOk(ps, names, stage) && FinishStep(ps, p, r).Some? && d in stage
    requires Call(p, r) in stage && stage[Call(p, r)].Answered?
    ensures CallOk(FinishStep(ps, p, r).value, names, d,
                   if d == Call(p, r) then Done(stage[d].q, stage[d].w) else stage[d])
  {
    hide Count, Request, Reply, IsRequest, IsReply, Pow256, FirstMatch, ProcOk, Without, IdOf;
    FinishIs(ps, names, stage, p, r);
    var c := Call(p, r);
    var k := FirstMatch(ps[p].coming, Accept, r);
    assert CallOk(ps, names, c, stage[c]) && CallOk(ps, names, d, stage[d]);
    RequestKind(d.r, names[d.p]);
    ReplyKind(r, stage[c].w);
    CountWithout(ps[p].coming, k, Request(d.r, names[d.p]));
    if !stage[d].Asked? {
      ReplyKind(d.r, stage[d].w);
      CountWithout(ps[p].coming, k, Reply(d.r, stage[d].w));
    }
  }

  lemma FinishProc(ps: seq<Process>, names: seq<CString>, stage: map<Call, Stage>, p: nat, r: int, i: nat)
    requires NetOk(ps, names, stage) && FinishStep(ps, p, r).Some? && i < |ps|
    requires Call(p, r) in stage && stage[Call(p, r)].Answered?
    ensures var c := Call(p, r);
            ProcOk(FinishStep(ps, p, r).value, names, stage[c := Done(stage[c].q, stage[c].w)], i)
  {
    hide Count, Request, Reply, Pow256, FirstMatch, CallOk, Without, IdOf;
    FinishIs(ps, names, stage, p, r);
    var c, ps' := Call(p, r), FinishStep(ps, p, r).value;
    var k, stage' := FirstMatch(ps[p].coming, Accept, r), stage[c := Done(stage[c].q, stage[c].w)];
    assert ProcOk(ps, names, stage, i);
    forall x | x in ps'[i].coming && x.kind != Message
      ensures x in ps[i].coming && (i == p ==> x != Reply(r, stage[c].w))
    {
      CountIn(ps'[i].coming, x);
      CountIn(ps[i].coming, x);
      CountWithout(ps[p].coming, k, x);
    }
    forall x | x in ps'[i].coming && x.kind == Connect ensures IsRequest(names, stage', i, x) {
      var d :| d in stage && stage[d] == Asked(i) && d.p < |names| && 0 <= d.r && x == Request(d.r, names[d.p]);
      assert d in stage' && stage'[d] == Asked(i);
    }
  }

  lemma FinishKeeps(ps: seq<Process>, names: seq<CString>, stage: map<Call, Stage>, p: nat, r: int)
    returns (stage': map<Call, Stage>)
    requires NetOk(ps, names, stage) && FinishStep(ps, p, r).Some?
    ensures NetOk(FinishStep(ps, p, r).value, names, stage')
  {
    hide CallOk, ProcOk;
    var ps', c := FinishStep(ps, p, r).value, Call(p, r);
    FinishIs(ps, names, stage, p, r);
    stage' := stage[c := Done(stage[c].q, stage[c].w)];
    forall d | d in stage' ensures CallOk(ps', names, d, stage'[d]) {
      FinishCall(ps, names, stage, p, r, d);
    }
    forall i | 0 <= i < |ps| ensures ProcOk(ps', names, stage', i) {
      FinishProc(ps, names, stage, p, r, i);
    }
  }

  // ----- whole runs -----

  lemma StepKeeps(ps: seq<Process>, names: seq<CString>, stage: map<Call, Stage>, step: Step)
    returns (stage': map<Call, Stage>)
    requires Names(names) && NetOk(ps, names, stage) && Next(ps, names, step).Some?
    ensures NetOk(Next(ps, names, step).value, names, stage')
  {
    hide NetOk, Names, DialStep, AnswerStep, FinishStep, Count, Without;
    match step
    case Dial(p, q) =>
      Sizes(ps, names, stage, step);
      stage' := stage[Call(p, ps[p].nextId) := Asked(q)];
      DialKeeps(ps, names, stage, p, q);
    case Answer(q) => stage' := AnswerKeeps(ps, names, stage, q);
    case Finish(p, r) => stage' := FinishKeeps(ps, names, stage, p, r);
    case Arrive(p, packet) =>
      stage' := stage;
      forall x: Packet | x.kind != Message ensures Count(ps[p].coming + [packet], x) == Count(ps[p].coming, x) {
        CountAppend(ps[p].coming, packet, x);
      }
      MessageKeeps(ps, names, stage, p, ps[p].coming + [packet]);
    case Read(p, id) =>
      stage' := stage;
      var k := FirstMatch(ps[p].coming, Message, id);
      forall x: Packet | x.kind != Message ensures Count(Without(ps[p].coming, k), x) == Count(ps[p].coming, x) {
        CountWithout(ps[p].coming, k, x);
      }
      MessageKeeps(ps, names, stage, p, Without(ps[p].coming, k));
  }

  lemma Sizes(ps: seq<Process>, names: seq<CString>, stage: map<Call, Stage>, step: Step)
    requires NetOk(ps, names, stage) && Next(ps, names, step).Some?
    ensures step.Dial? ==> step.p < |ps|
  {
  }

  lemma {:induction false} StepsKeep(
    ps: seq<Process>, names: seq<CString>, stage: map<Call, Stage>, steps: seq<Step>)
    returns (stage': map<Call, Stage>)
    requires Names(names) && NetOk(ps, names, stage) && Steps(ps, names, steps).Some?
    ensures NetOk(Steps(ps, names, steps).value, names, stage')
    decreases |steps|
  {
    hide NetOk, Names, Next;
    stage' := stage;
    if steps != [] {
      var now := StepKeeps(ps, names, stage, steps[0]);
      stage' := StepsKeep(Next(ps, names, steps[0]).value, names, now, steps[1..]);
    }
  }

  /** Every channel that a process connected is a channel that its peer accepted, and each end writes
      with the id that the other reads with. */
  ghost predicate ConnectedMeetAccepted(ps: seq<Process>) {
    forall p, r :: 0 <= p < |ps| && r in ps[p].dialed ==>
      var (q, w) := (ps[p].dialed[r].proc, ps[p].dialed[r].writeid);
      q < |ps| && w in ps[q].accepted && ps[q].accepted[w] == Peer(p, r)
  }

  /** Every channel that a process accepted is one that its peer connected, in the same way; or the
      peer still waits, and the reply with that id is there for it. */
  ghost predicate AcceptedMeetConnected(ps: seq<Process>) {
    forall q, w :: 0 <= q < |ps| && w in ps[q].accepted ==>
      var (p, r) := (ps[q].accepted[w].proc, ps[q].accepted[w].writeid);
      && p < |ps| && w >= 0
      && ((r in ps[p].dialed && ps[p].dialed[r] == Peer(q, w))
          || (r in ps[p].calls && ps[p].calls[r] == q && Reply(r, w) in ps[p].coming))
  }

  /** No process uses an id for two channels, and no two accepted channels have the same peer and id. */
  ghost predicate IdsDiffer(ps: seq<Process>) {
    forall p :: 0 <= p < |ps| ==>
      && (forall r :: r in ps[p].dialed ==> r !in ps[p].calls && r !in ps[p].accepted)
      && (forall w :: w in ps[p].accepted ==> w !in ps[p].calls)
      && forall v, w :: v in ps[p].accepted && w in ps[p].accepted && ps[p].accepted[v] == ps[p].accepted[w] ==> v == w
  }

  /** A call that waits can get on: its reply is there, or the process that it called has a request
      to accept, unless that has given out all of the 2^64 ids. */
  ghost predicate CallsGetOn(ps: seq<Process>, names: seq<CString>) {
    forall p, r :: 0 <= p < |ps| && r in ps[p].calls ==>
      var q := ps[p].calls[r];
      q < |ps| && (ps[q].nextId < Pow256(8) ==> FinishStep(ps, p, r).Some? || AnswerStep(ps, names, q).Some?)
  }

  lemma DialedIsDone(ps: seq<Process>, names: seq<CString>, stage: map<Call, Stage>, p: nat, r: int)
    requires NetOk(ps, names, stage) && p < |ps| && r in ps[p].dialed
    ensures var (q, w) := (ps[p].dialed[r].proc, ps[p].dialed[r].writeid);
            q < |ps| && w in ps[q].accepted && ps[q].accepted[w] == Peer(p, r)
    ensures r !in ps[p].calls && r !in ps[p].accepted
  {
    hide Count, Request, Reply, IsRequest, IsReply, Pow256;
    assert ProcOk(ps, names, stage, p);
    assert CallOk(ps, names, Call(p, r), stage[Call(p, r)]);
  }

  lemma AcceptedIsAnswered(ps: seq<Process>, names: seq<CString>, stage: map<Call, Stage>, q: nat, w: int)
    requires NetOk(ps, names, stage) && q < |ps| && w in ps[q].accepted
    ensures var (p, r) := (ps[q].accepted[w].proc, ps[q].accepted[w].writeid);
            && p < |ps| && w >= 0
            && ((r in ps[p].dialed && ps[p].dialed[r] == Peer(q, w))
                || (r in ps[p].calls && ps[p].calls[r] == q && Reply(r, w) in ps[p].coming))
    ensures w !in ps[q].calls
    ensures forall v :: v in ps[q].accepted && ps[q].accepted[v] == ps[q].accepted[w] ==> v == w
  {
    hide Count, Request, Reply, IsRequest, IsReply, Pow256;
    assert ProcOk(ps, names, stage, q);
    var c := Call(ps[q].accepted[w].proc, ps[q].accepted[w].writeid);
    assert CallOk(ps, names, c, stage[c]);
    CountIn(ps[c.p].coming, Reply(c.r, w));
    assert w in ps[q].calls ==> CallOk(ps, names, Call(q, w), stage[Call(q, w)]);
  }

  lemma Pairing(ps: seq<Process>, names: seq<CString>, stage: map<Call, Stage>)
    requires NetOk(ps, names, stage)
    ensures ConnectedMeetAccepted(ps) && AcceptedMeetConnected(ps) && IdsDiffer(ps)
  {
    hide NetOk;
    forall p, r | 0 <= p < |ps| && r in ps[p].dialed
      ensures var (q, w) := (ps[p].dialed[r].proc, ps[p].dialed[r].writeid);
              q < |ps| && w in ps[q].accepted && ps[q].accepted[w] == Peer(p, r)
      ensures r !in ps[p].calls && r !in ps[p].accepted
    {
      DialedIsDone(ps, names, stage, p, r);
    }
    forall q, w | 0 <= q < |ps| && w in ps[q].accepted
      ensures var (p, r) := (ps[q].accepted[w].proc, ps[q].accepted[w].writeid);
              && p < |ps| && w >= 0
              && ((r in ps[p].dialed && ps[p].dialed[r] == Peer(q, w))
                  || (r in ps[p].calls && ps[p].calls[r] == q && Reply(r, w) in ps[p].coming))
      ensures w !in ps[q].calls
      ensures forall v :: v in ps[q].accepted && ps[q].accepted[v] == ps[q].accepted[w] ==> v == w
    {
      AcceptedIsAnswered(ps, names, stage, q, w);
    }
  }

  lemma CallGetsOn(ps: seq<Process>, names: seq<CString>, stage: map<Call, Stage>, p: nat, r: int)
    requires Names(names) && NetOk(ps, names, stage) && p < |ps| && r in ps[p].calls
    ensures var q := ps[p].calls[r];
            q < |ps| && (ps[q].nextId < Pow256(8) ==> FinishStep(ps, p, r).Some? || AnswerStep(ps, names, q).Some?)
  {
    hide Count, Request, Reply, IsReply, Pow256, IdOf, NameOf, NulFree, Without, StrEnd;
    assert ProcOk(ps, names, stage, p);
    var c, q := Call(p, r), ps[p].calls[r];
    assert CallOk(ps, names, c, stage[c]);
    assert ProcOk(ps, names, stage, q);
    if stage[c].Asked? {
      RequestKind(r, names[p]);
      CountIn(ps[q].coming, Request(r, names[p]));
      var k := FirstMatch(ps[q].coming, Connect, -1);
      assert k < |ps[q].coming|;
      var x := ps[q].coming[k];
      assert IsRequest(names, stage, q, x);
      var d :| d in stage && stage[d] == Asked(q) && d.p < |names| && 0 <= d.r && x == Request(d.r, names[d.p]);
      IdInRange(ps, names, stage, d);
      RequestRead(d.r, names[d.p]);
      assert WhoIs(names, names[d.p]) <= d.p;
    } else {
      ReplyKind(r, stage[c].w);
      CountIn(ps[p].coming, Reply(r, stage[c].w));
      ReplyLength(ps, names, stage, p, r);
    }
  }

  lemma ReplyLength(ps: seq<Process>, names: seq<CString>, stage: map<Call, Stage>, p: nat, r: int)
    requires NetOk(ps, names, stage) && p < |ps|
    ensures var k := FirstMatch(ps[p].coming, Accept, r); k < |ps[p].coming| ==> 8 <= |ps[p].coming[k].data|
  {
    assert ProcOk(ps, names, stage, p);
    var k := FirstMatch(ps[p].coming, Accept, r);
    if k < |ps[p].coming| {
      assert IsReply(stage, p, ps[p].coming[k]);
    }
  }

  lemma GettingOn(ps: seq<Process>, names: seq<CString>, stage: map<Call, Stage>)
    requires Names(names) && NetOk(ps, names, stage)
    ensures CallsGetOn(ps, names)
  {
    hide NetOk, Names, FinishStep, AnswerStep;
    forall p, r | 0 <= p < |ps| && r in ps[p].calls
      ensures var q := ps[p].calls[r];
              q < |ps| && (ps[q].nextId < Pow256(8) ==> FinishStep(ps, p, r).Some? || AnswerStep(ps, names, q).Some?)
    {
      CallGetsOn(ps, names, stage, p, r);
    }
  }

  /** Whatever the processes do and in whatever order: the ends of every channel match, and no call
      is lost. */
  lemma ChannelsPairUp(names: seq<CString>, steps: seq<Step>)
    requires Names(names) && Steps(Start(|names|), names, steps).Some?
    ensures var ps := Steps(Start(|names|), names, steps).value;
            ConnectedMeetAccepted(ps) && AcceptedMeetConnected(ps) && IdsDiffer(ps) && CallsGetOn(ps, names)
  {
    hide Steps;
    assert NetOk(Start(|names|), names, map[]);
    var stage := StepsKeep(Start(|names|), names, map[], steps);
    var ps := Steps(Start(|names|), names, steps).value;
    hide *;
    Pairing(ps, names, stage);
    GettingOn(ps, names, stage);
  }
}
