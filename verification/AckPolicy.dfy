/** When acknowledgements are sent.

  An end counts the data frames that it hears and sends an explicit acknowledgement before more
  than 100 have gone unanswered; and it remembers whether it owes an acknowledgement, so that a
  check that sends one only if it is due leaves nothing that was received unacknowledged. */
module AckPolicy {
  import opened Confluence
  import opened Seqnum
  import opened Transport
  import opened Reliable

  // ----- the count -----

  /** The data frames, not counting ACCEPT packets, that an end hears by one move. */
  ghost function CountedBy(p: End, e: Event): nat {
    if e.Hear? && e.i < |p.vc.out| && p.vc.out[e.i].DataFrame? && !p.vc.out[e.i].data.accept then 1 else 0
  }

  /** ... and by a whole run: the first end, or the second. */
  ghost function Counted(x: End, y: End, run: seq<Action>, first: bool): nat
    decreases |run|
  {
    if run == [] then 0
    else
      match run[0]
      case First(e) =>
        var m := Move(x, y, e, LIMITS);
        if m.None? then 0 else (if first then CountedBy(y, e) else 0) + Counted(m.value, y, run[1..], first)
      case Second(e) =>
        var m := Move(y, x, e, LIMITS);
        if m.None? then 0 else (if first then 0 else CountedBy(x, e)) + Counted(x, m.value, run[1..], first)
  }

  /** Hearing a frame is processing the frame with those numbers. */
  lemma HearVc(s: End, c: Copy, f: Frame)
    requires c.a >= -1 && (c.DataCopy? <==> f.DataFrame?)
    ensures AfterHear(s, c, f).vc ==
              ProcessRecv(s.vc, if c.DataCopy? then DataFrame(Bits(c.u), Bits(c.a), f.data) else AckFrame(Bits(c.a)))
  {
    hide ProcessAck, PlaceRecv, CountRecv, DrainNumbers, InsertNumber;
  }

  lemma PendingBounded(s: End, p: End, e: Event, bd: Bounds)
    requires s.vc.ackPending <= MAX_ACK_PENDING && Move(s, p, e, bd).Some?
    ensures Move(s, p, e, bd).value.vc.ackPending <= MAX_ACK_PENDING
  {
    hide ProcessRecv, ProcessAck, AfterHear;
    if e.Hear? {
      var c, f := p.sent[e.i], p.vc.out[e.i];
      HearVc(s, c, f);
      var g := if c.DataCopy? then DataFrame(Bits(c.u), Bits(c.a), f.data) else AckFrame(Bits(c.a));
      FrameCounts(s.vc, g);
      AckCounts(s.vc, g.acknum);
    }
  }

  lemma {:induction false} PendingBoundedOn(x: End, y: End, run: seq<Action>, bd: Bounds)
    requires x.vc.ackPending <= MAX_ACK_PENDING && y.vc.ackPending <= MAX_ACK_PENDING && Run(x, y, run, bd).Some?
    ensures var (u, v) := Run(x, y, run, bd).value;
            u.vc.ackPending <= MAX_ACK_PENDING && v.vc.ackPending <= MAX_ACK_PENDING
    decreases |run|
  {
    hide Move;
    if run != [] {
      match run[0]
      case First(e) =>
        PendingBounded(x, y, e, bd);
        PendingBoundedOn(Move(x, y, e, bd).value, y, run[1..], bd);
      case Second(e) =>
        PendingBounded(y, x, e, bd);
        PendingBoundedOn(x, Move(y, x, e, bd).value, run[1..], bd);
    }
  }

  /** In every reachable state, whatever the network does, at most 100 data frames are unanswered. */
  lemma AtMostHundredPending(request: Data, run: seq<Action>, bd: Bounds)
    requires Run(Connector(request), Acceptor(), run, bd).Some?
    ensures var (x, y) := Run(Connector(request), Acceptor(), run, bd).value;
            x.vc.ackPending <= MAX_ACK_PENDING && y.vc.ackPending <= MAX_ACK_PENDING
  {
    PendingBoundedOn(Connector(request), Acceptor(), run, bd);
  }

  // ----- an explicit acknowledgement in time -----

  ghost predicate NoAckSince(before: seq<Frame>, after: seq<Frame>) {
    forall j :: |before| <= j < |after| ==> !after[j].AckFrame?
  }

  /** Unless an end has sent a new packet or an explicit acknowledgement, it has counted `n` more. */
  ghost predicate Counts(s: End, t: End, n: nat) {
    && s.high <= t.high && s.vc.out <= t.vc.out
    && (t.high == s.high && NoAckSince(s.vc.out, t.vc.out) ==> t.vc.ackPending == s.vc.ackPending + n)
  }

  lemma CountsAdd(s: End, t: End, u: End, m: nat, n: nat)
    requires Counts(s, t, m) && Counts(t, u, n)
    ensures Counts(s, u, m + n)
  {
    if u.high == s.high && NoAckSince(s.vc.out, u.vc.out) {
      forall j | |s.vc.out| <= j < |t.vc.out| ensures !t.vc.out[j].AckFrame? {
        assert t.vc.out[j] == u.vc.out[j];
      }
    }
  }

  /** What hearing an acknowledgement does to what is owed: nothing, unless it lets new packets out. */
  lemma AckEffect(s: End, p: End, a: int)
    requires ConnOk(s, p) && -1 <= a <= p.acked && s.low - a < STALE_ACK
    ensures var t := AfterAck(s, a);
            && t.acked == s.acked && t.got == s.got && t.base == s.base && s.high <= t.high && s.vc.out <= t.vc.out
            && (t.high == s.high ==>
                  && t.vc.ackPending == s.vc.ackPending && t.vc.ackNeeded == s.vc.ackNeeded
                  && t.vc.out == s.vc.out && t.sent == s.sent)
            && (t.high > s.high ==> t.sent != [] && t.sent[|t.sent| - 1] == DataCopy(t.high - 1, s.acked))
  {
    hide FlushExt, DropAcked, Describes, EarlyShape, Bits;
    var low := if a + 1 > s.low then a + 1 else s.low;
    var vc1 := DropAcked(s.vc, Bits(a));
    DropRemovesCovered(s.vc, s.posted, s.low, s.high, a);
    assert WindowShape(vc1, s.posted, low, s.high);
    var high := FlushShape(vc1, s.posted, low, s.high);
    DropKeepsCount(s.vc, Bits(a));
    FlushCounts(vc1);
    var t := AfterAck(s, a);
    assert t.vc == FlushExt(vc1) && t.high == high;
    assert t.sent == s.sent + Copies(s.high, high, s.acked);
  }

  lemma DataCountsTo(s: End, u: nat, data: Data)
    ensures Counts(s, AfterPlace(if data.accept then s else AfterCount(s), u, data), if data.accept then 0 else 1)
  {
    hide PlaceRecv, DrainNumbers, InsertNumber;
    var w := if data.accept then s else AfterCount(s);
    PlaceKeepsCount(w.vc, Pkt(Bits(u), data));
    if !data.accept && s.vc.ackPending >= MAX_ACK_PENDING {
      assert w.vc.out[|s.vc.out|].AckFrame?;
    }
  }

  lemma MoveCounts(s: End, p: End, e: Event)
    requires ConnOk(s, p) && Move(s, p, e, LIMITS).Some?
    ensures Counts(s, Move(s, p, e, LIMITS).value, CountedBy(p, e))
  {
    match e
    case Post(_) =>
    case Ack =>
      assert Move(s, p, e, LIMITS).value.vc.out[|s.vc.out|].AckFrame?;
    case Again(_) =>
    case Hear(i) =>
      HearCounts(s, p, i);
  }

  lemma HearCounts(s: End, p: End, i: nat)
    requires ConnOk(s, p) && Move(s, p, Hear(i), LIMITS).Some?
    ensures Counts(s, Move(s, p, Hear(i), LIMITS).value, CountedBy(p, Hear(i)))
  {
    var c, f := p.sent[i], p.vc.out[i];
    assert Describes(c, f, p.posted, p.high, p.acked);
    hide ConnOk, AfterAck, AfterPlace, AfterCount;
    AckEffect(s, p, c.a);
    assert Counts(s, AfterAck(s, c.a), 0);
    if c.DataCopy? {
      var w := AfterAck(s, c.a);
      DataCountsTo(w, c.u, f.data);
      CountsAdd(s, w, Move(s, p, Hear(i), LIMITS).value, 0, CountedBy(p, Hear(i)));
    }
  }

  lemma {:induction false} RunCounts(x: End, y: End, run: seq<Action>)
    requires ConnOk(x, y) && Run(x, y, run, LIMITS).Some?
    ensures var (u, v) := Run(x, y, run, LIMITS).value;
            Counts(x, u, Counted(x, y, run, true)) && Counts(y, v, Counted(x, y, run, false))
    decreases |run|
  {
    hide ConnOk, Move, Counts, CountedBy;
    if run == [] {
      NothingCounted(x);
      NothingCounted(y);
    } else {
      var (u, v) := Run(x, y, run, LIMITS).value;
      match run[0]
      case First(e) =>
        var x' := Move(x, y, e, LIMITS).value;
        MoveKeeps(x, y, e);
        MoveCounts(x, y, e);
        RunCounts(x', y, run[1..]);
        CountsAdd(x, x', u, CountedBy(y, e), Counted(x', y, run[1..], true));
      case Second(e) =>
        var y' := Move(y, x, e, LIMITS).value;
        SwapOk(x, y);
        MoveKeeps(y, x, e);
        SwapOk(x, y');
        MoveCounts(y, x, e);
        RunCounts(x, y', run[1..]);
        CountsAdd(y, y', v, CountedBy(x, e), Counted(x, y', run[1..], false));
    }
  }

  lemma NothingCounted(s: End)
    ensures Counts(s, s, 0)
  {
  }

  /** From any reachable state on: an end that hears more than 100 data frames and transmits no new
      packet meanwhile has sent an explicit acknowledgement meanwhile. */
  lemma AcksInTime(request: Data, before: seq<Action>, run: seq<Action>)
    requires Run(Connector(request), Acceptor(), before, LIMITS).Some?
    requires var (x, y) := Run(Connector(request), Acceptor(), before, LIMITS).value; Run(x, y, run, LIMITS).Some?
    ensures var (x, y) := Run(Connector(request), Acceptor(), before, LIMITS).value;
            var (u, v) := Run(x, y, run, LIMITS).value;
            && (Counted(x, y, run, true) > MAX_ACK_PENDING && u.high == x.high ==>
                  exists j :: |x.vc.out| <= j < |u.vc.out| && u.vc.out[j].AckFrame?)
            && (Counted(x, y, run, false) > MAX_ACK_PENDING && v.high == y.high ==>
                  exists j :: |y.vc.out| <= j < |v.vc.out| && v.vc.out[j].AckFrame?)
  {
    hide Run, Counted, ConnOk;
    ReliableDelivery(request, before);
    var (x, y) := Run(Connector(request), Acceptor(), before, LIMITS).value;
    RunCounts(x, y, run);
    AtMostHundredPending(request, before, LIMITS);
    PendingBoundedOn(x, y, run, LIMITS);
  }

  // ----- nothing received stays unacknowledged -----

  /** An end that owes no acknowledgement has received nothing, or its last frame acknowledges
      everything received; all that was received in order may be acknowledged; and if the last frame
      carries a packet, that is no older than a window. */
  ghost predicate Owes(s: End) {
    && (s.acked == s.got - 1 || (s.acked == -1 && s.got == s.base))
    && (s.sent != [] && s.sent[|s.sent| - 1].DataCopy? ==> s.high - s.sent[|s.sent| - 1].u <= SENDWIN_SIZE + 1)
    && (!s.vc.ackNeeded ==>
          (s.sent == [] && s.acked == -1) || (s.sent != [] && s.sent[|s.sent| - 1].a == s.acked))
  }

  lemma DataOwes(s: End, p: End, u: nat)
    requires ConnOk(s, p) && Owes(s) && u < p.high && s.got - u < STALE_DATA
    ensures Owes(AfterPlace(if p.posted[u].accept then s else AfterCount(s), u, p.posted[u]))
  {
    hide PlaceRecv, DrainNumbers, InsertNumber, Describes, EarlyShape, WindowShape;
    var w := if p.posted[u].accept then s else AfterCount(s);
    PlaceKeepsCount(w.vc, Pkt(Bits(u), p.posted[u]));
  }

  lemma MoveOwes(s: End, p: End, e: Event)
    requires ConnOk(s, p) && Owes(s) && Move(s, p, e, LIMITS).Some?
    ensures Owes(Move(s, p, e, LIMITS).value)
  {
    match e
    case Post(_) =>
    case Ack =>
    case Again(_) =>
    case Hear(i) =>
      var c, f := p.sent[i], p.vc.out[i];
      assert Describes(c, f, p.posted, p.high, p.acked);
      hide ConnOk, AfterAck, AfterPlace, AfterCount;
      AckEffect(s, p, c.a);
      assert Owes(AfterAck(s, c.a));
      if c.DataCopy? {
        HearAckKeeps(s, p, c.a);
        DataOwes(AfterAck(s, c.a), p, c.u);
      }
  }

  lemma {:induction false} RunOwes(x: End, y: End, run: seq<Action>)
    requires ConnOk(x, y) && Owes(x) && Owes(y) && Run(x, y, run, LIMITS).Some?
    ensures var (u, v) := Run(x, y, run, LIMITS).value; Owes(u) && Owes(v)
    decreases |run|
  {
    hide ConnOk, Move, Owes;
    if run != [] {
      match run[0]
      case First(e) =>
        MoveKeeps(x, y, e);
        MoveOwes(x, y, e);
        RunOwes(Move(x, y, e, LIMITS).value, y, run[1..]);
      case Second(e) =>
        SwapOk(x, y);
        MoveKeeps(y, x, e);
        SwapOk(x, Move(y, x, e, LIMITS).value);
        MoveOwes(y, x, e);
        RunOwes(x, Move(y, x, e, LIMITS).value, run[1..]);
    }
  }

  /** The check that sends an acknowledgement if one is due. */
  ghost function Checked(s: End, p: End): End {
    if s.vc.ackNeeded then Move(s, p, Ack, LIMITS).value else s
  }

  /** After the check the last frame of `s`, if there is one, empties the window of `p` of everything
      that `s` has received: `p` may hear it, and is then left with what `s` has not got. */
  ghost predicate CheckClears(s: End, p: End) {
    var t := Checked(s, p);
    && (t.sent == [] ==> s.got == s.base)
    && (t.sent != [] ==>
          var m := Move(p, t, Hear(|t.sent| - 1), LIMITS);
          && m.Some? && m.value.low == s.acked + 1
          && (s.got > s.base ==> m.value.low == s.got)
          && (s.got > s.base && s.got == |p.posted| ==> m.value.vc.sendWindow == [] && m.value.vc.extWindow == []))
  }

  /** In every reachable state a check at either end leads to that. */
  lemma CheckAcknowledges(request: Data, run: seq<Action>)
    requires Run(Connector(request), Acceptor(), run, LIMITS).Some?
    ensures var (x, y) := Run(Connector(request), Acceptor(), run, LIMITS).value;
            CheckClears(x, y) && CheckClears(y, x)
  {
    NextBits(0);
    assert ConnOk(Connector(request), Acceptor());
    assert Owes(Connector(request)) && Owes(Acceptor());
    hide Run, ConnOk, Owes, CheckClears;
    RunOwes(Connector(request), Acceptor(), run);
    ReliableDelivery(request, run);
    var (x, y) := Run(Connector(request), Acceptor(), run, LIMITS).value;
    LastFrameClears(x, y);
    SwapOk(x, y);
    LastFrameClears(y, x);
  }

  lemma LastFrameClears(s: End, p: End)
    requires ConnOk(s, p) && Owes(s)
    ensures CheckClears(s, p)
  {
    hide ConnOk, Move, SendOk;
    LastFrameHeard(s, p);
    var t := Checked(s, p);
    if t.sent != [] {
      var i := |t.sent| - 1;
      var m := Move(p, t, Hear(i), LIMITS).value;
      SwapOk(t, p);
      MoveKeeps(p, t, Hear(i));
      OpenOk(m, t);
      if m.low >= |m.posted| {
        NothingOpen(m);
      }
    }
  }

  /** The peer may hear the last frame, which acknowledges everything. */
  lemma LastFrameHeard(s: End, p: End)
    requires ConnOk(s, p) && Owes(s)
    ensures var t := Checked(s, p);
            && ConnOk(t, p) && (t.sent == [] ==> s.got == s.base)
            && (t.sent != [] ==>
                  var m := Move(p, t, Hear(|t.sent| - 1), LIMITS);
                  m.Some? && m.value.low == s.acked + 1 && m.value.posted == p.posted)
  {
    hide WindowShape, EarlyShape, SendAck, AfterHear;
    var t := Checked(s, p);
    assert ConnOk(t, p) by { AckMoveKeeps(s, p); }
    assert t.acked == s.acked && t.got == s.got && t.high == s.high;
    if t.sent != [] {
      var i := |t.sent| - 1;
      assert Describes(t.sent[i], t.vc.out[i], t.posted, t.high, t.acked);
      assert t.sent[i].a == s.acked && p.got <= s.high && p.low <= s.acked + 1;
      assert Fresh(p, t.sent[i], LIMITS);
      HearLow(p, t.sent[i], t.vc.out[i]);
    }
  }

  lemma OpenOk(s: End, p: End)
    requires ConnOk(s, p)
    ensures SendOk(s)
  {
  }

  lemma HearLow(s: End, c: Copy, f: Frame)
    requires c.a >= -1 && (c.DataCopy? <==> f.DataFrame?) && s.low <= c.a + 1
    ensures AfterHear(s, c, f).low == c.a + 1 && AfterHear(s, c, f).posted == s.posted
  {
    hide ProcessAck, PlaceRecv, CountRecv, DrainNumbers, InsertNumber, Copies;
  }

  /** If everything posted is below the window, the window is empty and nothing waits. */
  lemma NothingOpen(s: End)
    requires SendOk(s) && s.low >= |s.posted|
    ensures s.vc.sendWindow == [] && s.vc.extWindow == []
  {
  }
}
