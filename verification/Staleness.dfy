/** How old a frame may be.

  Sequence numbers have 16 bits, so delivery is right only if the network does not deliver frames
  that are too old.  Runs are built here that go wrong one step beyond the bounds of the delivery
  theorem, so those bounds are exact. */
module Staleness {
  import opened Confluence
  import opened Seqnum
  import opened Transport
  import opened Reliable

  /** All packets of the runs built here carry the same. */
  const D := Data(false, [])

  function Same(n: nat): (s: seq<Data>)
    ensures |s| == n && forall i :: 0 <= i < n ==> s[i] == D
  {
    seq(n, i => D)
  }

  lemma SameAppend(n: nat)
    ensures Same(n) + [D] == Same(n + 1)
  {
  }

  /** The sender has sent packets 0 to `n`, and all are acknowledged. */
  ghost predicate AllAcked(x: End, n: nat) {
    && x.vc.sendWindow == [] && x.vc.extWindow == [] && x.vc.nextToSend == Bits(n + 1)
    && x.posted == Same(n + 1) && x.low == x.high == n + 1 && x.got == 0 && x.acked == -1 && x.vc.nextToAck == Bits(-1)
    && x.vc.appWindow == [] && 1 < |x.sent| == |x.vc.out|
    && x.sent[1] == DataCopy(1, -1) && x.vc.out[1] == DataFrame(1, Bits(-1), D)
  }

  /** The receiver has packets 1 to `n`, has acknowledged them, and `early` waits in its list. */
  ghost predicate AllReceived(y: End, n: nat, early: seq<Pkt>) {
    && y.vc.sendWindow == [] && y.vc.extWindow == [] && y.posted == [] && y.low == y.high == 0
    && y.vc.nextToRecv == Bits(n + 1) && y.vc.nextToAck == Bits(n) && y.got == n + 1 && y.acked == n && y.early == []
    && y.vc.appWindow == Same(n) && y.vc.recvWindow == early && 0 < |y.sent| == |y.vc.out|
    && y.sent[0] == AckCopy(1) && y.vc.out[0] == AckFrame(1)
  }

  /** The bounds let the network deliver the next packet and the next acknowledgement. */
  predicate Working(bd: Bounds) { bd.data >= 1 && bd.ack >= 2 }

  // ----- one packet after the other -----

  lemma PostOne(x: End, n: nat)
    requires AllAcked(x, n)
    ensures var x' := AfterPost(x, D);
            && x'.vc.sendWindow == [Pkt(Bits(n + 1), D)] && x'.vc.extWindow == [] && x'.vc.nextToSend == Bits(n + 2)
            && x' == x.(vc := x'.vc, posted := Same(n + 2), high := n + 2, sent := x.sent + [DataCopy(n + 1, -1)])
            && x'.vc.out == x.vc.out + [DataFrame(Bits(n + 1), Bits(-1), D)]
            && x'.vc.appWindow == [] && x'.vc.nextToAck == Bits(-1)
  {
    NextBits(n + 1);
    SameAppend(n + 1);
  }

  /** The receiver hears the packet that is due; nothing that waits becomes due. */
  lemma HearOne(y: End, n: nat, early: seq<Pkt>, f: Frame)
    requires AllReceived(y, n, early) && f == DataFrame(Bits(n + 1), Bits(-1), D)
    requires early == [] || early[0].seqnum != Bits(n + 2)
    ensures var y' := AfterHear(y, DataCopy(n + 1, -1), f);
            AllReceived(y', n + 1, early)
  {
    var w := AfterAck(y, -1);
    assert w.vc == y.vc && w.low == 0 && w.high == 0;
    var c := AfterCount(w);
    assert AllReceived(c, n, early);
    NextBits(n + 1);
    SameAppend(n);
    var vc := TakeNext(c.vc, D).(ackNeeded := true);
    assert Drain(vc) == vc;
    assert InclBetween(Bits(n + 1), Bits(n + 1), WindowEnd(Bits(n + 1)));
  }

  lemma AckOne(y: End, x: End, n: nat, early: seq<Pkt>, bd: Bounds)
    requires AllReceived(y, n, early)
    ensures var m := Move(y, x, Ack, bd);
            && m.Some? && AllReceived(m.value, n, early)
            && m.value.sent == y.sent + [AckCopy(n)] && m.value.vc.out == y.vc.out + [AckFrame(Bits(n))]
  {
  }

  /** The sender hears that its one unacknowledged packet has arrived. */
  lemma HearAckOne(x: End, n: nat)
    requires AllAcked(x, n)
    ensures AllAcked(AfterHear(AfterPost(x, D), AckCopy(n + 1), AckFrame(Bits(n + 1))), n + 1)
  {
    PostOne(x, n);
    var x' := AfterPost(x, D);
    hide AfterPost;
    AckTest(n + 1, n + 1, n + 2);
    hide InclBetween;
    assert DropAcked(x'.vc, Bits(n + 1)) == x'.vc.(sendWindow := []);
    assert Copies(n + 2, n + 2, -1) == [];
  }

  lemma RunFirst(x: End, y: End, e: Event, bd: Bounds)
    requires Move(x, y, e, bd).Some?
    ensures Run(x, y, [First(e)], bd) == Some((Move(x, y, e, bd).value, y))
  {
    hide Move;
    assert [First(e)][1..] == [];
  }

  lemma RunSecond(x: End, y: End, e: Event, bd: Bounds)
    requires Move(y, x, e, bd).Some?
    ensures Run(x, y, [Second(e)], bd) == Some((x, Move(y, x, e, bd).value))
  {
    hide Move;
    assert [Second(e)][1..] == [];
  }

  lemma HearIs(s: End, p: End, i: nat, bd: Bounds)
    requires i < |p.sent| == |p.vc.out| && p.sent[i].a >= -1 && (p.sent[i].DataCopy? <==> p.vc.out[i].DataFrame?)
    requires Fresh(s, p.sent[i], bd)
    ensures Move(s, p, Hear(i), bd) == Some(AfterHear(s, p.sent[i], p.vc.out[i]))
  {
    hide AfterHear;
  }

  /** The sender posts, and the receiver hears it. */
  lemma HalfRound(x: End, y: End, n: nat, early: seq<Pkt>, bd: Bounds) returns (run: seq<Action>, y': End)
    requires AllAcked(x, n) && AllReceived(y, n, early) && Working(bd)
    ensures Run(x, y, run, bd) == Some((AfterPost(x, D), y'))
    ensures y' == AfterHear(y, DataCopy(n + 1, -1), DataFrame(Bits(n + 1), Bits(-1), D))
  {
    var x' := AfterPost(x, D);
    PostOne(x, n);
    assert Move(x, y, Post(D), bd) == Some(x');
    RunFirst(x, y, Post(D), bd);
    var i := |x.sent|;
    hide AfterPost, AfterHear;
    assert Move(y, x', Hear(i), bd) == Some(AfterHear(y, x'.sent[i], x'.vc.out[i]));
    RunSecond(x', y, Hear(i), bd);
    y' := Move(y, x', Hear(i), bd).value;
    RunAppend(x, y, [First(Post(D))], [Second(Hear(i))], bd);
    run := [First(Post(D))] + [Second(Hear(i))];
  }

  /** One more packet is sent, received and acknowledged. */
  lemma Round(x: End, y: End, n: nat, early: seq<Pkt>, bd: Bounds) returns (run: seq<Action>, x': End, y': End)
    requires AllAcked(x, n) && AllReceived(y, n, early) && Working(bd)
    requires early == [] || early[0].seqnum != Bits(n + 2)
    ensures Run(x, y, run, bd) == Some((x', y')) && AllAcked(x', n + 1) && AllReceived(y', n + 1, early)
  {
    hide Run, Move, AfterPost, AfterHear;
    var run1, y1 := HalfRound(x, y, n, early, bd);
    HearOne(y, n, early, DataFrame(Bits(n + 1), Bits(-1), D));
    HearAckOne(x, n);
    PostOne(x, n);
    var x1 := AfterPost(x, D);
    AckOne(y1, x1, n + 1, early, bd);
    RunSecond(x1, y1, Ack, bd);
    y' := Move(y1, x1, Ack, bd).value;
    RunAppend(x, y, run1, [Second(Ack)], bd);
    var i := |y1.sent|;
    HearIs(x1, y', i, bd);
    x' := Move(x1, y', Hear(i), bd).value;
    RunFirst(x1, y', Hear(i), bd);
    RunAppend(x, y, run1 + [Second(Ack)], [First(Hear(i))], bd);
    run := run1 + [Second(Ack)] + [First(Hear(i))];
  }

  lemma {:induction false} Rounds(x: End, y: End, n: nat, m: nat, early: seq<Pkt>, bd: Bounds)
    returns (run: seq<Action>, x': End, y': End)
    requires AllAcked(x, n) && AllReceived(y, n, early) && Working(bd) && n <= m
    requires early == [] || forall k :: n + 2 <= k < m + 2 ==> early[0].seqnum != Bits(k)
    ensures Run(x, y, run, bd) == Some((x', y')) && AllAcked(x', m) && AllReceived(y', m, early)
    decreases m - n
  {
    if n == m {
      run, x', y' := [], x, y;
    } else {
      hide Run, AllAcked, AllReceived;
      var run1, x1, y1 := Round(x, y, n, early, bd);
      var run2;
      run2, x', y' := Rounds(x1, y1, n + 1, m, early, bd);
      RunAppend(x, y, run1, run2, bd);
      run := run1 + run2;
    }
  }

  // ----- the first packet -----

  lemma FirstHeard()
    ensures var y := AfterHear(Acceptor(), DataCopy(1, -1), DataFrame(1, Bits(-1), D));
            && y.vc.sendWindow == [] && y.vc.extWindow == [] && y.posted == [] && y.low == y.high == 0
            && y.vc.nextToRecv == 2 && y.vc.nextToAck == 1 && y.got == 2 && y.acked == 1 && y.early == []
            && y.vc.appWindow == [D] && y.vc.recvWindow == [] && y.sent == [] && y.vc.out == []
  {
    var y := Acceptor();
    var w := AfterAck(y, -1);
    assert w.vc == y.vc && w.low == 0 && w.high == 0 && w.sent == [];
    var vc := TakeNext(AfterCount(w).vc, D).(ackNeeded := true);
    assert Drain(vc) == vc;
  }

  lemma FirstPosted()
    ensures var x := AfterPost(Connector(D), D);
            && x.vc.sendWindow == [Pkt(0, D), Pkt(1, D)] && x.vc.extWindow == [] && x.vc.nextToSend == 2
            && x.posted == [D, D] && x.low == 0 && x.high == 2 && x.got == 0 && x.acked == -1
              && x.vc.nextToAck == Bits(-1)
            && x.vc.appWindow == [] && x.sent == [DataCopy(0, -1), DataCopy(1, -1)]
            && x.vc.out == [DataFrame(0, Bits(-1), D), DataFrame(1, Bits(-1), D)]
  {
  }

  lemma FirstAcked()
    ensures AllAcked(AfterHear(AfterPost(Connector(D), D), AckCopy(1), AckFrame(1)), 1)
  {
    FirstPosted();
    var x := AfterPost(Connector(D), D);
    hide AfterPost;
    var vc1 := x.vc.(sendWindow := x.vc.sendWindow[1..]);
    assert DropAcked(x.vc, 1) == DropAcked(vc1, 1) == x.vc.(sendWindow := []);
    assert Copies(2, 2, -1) == [];
    assert [D, D] == Same(2);
  }

  lemma FirstRound(bd: Bounds) returns (run: seq<Action>, x: End, y: End)
    requires Working(bd)
    ensures Run(Connector(D), Acceptor(), run, bd) == Some((x, y)) && AllAcked(x, 1) && AllReceived(y, 1, [])
  {
    FirstPosted();
    FirstHeard();
    FirstAcked();
    var x0, y0 := Connector(D), Acceptor();
    var x1 := AfterPost(x0, D);
    assert y0.low == 0 && y0.got == 1;
    hide AfterPost, AfterHear, Connector, Acceptor, Run;
    assert Move(x0, y0, Post(D), bd) == Some(x1);
    RunFirst(x0, y0, Post(D), bd);
    HearIs(y0, x1, 1, bd);
    var y1 := Move(y0, x1, Hear(1), bd).value;
    RunSecond(x1, y0, Hear(1), bd);
    RunAppend(x0, y0, [First(Post(D))], [Second(Hear(1))], bd);
    y := Move(y1, x1, Ack, bd).value;
    assert [D] == Same(1);
    RunSecond(x1, y1, Ack, bd);
    RunAppend(x0, y0, [First(Post(D))] + [Second(Hear(1))], [Second(Ack)], bd);
    HearIs(x1, y, 0, bd);
    x := Move(x1, y, Hear(0), bd).value;
    RunFirst(x1, y, Hear(0), bd);
    RunAppend(x0, y0, [First(Post(D))] + [Second(Hear(1))] + [Second(Ack)], [First(Hear(0))], bd);
    run := [First(Post(D))] + [Second(Hear(1))] + [Second(Ack)] + [First(Hear(0))];
  }

  lemma Lockstep(m: nat, bd: Bounds) returns (run: seq<Action>, x: End, y: End)
    requires Working(bd) && 1 <= m
    ensures Run(Connector(D), Acceptor(), run, bd) == Some((x, y)) && AllAcked(x, m) && AllReceived(y, m, [])
  {
    hide Run, AllAcked, AllReceived;
    var run1, x1, y1 := FirstRound(bd);
    var run2;
    run2, x, y := Rounds(x1, y1, 1, m, [], bd);
    RunAppend(Connector(D), Acceptor(), run1, run2, bd);
    run := run1 + run2;
  }

  // ----- a packet that is too old -----

  /** With 63034 packets received, the first one passes for a packet at the end of the window. */
  lemma HearStale(y: End)
    requires AllReceived(y, STALE_DATA, [])
    ensures AllReceived(AfterHear(y, DataCopy(1, -1), DataFrame(1, Bits(-1), D)), STALE_DATA, [Pkt(1, D)])
  {
    var w := AfterAck(y, -1);
    assert w.vc == y.vc && w.low == 0 && w.high == 0;
    var c := AfterCount(w);
    assert AllReceived(c, STALE_DATA, []);
    var vc := c.vc.(recvWindow := [Pkt(1, D)], ackNeeded := true);
    assert InsertEarly([], Pkt(1, D), c.vc.nextToRecv) == [Pkt(1, D)];
    assert Drain(vc) == vc;
  }

  /** It is delivered a second time when the numbers have come round to it. */
  lemma DrainStale(y: End)
    requires AllReceived(y, 65535, [Pkt(1, D)])
    ensures |AfterHear(y, DataCopy(65536, -1), DataFrame(0, Bits(-1), D)).vc.appWindow| == 65537
  {
    var w := AfterAck(y, -1);
    assert w.vc == y.vc && w.low == 0 && w.high == 0;
    var c := AfterCount(w);
    assert AllReceived(c, 65535, [Pkt(1, D)]);
    var vc := TakeNext(c.vc, D).(ackNeeded := true);
    assert vc.nextToRecv == 1 && |vc.appWindow| == 65536;
    var last := TakeNext(vc.(recvWindow := vc.recvWindow[1..]), D);
    assert Drain(last) == last;
    assert Drain(vc) == last;
  }

  /** One step beyond the bound on packets there is a run that delivers a packet twice. */
  lemma StaleDataIsTight(bd: Bounds) returns (run: seq<Action>, x: End, y: End)
    requires Working(bd) && bd.data > STALE_DATA
    ensures Run(Connector(D), Acceptor(), run, bd) == Some((x, y)) && !Delivered(x, y)
  {
    hide Run, Drain;
    var run1, x1, y1 := Lockstep(STALE_DATA, bd);
    HearStale(y1);
    hide AfterHear;
    assert Move(y1, x1, Hear(1), bd) == Some(AfterHear(y1, x1.sent[1], x1.vc.out[1]));
    var y2 := Move(y1, x1, Hear(1), bd).value;
    RunSecond(x1, y1, Hear(1), bd);
    RunAppend(Connector(D), Acceptor(), run1, [Second(Hear(1))], bd);
    forall k | STALE_DATA + 2 <= k < 65537 ensures Bits(k) != 1 {}
    var run3, x3, y3 := Rounds(x1, y2, STALE_DATA, 65535, [Pkt(1, D)], bd);
    RunAppend(Connector(D), Acceptor(), run1 + [Second(Hear(1))], run3, bd);
    var run4;
    run4, y := HalfRound(x3, y3, 65535, [Pkt(1, D)], bd);
    DrainStale(y3);
    PostOne(x3, 65535);
    x := AfterPost(x3, D);
    RunAppend(Connector(D), Acceptor(), run1 + [Second(Hear(1))] + run3, run4, bd);
    run := run1 + [Second(Hear(1))] + run3 + run4;
    hide AfterPost;
    assert |x.posted| == 65537;
  }

  // ----- an acknowledgement that is too old -----

  /** The sender has sent packets 0 to `n + k`, the last `k` of them unacknowledged. */
  ghost predicate Unacked(x: End, n: nat, k: nat) {
    && WindowShape(x.vc, x.posted, n + 1, n + 1 + k) && x.posted == Same(n + 1 + k)
    && x.low == n + 1 && x.high == n + 1 + k && |x.sent| == |x.vc.out|
  }

  lemma PostAgain(x: End, n: nat, k: nat)
    requires Unacked(x, n, k) && k <= SENDWIN_SIZE
    ensures Unacked(AfterPost(x, D), n, k + 1)
  {
    NextBits(n + 1 + k);
    SameAppend(n + 1 + k);
    var x' := AfterPost(x, D);
    assert x'.vc.sendWindow == x.vc.sendWindow + [Pkt(x.vc.nextToSend, D)];
  }

  lemma {:induction false} PostMany(x: End, y: End, n: nat, k: nat, bd: Bounds) returns (run: seq<Action>, x': End)
    requires Unacked(x, n, 0) && k <= SENDWIN_SIZE + 1
    ensures Run(x, y, run, bd) == Some((x', y)) && Unacked(x', n, k)
  {
    if k == 0 {
      run, x' := [], x;
    } else {
      hide Run, Unacked;
      var run1, x1 := PostMany(x, y, n, k - 1, bd);
      PostAgain(x1, n, k - 1);
      x' := AfterPost(x1, D);
      assert Move(x1, y, Post(D), bd) == Some(x');
      RunFirst(x1, y, Post(D), bd);
      RunAppend(x, y, run1, [First(Post(D))], bd);
      run := run1 + [First(Post(D))];
    }
  }

  /** With a full window, an acknowledgement 65135 behind empties it. */
  lemma HearStaleAck(x: End, n: nat)
    requires n == STALE_ACK && Unacked(x, n, SENDWIN_SIZE + 1)
    ensures var x' := AfterHear(x, AckCopy(1), AckFrame(1));
            x'.vc.sendWindow == [] && x'.vc.extWindow == [] && x'.posted == x.posted
  {
    DropExact(x.vc, x.posted, n + 1, n + 1 + (SENDWIN_SIZE + 1), 1);
    hide DropAcked;
  }

  /** One step beyond the bound on acknowledgements there is a run after which the sender holds
      everything for acknowledged, and the receiver lacks a whole window of packets. */
  lemma StaleAckIsTight(bd: Bounds) returns (run: seq<Action>, x: End, y: End)
    requires Working(bd) && bd.ack > STALE_ACK
    ensures Run(Connector(D), Acceptor(), run, bd) == Some((x, y)) && !Delivered(x, y)
  {
    hide Run;
    var run1, x1;
    run1, x1, y := Lockstep(STALE_ACK, bd);
    var run2, x2 := PostMany(x1, y, STALE_ACK, SENDWIN_SIZE + 1, bd);
    RunAppend(Connector(D), Acceptor(), run1, run2, bd);
    HearStaleAck(x2, STALE_ACK);
    hide AfterHear;
    assert Move(x2, y, Hear(0), bd) == Some(AfterHear(x2, AckCopy(1), AckFrame(1)));
    x := Move(x2, y, Hear(0), bd).value;
    RunFirst(x2, y, Hear(0), bd);
    RunAppend(Connector(D), Acceptor(), run1 + run2, [First(Hear(0))], bd);
    run := run1 + run2 + [First(Hear(0))];
    assert |x.posted| == STALE_ACK + 1 + SENDWIN_SIZE + 1 && |y.vc.appWindow| == STALE_ACK;
  }

  // ----- the exact bounds -----

  ghost predicate DeliversIn(request: Data, run: seq<Action>, bd: Bounds) {
    var r := Run(Connector(request), Acceptor(), run, bd);
    r.Some? ==> Delivered(r.value.0, r.value.1)
  }

  /** Delivery is right in every run that keeps to the bounds. */
  ghost predicate AlwaysDelivers(bd: Bounds) {
    forall request, run :: DeliversIn(request, run, bd)
  }

  /** A run that keeps to smaller bounds keeps to larger ones, and does the same. */
  lemma {:induction false} RunWithin(x: End, y: End, run: seq<Action>, bd: Bounds, more: Bounds)
    requires bd.data <= more.data && bd.ack <= more.ack && Run(x, y, run, bd).Some?
    ensures Run(x, y, run, more) == Run(x, y, run, bd)
    decreases |run|
  {
    if run != [] {
      match run[0]
      case First(e) =>
        assert Move(x, y, e, more) == Move(x, y, e, bd);
        hide Move;
        RunWithin(Move(x, y, e, bd).value, y, run[1..], bd, more);
      case Second(e) =>
        assert Move(y, x, e, more) == Move(y, x, e, bd);
        hide Move;
        RunWithin(x, Move(y, x, e, bd).value, run[1..], bd, more);
    }
  }

  /** The bounds of the delivery theorem are exact: for every network that delivers anything at all,
      delivery is right in all runs if and only if no packet is delivered 63034 or more behind the
      receiver and no acknowledgement 65135 or more behind the sender's window. */
  lemma ExactBounds(bd: Bounds)
    requires Working(bd)
    ensures AlwaysDelivers(bd) <==> bd.data <= STALE_DATA && bd.ack <= STALE_ACK
  {
    hide Run, Delivered;
    if bd.data <= STALE_DATA && bd.ack <= STALE_ACK {
      forall request, run ensures DeliversIn(request, run, bd) {
        if Run(Connector(request), Acceptor(), run, bd).Some? {
          RunWithin(Connector(request), Acceptor(), run, bd, LIMITS);
          ReliableDelivery(request, run);
        }
      }
    } else if bd.data > STALE_DATA {
      var run, x, y := StaleDataIsTight(bd);
      assert !DeliversIn(D, run, bd);
    } else {
      var run, x, y := StaleAckIsTight(bd);
      assert !DeliversIn(D, run, bd);
    }
  }
}
