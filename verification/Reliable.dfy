/** Reliable, in-order delivery over a network that loses, duplicates and reorders.

  Two ends of a connection exchange frames; any frame that one end has ever handed to the
  network may reach the other end any number of times, in any order, or never.  The state
  of each end is its virtual channel together with the true, unbounded numbers behind the
  16-bit ones.  The one thing that the network may not do is deliver something so old that
  its 16 bits look current. */
module Reliable {
  import opened Confluence
  import opened Seqnum
  import opened Transport

  /** The true numbers of a frame: of the packet and of the acknowledgement. */
  datatype Copy = DataCopy(u: nat, a: int) | AckCopy(a: int)

  /** One end: all packets ever posted; the send window spans the packets `low` to `high - 1`;
      `got` packets have been received in order, of which `base` by the connection setup;
      everything up to `acked` may be acknowledged; `early` are the numbers of the packets in
      the receive window, and `sent` describes the frames in `vc.out`. */
  datatype End = End(vc: Vc, posted: seq<Data>, low: nat, high: nat,
                     base: nat, got: nat, acked: int, early: seq<nat>, sent: seq<Copy>)

  // ----- what holds at one end -----

  ghost predicate WindowShape(vc: Vc, posted: seq<Data>, low: nat, high: nat) {
    && low <= high <= |posted| && high - low <= SENDWIN_SIZE + 1
    && vc.nextToSend == Bits(high)
    && |vc.sendWindow| == high - low
    && (forall i :: 0 <= i < high - low ==> vc.sendWindow[i] == Pkt(Bits(low + i), posted[low + i]))
    && vc.extWindow == posted[high..]
  }

  /** The window holds consecutive packets, the ones that wait follow in order, and they wait
      only while the window is full. */
  ghost predicate SendOk(s: End) {
    && WindowShape(s.vc, s.posted, s.low, s.high)
    && (s.vc.extWindow != [] ==> s.high - s.low >= SENDWIN_SIZE)
  }

  ghost predicate Increasing(list: seq<nat>) {
    forall i, j :: 0 <= i < j < |list| ==> list[i] < list[j]
  }

  ghost predicate EarlyShape(window: seq<Pkt>, early: seq<nat>, posted: seq<Data>, got: nat, high: nat) {
    && |window| == |early| && Increasing(early) && high <= |posted|
    && forall i :: 0 <= i < |early| ==> got < early[i] < high && window[i] == Pkt(Bits(early[i]), posted[early[i]])
  }

  /** What has been received in order is what the peer posted, and the early packets are
      packets of the peer's window beyond it, in order. */
  ghost predicate RecvOk(s: End, p: End) {
    && s.base <= s.got <= p.high <= |p.posted| && -1 <= s.acked < s.got
    && s.vc.nextToRecv == Bits(s.got) && s.vc.nextToAck == Bits(s.acked)
    && s.vc.appWindow == p.posted[s.base..s.got]
    && EarlyShape(s.vc.recvWindow, s.early, p.posted, s.got, p.high)
  }

  ghost predicate Describes(c: Copy, f: Frame, posted: seq<Data>, high: nat, acked: int) {
    && -1 <= c.a <= acked
    && match c
       case DataCopy(u, a) => u < high <= |posted| && f == DataFrame(Bits(u), Bits(a), posted[u])
       case AckCopy(a) => f == AckFrame(Bits(a))
  }

  ghost predicate OutOk(s: End) {
    && |s.sent| == |s.vc.out|
    && forall i :: 0 <= i < |s.sent| ==> Describes(s.sent[i], s.vc.out[i], s.posted, s.high, s.acked)
  }

  ghost predicate EndOk(s: End, p: End) {
    SendOk(s) && RecvOk(s, p) && OutOk(s) && s.low <= p.acked + 1
  }

  // ----- moves -----

  datatype Event =
    | Post(data: Data)   // the application submits a packet
    | Ack                // an explicit acknowledgement is sent
    | Again(i: nat)      // the timer resends packet `i` of the window
    | Hear(i: nat)       // frame `i` of the peer arrives

  /** The numbers that the transmitted packets `from` to `to - 1` carry. */
  ghost function Copies(from: nat, to: nat, a: int): seq<Copy>
    requires from <= to
  {
    seq(to - from, i requires 0 <= i < to - from => DataCopy(from + i, a))
  }

  ghost function AfterPost(s: End, data: Data): End {
    var vc := PostSend(s.vc, data);
    if |vc.sendWindow| == |s.vc.sendWindow| then s.(vc := vc, posted := s.posted + [data])
    else s.(vc := vc, posted := s.posted + [data], high := s.high + 1, sent := s.sent + [DataCopy(s.high, s.acked)])
  }

  ghost function AfterAck(s: End, a: int): End
    requires a >= -1
  {
    var vc := ProcessAck(s.vc, Bits(a));
    var low := if a + 1 > s.low then a + 1 else s.low;
    var high := low + |vc.sendWindow|;
    s.(vc := vc, low := low, high := high,
      sent := s.sent + if high >= s.high then Copies(s.high, high, s.acked) else [])
  }

  ghost function AfterCount(s: End): End {
    var vc := CountRecv(s.vc);
    if |vc.out| == |s.vc.out| then s.(vc := vc) else s.(vc := vc, sent := s.sent + [AckCopy(s.acked)])
  }

  ghost function DrainNumbers(got: nat, early: seq<nat>): (nat, seq<nat>)
    decreases |early|
  {
    if early == [] || early[0] != got then (got, early) else DrainNumbers(got + 1, early[1..])
  }

  ghost function InsertNumber(early: seq<nat>, u: nat): seq<nat> {
    if early == [] || u < early[0] then [u] + early
    else if u == early[0] then early
    else [early[0]] + InsertNumber(early[1..], u)
  }

  ghost function AfterPlace(s: End, u: nat, data: Data): End {
    var vc := PlaceRecv(s.vc, Pkt(Bits(u), data));
    if u < s.got then s.(vc := vc)
    else if u == s.got then
      var (got, early) := DrainNumbers(s.got + 1, s.early);
      s.(vc := vc, got := got, acked := got - 1, early := early)
    else s.(vc := vc, early := InsertNumber(s.early, u))
  }

  ghost function AfterHear(s: End, c: Copy, f: Frame): End
    requires c.a >= -1 && (c.DataCopy? <==> f.DataFrame?)
  {
    var w := AfterAck(s, c.a);
    if c.AckCopy? then w else AfterPlace(if f.data.accept then w else AfterCount(w), c.u, f.data)
  }

  /** How far behind the network delivers: packets less than `data` behind the receiver, and
      acknowledgements less than `ack` behind the sender's window. */
  datatype Bounds = Bounds(data: nat, ack: nat)

  const STALE_DATA: nat := 63034
  const STALE_ACK: nat := 65135
  const LIMITS := Bounds(STALE_DATA, STALE_ACK)

  ghost predicate Fresh(s: End, c: Copy, bd: Bounds) {
    s.low - c.a < bd.ack && (c.DataCopy? ==> s.got - c.u < bd.data)
  }

  /** One end moves; the other end's state matters only through the frames it has sent. */
  ghost function Move(s: End, p: End, e: Event, bd: Bounds): Option<End> {
    match e
    case Post(data) => Some(AfterPost(s, data))
    case Ack => Some(s.(vc := SendAck(s.vc), sent := s.sent + [AckCopy(s.acked)]))
    case Again(i) =>
      if i < |s.vc.sendWindow| then Some(s.(vc := Resend(s.vc, i), sent := s.sent + [DataCopy(s.low + i, s.acked)]))
      else None
    case Hear(i) =>
      if i < |p.sent| && i < |p.vc.out| && p.sent[i].a >= -1
         && (p.sent[i].DataCopy? <==> p.vc.out[i].DataFrame?) && Fresh(s, p.sent[i], bd)
      then Some(AfterHear(s, p.sent[i], p.vc.out[i])) else None
  }

  /** Hearing a frame is processing it: the true numbers only decide whether it may arrive. */
  lemma HearIsProcessRecv(s: End, p: End, i: nat, bd: Bounds)
    requires OutOk(p) && Move(s, p, Hear(i), bd).Some?
    ensures Move(s, p, Hear(i), bd).value.vc == ProcessRecv(s.vc, p.vc.out[i])
  {
    assert Describes(p.sent[i], p.vc.out[i], p.posted, p.high, p.acked);
  }

  // ----- acknowledgements -----

  /** The acknowledgement test on 16 bits, for a front packet `low` and any acknowledgement at most
      a turn behind it: it succeeds exactly if the packet is covered, or the acknowledgement is so
      old that it has come round into the window. */
  lemma AckTest(a: int, low: nat, high: nat)
    requires -1 <= a < high && low < high <= low + SENDWIN_SIZE + 1 && low - a <= WRAP
    ensures InclBetween(Bits(a), Bits(low), Bits(high)) <==> low <= a || WRAP - (low - a) <= high - low
  {
    BetweenIsDistance(Bits(a), Bits(low), Bits(high));
    AheadForward(high, low);
    if low <= a {
      AheadForward(a, low);
    } else if low - a < WRAP {
      AheadBehind(a, low);
    } else {
      WholeTurn(a);
    }
  }

  /** How many packets an acknowledgement removes from the window.  One that has come round removes
      everything up to the packet whose bits it has. */
  function Removes(a: int, low: nat, high: nat): nat
    requires low <= high && low - a <= WRAP
  {
    if a >= low then a + 1 - low
    else
      var round := WRAP - (low - a);
      if low == high || round > high - low then 0 else if round < high - low then round + 1 else high - low
  }

  /** Exactly what an acknowledgement at most a turn old does. */
  lemma {:induction false} DropExact(vc: Vc, posted: seq<Data>, low: nat, high: nat, a: int)
    requires WindowShape(vc, posted, low, high) && -1 <= a < high && low - a <= WRAP
    ensures Removes(a, low, high) <= |vc.sendWindow|
    ensures DropAcked(vc, Bits(a)) == vc.(sendWindow := vc.sendWindow[Removes(a, low, high)..])
    decreases |vc.sendWindow|
  {
    hide Bits, InclBetween;
    if vc.sendWindow != [] {
      assert vc.sendWindow[0] == Pkt(Bits(low), posted[low]);
      AckTest(a, low, high);
      if low <= a || WRAP - (low - a) <= high - low {
        var vc' := vc.(sendWindow := vc.sendWindow[1..]);
        assert WindowShape(vc', posted, low + 1, high);
        if low + 1 - a <= WRAP {
          hide WindowShape;
          DropExact(vc', posted, low + 1, high, a);
        } else {
          DropNone(vc', posted, low + 1, high, a);
        }
      }
    }
  }

  /** An acknowledgement that has the bits of the packet before the window removes nothing. */
  lemma DropNone(vc: Vc, posted: seq<Data>, low: nat, high: nat, a: int)
    requires WindowShape(vc, posted, low, high) && -1 <= a && low - a == WRAP + 1
    ensures DropAcked(vc, Bits(a)) == vc
  {
    if vc.sendWindow != [] {
      assert vc.sendWindow[0] == Pkt(Bits(low), posted[low]);
      AheadForward(high, low);
      BetweenIsDistance(Bits(a), Bits(low), Bits(high));
      WholeTurn(a);
      AheadBehind(low - 1, low);
    }
  }

  /** An acknowledgement that is not stale removes exactly the packets it covers. */
  lemma DropRemovesCovered(vc: Vc, posted: seq<Data>, low: nat, high: nat, a: int)
    requires WindowShape(vc, posted, low, high) && -1 <= a < high && low - a < STALE_ACK
    ensures var k := if a + 1 > low then a + 1 - low else 0;
            DropAcked(vc, Bits(a)) == vc.(sendWindow := vc.sendWindow[k..])
  {
    hide DropAcked, Bits;
    DropExact(vc, posted, low, high, a);
  }

  /** The frames that carry packets `from` to `to - 1` with acknowledgement `a`. */
  ghost function Frames(posted: seq<Data>, from: nat, to: nat, ack: Seq16): seq<Frame>
    requires from <= to <= |posted|
  {
    seq(to - from, i requires 0 <= i < to - from => DataFrame(Bits(from + i), ack, posted[from + i]))
  }

  lemma TransmitShape(vc: Vc, posted: seq<Data>, low: nat, high: nat)
    requires WindowShape(vc, posted, low, high) && vc.extWindow != [] && high - low < SENDWIN_SIZE
    ensures WindowShape(Transmit(vc.(extWindow := vc.extWindow[1..]), vc.extWindow[0]), posted, low, high + 1)
  {
    NextBits(high);
  }

  /** Flushing moves waiting packets into the window, in order, until it is full or none waits. */
  lemma {:induction false} FlushShape(vc: Vc, posted: seq<Data>, low: nat, high: nat) returns (high': nat)
    requires WindowShape(vc, posted, low, high)
    ensures high <= high' && WindowShape(FlushExt(vc), posted, low, high')
    ensures FlushExt(vc).extWindow != [] ==> high' - low >= SENDWIN_SIZE
    ensures FlushExt(vc).out == vc.out + Frames(posted, high, high', vc.nextToAck)
    ensures FlushExt(vc).nextToAck == vc.nextToAck && FlushExt(vc).appWindow == vc.appWindow
    decreases |vc.extWindow|
  {
    high' := high;
    if vc.extWindow != [] && |vc.sendWindow| < SENDWIN_SIZE {
      TransmitShape(vc, posted, low, high);
      var next := Transmit(vc.(extWindow := vc.extWindow[1..]), vc.extWindow[0]);
      high' := FlushShape(next, posted, low, high + 1);
      hide WindowShape;
      assert vc.extWindow[0] == posted[high];
      assert Frames(posted, high, high', vc.nextToAck)
             == [DataFrame(Bits(high), vc.nextToAck, posted[high])] + Frames(posted, high + 1, high', vc.nextToAck);
    }
  }

  /** The rest of an end that acknowledgements leave alone. */
  ghost predicate SameRecv(s: End, s': End) {
    && s'.base == s.base && s'.got == s.got && s'.acked == s.acked && s'.early == s.early
    && s'.vc.nextToRecv == s.vc.nextToRecv && s'.vc.nextToAck == s.vc.nextToAck
    && s'.vc.appWindow == s.vc.appWindow && s'.vc.recvWindow == s.vc.recvWindow
  }

  lemma OutGrows(s: End, s': End, from: nat)
    requires OutOk(s) && s'.posted == s.posted && s'.high >= s.high == from && s'.acked == s.acked
    requires s'.high <= |s.posted| && -1 <= s.acked && s.vc.nextToAck == Bits(s.acked)
    requires s'.vc.out == s.vc.out + Frames(s.posted, from, s'.high, s.vc.nextToAck)
    requires s'.sent == s.sent + Copies(from, s'.high, s.acked)
    ensures OutOk(s')
  {
    forall i | 0 <= i < |s'.sent| ensures Describes(s'.sent[i], s'.vc.out[i], s'.posted, s'.high, s'.acked) {
      if i < |s.sent| {
        assert Describes(s.sent[i], s.vc.out[i], s.posted, s.high, s.acked);
      }
    }
  }

  lemma AckKeeps(s: End, p: End, a: int)
    requires EndOk(s, p) && EndOk(p, s) && -1 <= a <= p.acked && s.low - a < STALE_ACK
    ensures var s' := AfterAck(s, a);
            && SendOk(s') && OutOk(s') && SameRecv(s, s') && s'.low <= p.acked + 1
            && s'.posted == s.posted && s'.high >= s.high
  {
    hide FlushExt, DropAcked, Describes;
    var s' := AfterAck(s, a);
    var low := if a + 1 > s.low then a + 1 else s.low;
    DropRemovesCovered(s.vc, s.posted, s.low, s.high, a);
    DropKeepsRecv(s.vc, Bits(a));
    var vc1 := DropAcked(s.vc, Bits(a));
    assert WindowShape(vc1, s.posted, low, s.high);
    var high := FlushShape(vc1, s.posted, low, s.high);
    FlushKeepsRecv(vc1);
    assert s'.vc == FlushExt(vc1) && s'.low == low && s'.high == high;
    OutGrows(s, s', s.high);
  }

  // ----- receiving -----

  /** The receive window is 2502 or 2503 numbers long, depending on where it starts. */
  ghost function WindowLength(start: Seq16): nat {
    if start + RECVWIN_SIZE > MAX_SEQ_NUM then RECVWIN_SIZE + 1 else RECVWIN_SIZE
  }

  /** The window test on 16 bits, for any two true numbers less than a turn apart: a packet
      ahead of the receiver passes if it is close enough, a packet behind passes exactly if it
      is so old that it looks close. */
  lemma WindowTest(u: nat, got: nat)
    requires got - WRAP < u < got + WRAP
    ensures InclBetween(Bits(u), Bits(got), WindowEnd(Bits(got))) <==>
            if u >= got then u - got <= WindowLength(Bits(got)) else WRAP - (got - u) <= WindowLength(Bits(got))
  {
    BetweenIsDistance(Bits(u), Bits(got), WindowEnd(Bits(got)));
    if u >= got { AheadForward(u, got); } else { AheadBehind(u, got); }
  }

  lemma NumbersEarly(window: seq<Pkt>, early: seq<nat>, posted: seq<Data>, got: nat, high: nat)
    requires EarlyShape(window, early, posted, got, high) && high <= got + WRAP
    ensures EarlyList(window, Bits(got))
  {
    forall i | 0 <= i < |early| ensures Ahead(window[i].seqnum, Bits(got)) == early[i] - got {
      AheadForward(early[i], got);
    }
  }

  /** Inserting by distance is inserting by true number. */
  lemma {:induction false} InsertMatches(
    window: seq<Pkt>, early: seq<nat>, posted: seq<Data>, got: nat, high: nat, u: nat)
    requires EarlyShape(window, early, posted, got, high) && high <= got + WRAP && got < u < high
    ensures EarlyShape(InsertEarly(window, Pkt(Bits(u), posted[u]), Bits(got)), InsertNumber(early, u), posted,
            got, high)
    ensures forall x :: x in InsertNumber(early, u) <==> x in early || x == u
    decreases |early|
  {
    var p, start := Pkt(Bits(u), posted[u]), Bits(got);
    AheadForward(u, got);
    if early != [] && early[0] < u {
      AheadForward(early[0], got);
      assert EarlyShape(window[1..], early[1..], posted, got, high);
      InsertMatches(window[1..], early[1..], posted, got, high, u);
      InsertUnrolls(window, p, start);
      assert early == [early[0]] + early[1..];
      InsertBehind(window, early, posted, got, high, u);
    } else {
      InsertFront(window, early, posted, got, high, u);
    }
  }

  lemma InsertFront(window: seq<Pkt>, early: seq<nat>, posted: seq<Data>, got: nat, high: nat, u: nat)
    requires EarlyShape(window, early, posted, got, high) && high <= got + WRAP && got < u < high
    requires early == [] || u <= early[0]
    ensures EarlyShape(InsertEarly(window, Pkt(Bits(u), posted[u]), Bits(got)), InsertNumber(early, u), posted,
            got, high)
    ensures forall x :: x in InsertNumber(early, u) <==> x in early || x == u
  {
    var p, start := Pkt(Bits(u), posted[u]), Bits(got);
    AheadForward(u, got);
    if early != [] {
      AheadForward(early[0], got);
      assert window[0] == Pkt(Bits(early[0]), posted[early[0]]);
    }
    assert PlaceOf(window, p.seqnum, start) == 0;
    if early == [] || u < early[0] {
      assert InsertEarly(window, p, start) == [p] + window;
    } else {
      assert InsertEarly(window, p, start) == window;
    }
  }

  lemma InsertUnrolls(window: seq<Pkt>, p: Pkt, start: Seq16)
    requires window != [] && Ahead(window[0].seqnum, start) < Ahead(p.seqnum, start)
    ensures InsertEarly(window, p, start) == [window[0]] + InsertEarly(window[1..], p, start)
  {
    var i := PlaceOf(window[1..], p.seqnum, start);
    assert PlaceOf(window, p.seqnum, start) == i + 1;
    assert window[..i + 1] == [window[0]] + window[1..][..i] && window[i + 1..] == window[1..][i..];
  }

  lemma InsertBehind(window: seq<Pkt>, early: seq<nat>, posted: seq<Data>, got: nat, high: nat, u: nat)
    requires EarlyShape(window, early, posted, got, high) && early != [] && early[0] < u && got < u < high
    requires EarlyShape(InsertEarly(window[1..], Pkt(Bits(u), posted[u]), Bits(got)), InsertNumber(early[1..], u),
             posted, got, high)
    requires forall x :: x in InsertNumber(early[1..], u) <==> x in early[1..] || x == u
    ensures EarlyShape([window[0]] + InsertEarly(window[1..], Pkt(Bits(u), posted[u]), Bits(got)),
                       [early[0]] + InsertNumber(early[1..], u), posted, got, high)
  {
    hide InsertEarly, InsertNumber;
    var rest := InsertNumber(early[1..], u);
    forall j | 0 <= j < |rest| ensures early[0] < rest[j] {
      assert rest[j] in rest;
      if rest[j] != u {
        var k :| 0 <= k < |early[1..]| && early[1..][k] == rest[j];
        assert early[k + 1] == rest[j];
      }
    }
  }

  /** Everything but the receiving side of a channel. */
  ghost predicate SameSend(vc: Vc, vc': Vc) {
    vc'.nextToSend == vc.nextToSend && vc'.sendWindow == vc.sendWindow && vc'.extWindow == vc.extWindow
      && vc'.out == vc.out
  }

  /** Draining by 16-bit numbers drains the consecutive true numbers. */
  lemma {:induction false} DrainMatches(vc: Vc, posted: seq<Data>, base: nat, got: nat, early: seq<nat>, high: nat)
    requires base <= got <= high <= got + WRAP && 0 < got && high <= |posted|
    requires vc.nextToRecv == Bits(got) && vc.nextToAck == Bits(got - 1) && vc.appWindow == posted[base..got]
    requires EarlyShape(vc.recvWindow, early, posted, got - 1, high)
    ensures var (got', early') := DrainNumbers(got, early);
            && got <= got' <= high
            && Drain(vc).nextToRecv == Bits(got') && Drain(vc).nextToAck == Bits(got' - 1)
            && Drain(vc).appWindow == posted[base..got']
            && EarlyShape(Drain(vc).recvWindow, early', posted, got', high)
            && SameSend(vc, Drain(vc))
    decreases |early|
  {
    hide EarlyShape;
    FrontDue(vc.recvWindow, early, posted, got, high);
    if early != [] && early[0] == got {
      NextBits(got);
      var vc' := TakeNext(vc.(recvWindow := vc.recvWindow[1..]), vc.recvWindow[0].data);
      assert posted[base..got] + [posted[got]] == posted[base..got + 1];
      DrainMatches(vc', posted, base, got + 1, early[1..], high);
    }
  }

  /** The front packet is due, by its 16 bits, exactly if its true number is. */
  lemma FrontDue(window: seq<Pkt>, early: seq<nat>, posted: seq<Data>, got: nat, high: nat)
    requires 0 < got <= high <= got + WRAP && EarlyShape(window, early, posted, got - 1, high)
    ensures |window| == |early|
    ensures early != [] && early[0] == got ==>
              && got < high <= |posted| && window[0] == Pkt(Bits(got), posted[got])
              && EarlyShape(window[1..], early[1..], posted, got, high)
    ensures early == [] || early[0] != got ==>
              && EarlyShape(window, early, posted, got, high)
              && (early != [] ==> window[0].seqnum != Bits(got))
  {
    if early != [] {
      AheadForward(early[0], got);
      assert forall i :: 0 < i < |early| ==> early[0] < early[i];
    }
  }

  /** An early packet is not due, so nothing drains. */
  lemma NothingDrains(vc: Vc, early: seq<nat>, posted: seq<Data>, got: nat, high: nat)
    requires EarlyShape(vc.recvWindow, early, posted, got, high) && high <= got + WRAP && vc.nextToRecv == Bits(got)
    ensures Drain(vc) == vc
  {
    if early != [] {
      AheadForward(early[0], got);
    }
  }

  /** A packet of the peer that is not stale is appended, kept in order or dropped, as its true
      number says. */
  lemma PlaceKeeps(s: End, p: End, u: nat)
    requires RecvOk(s, p) && u < p.high <= s.got + SENDWIN_SIZE + 1 && s.got - u < STALE_DATA
    ensures var s' := AfterPlace(s, u, p.posted[u]);
            && RecvOk(s', p) && SameSend(s.vc, s'.vc) && s'.acked >= s.acked
            && s'.posted == s.posted && s'.low == s.low && s'.high == s.high && s'.sent == s.sent
  {
    hide Drain, InsertEarly, InsertNumber, DrainNumbers, WindowEnd, EarlyShape;
    WindowTest(u, s.got);
    var pkt := Pkt(Bits(u), p.posted[u]);
    if u >= s.got {
      AheadForward(u, s.got);
      if u == s.got {
        NextBits(s.got);
        var vc := TakeNext(s.vc, pkt.data).(ackNeeded := true);
        assert p.posted[s.base..s.got] + [p.posted[s.got]] == p.posted[s.base..s.got + 1];
        DrainMatches(vc, p.posted, s.base, s.got + 1, s.early, p.high);
      } else {
        InsertMatches(s.vc.recvWindow, s.early, p.posted, s.got, p.high, u);
        var vc := s.vc.(recvWindow := InsertEarly(s.vc.recvWindow, pkt, Bits(s.got)), ackNeeded := true);
        NothingDrains(vc, InsertNumber(s.early, u), p.posted, s.got, p.high);
      }
    }
  }

  // ----- every move keeps the invariant -----

  ghost predicate ConnOk(x: End, y: End) { EndOk(x, y) && EndOk(y, x) }

  /** The peer's view survives when this end only posts and sends more. */
  lemma PeerKeeps(s: End, s': End, p: End)
    requires EndOk(p, s) && s.posted <= s'.posted && s.high <= s'.high <= |s'.posted| && s.acked <= s'.acked
    ensures EndOk(p, s')
  {
    assert p.vc.appWindow == s'.posted[p.base..p.got];
  }

  lemma OutSameOrMore(s: End, s': End, c: Copy, f: Frame)
    requires OutOk(s) && s.posted <= s'.posted && s.high <= s'.high <= |s'.posted| && s.acked <= s'.acked
    requires (s'.sent == s.sent && s'.vc.out == s.vc.out)
             || (s'.sent == s.sent + [c] && s'.vc.out == s.vc.out + [f]
               && Describes(c, f, s'.posted, s'.high, s'.acked))
    ensures OutOk(s')
  {
    forall i | 0 <= i < |s.sent| ensures Describes(s'.sent[i], s'.vc.out[i], s'.posted, s'.high, s'.acked) {
      assert Describes(s.sent[i], s.vc.out[i], s.posted, s.high, s.acked);
    }
  }

  lemma PostShape(s: End, data: Data)
    requires SendOk(s)
    ensures SendOk(AfterPost(s, data))
  {
    NextBits(s.high);
    assert AfterPost(s, data).posted[..|s.posted|] == s.posted;
  }

  lemma PostKeeps(s: End, p: End, data: Data)
    requires ConnOk(s, p)
    ensures ConnOk(AfterPost(s, data), p)
  {
    var s' := AfterPost(s, data);
    assert s'.posted[..|s.posted|] == s.posted;
    PostShape(s, data);
    OutSameOrMore(s, s', DataCopy(s.high, s.acked), DataFrame(Bits(s.high), Bits(s.acked), data));
    hide SendOk, Describes, EarlyShape;
    PeerKeeps(s, s', p);
  }

  lemma AckMoveKeeps(s: End, p: End)
    requires ConnOk(s, p)
    ensures ConnOk(Move(s, p, Ack, LIMITS).value, p)
  {
    var s' := Move(s, p, Ack, LIMITS).value;
    OutSameOrMore(s, s', AckCopy(s.acked), AckFrame(Bits(s.acked)));
    hide Describes, EarlyShape;
    PeerKeeps(s, s', p);
  }

  lemma AgainKeeps(s: End, p: End, i: nat)
    requires ConnOk(s, p) && i < |s.vc.sendWindow|
    ensures ConnOk(Move(s, p, Again(i), LIMITS).value, p)
  {
    var s' := Move(s, p, Again(i), LIMITS).value;
    OutSameOrMore(s, s', DataCopy(s.low + i, s.acked), DataFrame(Bits(s.low + i), Bits(s.acked), s.posted[s.low + i]));
    hide Describes, EarlyShape;
    PeerKeeps(s, s', p);
  }

  lemma CountKeeps(s: End, p: End)
    requires ConnOk(s, p)
    ensures ConnOk(AfterCount(s), p) && SameRecv(s, AfterCount(s))
  {
    var s' := AfterCount(s);
    OutSameOrMore(s, s', AckCopy(s.acked), AckFrame(Bits(s.acked)));
    hide Describes, EarlyShape;
    PeerKeeps(s, s', p);
  }

  lemma HearAckKeeps(s: End, p: End, a: int)
    requires ConnOk(s, p) && -1 <= a <= p.acked && s.low - a < STALE_ACK
    ensures ConnOk(AfterAck(s, a), p) && SameRecv(s, AfterAck(s, a))
  {
    hide AfterAck, Describes, EarlyShape;
    AckKeeps(s, p, a);
    PeerKeeps(s, AfterAck(s, a), p);
  }

  lemma HearDataKeeps(s: End, p: End, u: nat)
    requires ConnOk(s, p) && u < p.high && s.got - u < STALE_DATA
    ensures ConnOk(AfterPlace(s, u, p.posted[u]), p)
  {
    var s' := AfterPlace(s, u, p.posted[u]);
    PlaceKeeps(s, p, u);
    OutSameOrMore(s, s', AckCopy(-1), AckFrame(0));
    hide AfterPlace, Describes, EarlyShape;
    PeerKeeps(s, s', p);
  }

  lemma MoveKeeps(s: End, p: End, e: Event)
    requires ConnOk(s, p) && Move(s, p, e, LIMITS).Some?
    ensures ConnOk(Move(s, p, e, LIMITS).value, p)
  {
    match e
    case Post(data) => PostKeeps(s, p, data);
    case Ack => AckMoveKeeps(s, p);
    case Again(i) => AgainKeeps(s, p, i);
    case Hear(i) =>
      var c := p.sent[i];
      assert Describes(c, p.vc.out[i], p.posted, p.high, p.acked);
      hide ConnOk, AfterAck, AfterCount, AfterPlace;
      HearAckKeeps(s, p, c.a);
      if c.DataCopy? {
        var w := AfterAck(s, c.a);
        CountKeeps(w, p);
        HearDataKeeps(if p.posted[c.u].accept then w else AfterCount(w), p, c.u);
      }
  }

  /** What the application has been given only grows. */
  lemma AppGrows(s: End, p: End, e: Event, bd: Bounds)
    requires Move(s, p, e, bd).Some?
    ensures s.vc.appWindow <= Move(s, p, e, bd).value.vc.appWindow
  {
    hide PlaceRecv, ProcessAck, DrainNumbers, InsertNumber;
    match e
    case Post(_) =>
    case Ack =>
    case Again(_) =>
    case Hear(i) =>
      var c, f := p.sent[i], p.vc.out[i];
      AckKeepsRecv(s.vc, Bits(c.a));
      if c.DataCopy? {
        var w := AfterAck(s, c.a);
        var t := if f.data.accept then w else AfterCount(w);
        assert t.vc.appWindow == s.vc.appWindow;
        PlaceGrows(t.vc, Pkt(Bits(c.u), f.data));
      }
  }

  // ----- whole runs -----

  /** The two ends right after the connection has been accepted: the connector has sent its
      request, which the acceptor has taken without acknowledging it. */
  ghost function Connector(request: Data): End {
    End(Transmit(FRESH, request), [request], 0, 1, 0, 0, -1, [], [DataCopy(0, -1)])
  }

  ghost function Acceptor(): End {
    End(FRESH.(nextToRecv := 1), [], 0, 0, 1, 1, -1, [], [])
  }

  /** A move of the first end, or of the second. */
  datatype Action = First(e: Event) | Second(e: Event)

  ghost function Run(x: End, y: End, run: seq<Action>, bd: Bounds): Option<(End, End)>
    decreases |run|
  {
    if run == [] then Some((x, y))
    else
      match run[0]
      case First(e) =>
        var m := Move(x, y, e, bd);
        if m.None? then None else Run(m.value, y, run[1..], bd)
      case Second(e) =>
        var m := Move(y, x, e, bd);
        if m.None? then None else Run(x, m.value, run[1..], bd)
  }

  lemma {:induction false} RunAppend(x: End, y: End, a: seq<Action>, b: seq<Action>, bd: Bounds)
    requires Run(x, y, a, bd).Some?
    ensures var (u, v) := Run(x, y, a, bd).value; Run(x, y, a + b, bd) == Run(u, v, b, bd)
    decreases |a|
  {
    hide Move;
    if a == [] {
      assert a + b == b;
    } else {
      assert (a + b)[1..] == a[1..] + b && (a + b)[0] == a[0];
      match a[0]
      case First(e) => RunAppend(Move(x, y, e, bd).value, y, a[1..], b, bd);
      case Second(e) => RunAppend(x, Move(y, x, e, bd).value, a[1..], b, bd);
    }
  }

  lemma {:induction false} RunKeeps(x: End, y: End, run: seq<Action>)
    requires ConnOk(x, y) && Run(x, y, run, LIMITS).Some?
    ensures ConnOk(Run(x, y, run, LIMITS).value.0, Run(x, y, run, LIMITS).value.1)
    ensures Run(x, y, run, LIMITS).value.0.base == x.base && Run(x, y, run, LIMITS).value.1.base == y.base
    decreases |run|
  {
    if run != [] {
      hide ConnOk;
      match run[0]
      case First(e) =>
        MoveKeeps(x, y, e);
        BaseStays(x, y, e);
        SwapOk(Move(x, y, e, LIMITS).value, y);
        RunKeeps(Move(x, y, e, LIMITS).value, y, run[1..]);
      case Second(e) =>
        SwapOk(x, y);
        MoveKeeps(y, x, e);
        BaseStays(y, x, e);
        SwapOk(Move(y, x, e, LIMITS).value, x);
        RunKeeps(x, Move(y, x, e, LIMITS).value, run[1..]);
    }
  }

  lemma SwapOk(x: End, y: End)
    ensures ConnOk(x, y) <==> ConnOk(y, x)
  {
  }

  lemma BaseStays(s: End, p: End, e: Event)
    requires Move(s, p, e, LIMITS).Some?
    ensures Move(s, p, e, LIMITS).value.base == s.base
  {
    hide PostSend, ProcessAck, PlaceRecv, CountRecv, Resend, SendAck, DrainNumbers, InsertNumber;
  }

  /** What each end has passed to its application is a prefix of what the other end's application
      submitted; and once everything that an end submitted has been acknowledged, the other end has
      all of it. */
  ghost predicate Delivered(x: End, y: End) {
    && 1 <= |x.posted| && y.vc.appWindow <= x.posted[1..] && x.vc.appWindow <= y.posted
    && (x.vc.sendWindow == [] && x.vc.extWindow == [] ==> y.vc.appWindow == x.posted[1..])
    && (y.vc.sendWindow == [] && y.vc.extWindow == [] ==> x.vc.appWindow == y.posted)
  }

  /** Over any loss, duplication and reordering, and in both directions at once. */
  lemma ReliableDelivery(request: Data, run: seq<Action>)
    requires Run(Connector(request), Acceptor(), run, LIMITS).Some?
    ensures var (x, y) := Run(Connector(request), Acceptor(), run, LIMITS).value; ConnOk(x, y) && Delivered(x, y)
  {
    NextBits(0);
    assert ConnOk(Connector(request), Acceptor());
    RunKeeps(Connector(request), Acceptor(), run);
    var (x, y) := Run(Connector(request), Acceptor(), run, LIMITS).value;
    hide Run;
    assert x.posted[1..y.got] == x.posted[1..][..y.got - 1];
    assert y.posted[0..x.got] == y.posted[..x.got];
    assert x.vc.extWindow == [] ==> x.high == |x.posted|;
    assert y.vc.extWindow == [] ==> y.high == |y.posted|;
  }

  /** In every reachable state the early packets are in order around the 16-bit circle, which is
      what the insertion and the drain loop rely on. */
  lemma EarlyPacketsInOrder(request: Data, run: seq<Action>)
    requires Run(Connector(request), Acceptor(), run, LIMITS).Some?
    ensures var (x, y) := Run(Connector(request), Acceptor(), run, LIMITS).value;
            && EarlyList(x.vc.recvWindow, x.vc.nextToRecv) && EarlyList(y.vc.recvWindow, y.vc.nextToRecv)
  {
    ReliableDelivery(request, run);
    var (x, y) := Run(Connector(request), Acceptor(), run, LIMITS).value;
    hide Run;
    NumbersEarly(x.vc.recvWindow, x.early, y.posted, x.got, y.high);
    NumbersEarly(y.vc.recvWindow, y.early, x.posted, y.got, x.high);
  }
}
