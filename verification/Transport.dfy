/** One end of a reliable connection over unreliable datagrams.

  The datatype `Vc` holds the state of a virtual channel and the functions say what each
  operation does to it; the class `VirtualChannel` is the same state updated in place by the
  operations of the source, with their loops.  `out` is the history of the frames handed to
  the network. */
module Transport {
  import opened Seqnum

  /** What a packet carries: the ACCEPT packet that answers a connection request, or bytes of the stream. */
  datatype Data = Data(accept: bool, bytes: seq<int>)

  /** A buffered packet with its sequence number. */
  datatype Pkt = Pkt(seqnum: Seq16, data: Data)

  /** A frame on the network.  Every frame acknowledges. */
  datatype Frame = DataFrame(seqnum: Seq16, acknum: Seq16, data: Data) | AckFrame(acknum: Seq16)

  const SENDWIN_SIZE: nat := 400
  const RECVWIN_SIZE: nat := 2501
  const MAX_ACK_PENDING: nat := 100

  datatype Vc = Vc(
    nextToSend: Seq16, nextToRecv: Seq16, nextToAck: Seq16,
    ackNeeded: bool, ackPending: nat,
    sendWindow: seq<Pkt>, extWindow: seq<Data>, recvWindow: seq<Pkt>, appWindow: seq<Data>,
    out: seq<Frame>)

  const FRESH := Vc(0, 0, MAX_SEQ_NUM, false, 0, [], [], [], [], [])

  // ----- sending -----

  /** Give the packet the next sequence number, track it and hand it to the network. */
  function Transmit(vc: Vc, data: Data): Vc {
    vc.(nextToSend := Next(vc.nextToSend),
        ackNeeded := false, ackPending := 0,
        sendWindow := vc.sendWindow + [Pkt(vc.nextToSend, data)],
        out := vc.out + [DataFrame(vc.nextToSend, vc.nextToAck, data)])
  }

  /** Transmit now if the window has room and nothing waits, else wait. */
  function PostSend(vc: Vc, data: Data): Vc {
    if |vc.sendWindow| > SENDWIN_SIZE || vc.extWindow != [] then vc.(extWindow := vc.extWindow + [data])
    else Transmit(vc, data)
  }

  /** Transmit waiting packets, in order, while the window has room. */
  function FlushExt(vc: Vc): Vc
    decreases |vc.extWindow|
  {
    if vc.extWindow == [] || |vc.sendWindow| >= SENDWIN_SIZE then vc
    else FlushExt(Transmit(vc.(extWindow := vc.extWindow[1..]), vc.extWindow[0]))
  }

  /** Drop packets from the front of the window while `ack` covers them. */
  function DropAcked(vc: Vc, ack: Seq16): Vc
    decreases |vc.sendWindow|
  {
    if vc.sendWindow != [] && InclBetween(ack, vc.sendWindow[0].seqnum, vc.nextToSend)
    then DropAcked(vc.(sendWindow := vc.sendWindow[1..]), ack)
    else vc
  }

  function ProcessAck(vc: Vc, ack: Seq16): Vc { FlushExt(DropAcked(vc, ack)) }

  function SendAck(vc: Vc): Vc {
    vc.(ackNeeded := false, ackPending := 0, out := vc.out + [AckFrame(vc.nextToAck)])
  }

  /** Send a packet of the window again, with a fresh acknowledgement. */
  function Resend(vc: Vc, i: nat): Vc
    requires i < |vc.sendWindow|
  {
    vc.(ackNeeded := false,
        out := vc.out + [DataFrame(vc.sendWindow[i].seqnum, vc.nextToAck, vc.sendWindow[i].data)])
  }

  // ----- receiving -----

  /** The last number of the receive window that starts at `start`. */
  function WindowEnd(start: Seq16): Seq16 {
    if start + RECVWIN_SIZE > MAX_SEQ_NUM then start + RECVWIN_SIZE - MAX_SEQ_NUM else start + RECVWIN_SIZE
  }

  /** Accept the packet that is due. */
  function TakeNext(vc: Vc, data: Data): Vc {
    vc.(appWindow := vc.appWindow + [data], nextToAck := vc.nextToRecv, nextToRecv := Next(vc.nextToRecv))
  }

  /** Where a packet belongs in the list of early packets: behind those closer to `start`. */
  function PlaceOf(list: seq<Pkt>, x: Seq16, start: Seq16): (i: nat)
    ensures i <= |list|
  {
    if list == [] || Ahead(list[0].seqnum, start) >= Ahead(x, start) then 0
    else 1 + PlaceOf(list[1..], x, start)
  }

  /** Insert in order; a duplicate is dropped. */
  function InsertEarly(list: seq<Pkt>, p: Pkt, start: Seq16): seq<Pkt> {
    var i := PlaceOf(list, p.seqnum, start);
    if i < |list| && list[i].seqnum == p.seqnum then list else list[..i] + [p] + list[i..]
  }

  /** Move early packets over while the front one is due. */
  function Drain(vc: Vc): Vc
    decreases |vc.recvWindow|
  {
    if vc.recvWindow == [] || vc.recvWindow[0].seqnum != vc.nextToRecv then vc
    else Drain(TakeNext(vc.(recvWindow := vc.recvWindow[1..]), vc.recvWindow[0].data))
  }

  function PlaceRecv(vc: Vc, p: Pkt): Vc {
    if !InclBetween(p.seqnum, vc.nextToRecv, WindowEnd(vc.nextToRecv)) then vc.(ackNeeded := true)
    else if p.seqnum == vc.nextToRecv then Drain(TakeNext(vc, p.data).(ackNeeded := true))
    else Drain(vc.(recvWindow := InsertEarly(vc.recvWindow, p, vc.nextToRecv), ackNeeded := true))
  }

  function CountRecv(vc: Vc): Vc {
    var w := vc.(ackPending := vc.ackPending + 1);
    if w.ackPending > MAX_ACK_PENDING then SendAck(w) else w
  }

  function ProcessRecv(vc: Vc, f: Frame): Vc {
    var w := ProcessAck(vc, f.acknum);
    if f.AckFrame? then w
    else PlaceRecv(if f.data.accept then w else CountRecv(w), Pkt(f.seqnum, f.data))
  }

  // ----- the same, in place -----

  class VirtualChannel {
    var nextToSend: Seq16
    var nextToRecv: Seq16
    var nextToAck: Seq16
    var ackNeeded: bool
    var ackPending: nat
    var sendWindow: seq<Pkt>
    var extWindow: seq<Data>
    var recvWindow: seq<Pkt>
    var appWindow: seq<Data>
    var out: seq<Frame>

    ghost function State(): Vc
      reads this
    {
      Vc(nextToSend, nextToRecv, nextToAck, ackNeeded, ackPending, sendWindow, extWindow, recvWindow, appWindow, out)
    }

    constructor ()
      ensures State() == FRESH
    {
      nextToSend, nextToRecv, nextToAck := 0, 0, MAX_SEQ_NUM;
      ackNeeded, ackPending := false, 0;
      sendWindow, extWindow, recvWindow, appWindow, out := [], [], [], [], [];
    }

    /** Submit a packet.  `front` says that it is the head of the extended window. */
    method Post(data: Data, front: bool)
      requires front ==> |sendWindow| < SENDWIN_SIZE
      modifies this
      ensures State() == if front then Transmit(old(State()), data) else PostSend(old(State()), data)
      ensures out != old(out) ==> JustAcked(State()) && !ackNeeded && ackPending == 0
    {
      if |sendWindow| > SENDWIN_SIZE || (extWindow != [] && !front) {
        extWindow := extWindow + [data];
        return;
      }
      var seqnum := nextToSend;
      nextToSend := Next(nextToSend);
      ackNeeded := false;
      ackPending := 0;
      out := out + [DataFrame(seqnum, nextToAck, data)];
      sendWindow := sendWindow + [Pkt(seqnum, data)];
    }

    method FlushExtWindow()
      modifies this
      ensures State() == FlushExt(old(State()))
    {
      while extWindow != [] && |sendWindow| < SENDWIN_SIZE
        invariant FlushExt(State()) == FlushExt(old(State()))
        decreases |extWindow|
      {
        ghost var before := State();
        var cur := extWindow[0];
        var rest := extWindow[1..];
        Post(cur, true);
        extWindow := rest;
        assert State() == Transmit(before.(extWindow := before.extWindow[1..]), before.extWindow[0]);
      }
    }

    method ProcessAcknum(acknum: Seq16)
      modifies this
      ensures State() == ProcessAck(old(State()), acknum)
    {
      while sendWindow != [] && InclBetween(acknum, sendWindow[0].seqnum, nextToSend)
        invariant DropAcked(State(), acknum) == DropAcked(old(State()), acknum)
        decreases |sendWindow|
      {
        ghost var before := State();
        sendWindow := sendWindow[1..];
        assert State() == before.(sendWindow := before.sendWindow[1..]);
      }
      if extWindow != [] && |sendWindow| < SENDWIN_SIZE {
        FlushExtWindow();
      }
    }

    method SendExplicitAck()
      modifies this
      ensures State() == SendAck(old(State()))
      ensures JustAcked(State()) && !ackNeeded && ackPending == 0
    {
      out := out + [AckFrame(nextToAck)];
      ackNeeded := false;
      ackPending := 0;
    }

    /** Send an explicit acknowledgement if one is due. */
    method CheckAck()
      modifies this
      ensures State() == if old(ackNeeded) then SendAck(old(State())) else old(State())
      ensures !ackNeeded
    {
      if ackNeeded {
        SendExplicitAck();
      }
    }

    method ResendPacket(i: nat)
      requires i < |sendWindow|
      modifies this
      ensures State() == Resend(old(State()), i)
      ensures JustAcked(State()) && !ackNeeded && ackPending == old(ackPending)
    {
      ackNeeded := false;
      out := out + [DataFrame(sendWindow[i].seqnum, nextToAck, sendWindow[i].data)];
    }

    /** Where an early packet belongs.  The walk compares plain numbers and takes the wrap into
        account by cases: numbers above the start of the window come before numbers below it. */
    method FindPlace(x: Seq16) returns (i: nat)
      requires EarlyList(recvWindow, nextToRecv) && x != nextToRecv
      ensures i <= |recvWindow| && AllCloser(recvWindow, i, x, nextToRecv)
      ensures i < |recvWindow| ==> Ahead(recvWindow[i].seqnum, nextToRecv) >= Ahead(x, nextToRecv)
    {
      var start := nextToRecv;
      i := 0;
      if recvWindow != [] {
        if x > start {
          if recvWindow[0].seqnum < start {
          } else {
            while i < |recvWindow| && recvWindow[i].seqnum < x && recvWindow[i].seqnum > start
              invariant i <= |recvWindow|
              invariant AllCloser(recvWindow, i, x, start)
            {
              i := i + 1;
            }
          }
        } else {
          if recvWindow[0].seqnum > start {
            while i < |recvWindow| && (recvWindow[i].seqnum >= start || recvWindow[i].seqnum < x)
              invariant i <= |recvWindow|
              invariant AllCloser(recvWindow, i, x, start)
            {
              i := i + 1;
            }
          } else {
            while i < |recvWindow| && recvWindow[i].seqnum < x
              invariant i <= |recvWindow|
              invariant AllCloser(recvWindow, i, x, start)
              invariant forall j :: 0 <= j < |recvWindow| ==> recvWindow[j].seqnum < start
            {
              i := i + 1;
            }
          }
        }
      }
    }

    /** Insert an early packet in its place, or reject it as a duplicate. */
    method RecvWindowAdd(p: Pkt) returns (queued: bool)
      requires EarlyList(recvWindow, nextToRecv) && p.seqnum != nextToRecv
      modifies this`recvWindow
      ensures recvWindow == InsertEarly(old(recvWindow), p, nextToRecv)
      ensures queued <==> forall i :: 0 <= i < |old(recvWindow)| ==> old(recvWindow)[i].seqnum != p.seqnum
    {
      var i := FindPlace(p.seqnum);
      PlaceIs(recvWindow, p.seqnum, nextToRecv, i);
      hide PlaceOf, Ahead;
      if i < |recvWindow| && recvWindow[i].seqnum == p.seqnum {
        queued := false;
      } else {
        OnlyPlace(recvWindow, p.seqnum, nextToRecv, i);
        recvWindow := recvWindow[..i] + [p] + recvWindow[i..];
        queued := true;
      }
    }

    /** Whatever becomes of the packet, an acknowledgement is due. */
    method PlaceRecvwin(p: Pkt)
      requires EarlyList(recvWindow, nextToRecv)
      modifies this
      ensures State() == PlaceRecv(old(State()), p)
      ensures ackNeeded && ackPending == old(ackPending) && out == old(out)
    {
      PlaceKeepsCount(State(), p);
      var start := nextToRecv;
      var end := start + RECVWIN_SIZE;
      while end > MAX_SEQ_NUM
        invariant end == start + RECVWIN_SIZE || end == WindowEnd(start)
        decreases end
      {
        end := end - MAX_SEQ_NUM;
      }
      if InclBetween(p.seqnum, start, end) {
        if p.seqnum == nextToRecv {
          appWindow := appWindow + [p.data];
          nextToAck := nextToRecv;
          nextToRecv := Next(nextToRecv);
          ackNeeded := true;
        } else {
          var queued := RecvWindowAdd(p);
          ackNeeded := true;
        }
        ghost var ready := State();
        while recvWindow != [] && recvWindow[0].seqnum == nextToRecv
          invariant Drain(State()) == Drain(ready)
          decreases |recvWindow|
        {
          ghost var before := State();
          appWindow := appWindow + [recvWindow[0].data];
          recvWindow := recvWindow[1..];
          nextToAck := nextToRecv;
          nextToRecv := Next(nextToRecv);
          assert State() == TakeNext(before.(recvWindow := before.recvWindow[1..]), before.recvWindow[0].data);
        }
      } else {
        ackNeeded := true;
      }
    }

    /** Every data frame makes an acknowledgement due.  One that is not an ACCEPT packet also counts
        towards an explicit one, which is sent, before the packet is placed, when more than 100 have
        been counted. */
    method ProcessFrame(f: Frame)
      requires EarlyList(recvWindow, nextToRecv)
      modifies this
      ensures State() == ProcessRecv(old(State()), f)
      ensures var a := ProcessAck(old(State()), f.acknum);
              && (f.AckFrame? ==> State() == a)
              && (f.DataFrame? ==> ackNeeded)
              && (f.DataFrame? && f.data.accept ==> ackPending == a.ackPending && out == a.out)
              && (f.DataFrame? && !f.data.accept && a.ackPending < MAX_ACK_PENDING ==>
                    ackPending == a.ackPending + 1 && out == a.out)
              && (f.DataFrame? && !f.data.accept && a.ackPending >= MAX_ACK_PENDING ==>
                    ackPending == 0 && out == a.out + [AckFrame(old(nextToAck))])
    {
      ghost var s0 := State();
      FrameCounts(s0, f);
      ProcessAcknum(f.acknum);
      AckKeepsRecv(s0, f.acknum);
      if f.AckFrame? {
        return;
      }
      if f.data.accept {
        PlaceRecvwin(Pkt(f.seqnum, f.data));
        return;
      }
      ackPending := ackPending + 1;
      if ackPending > MAX_ACK_PENDING {
        SendExplicitAck();
      }
      PlaceRecvwin(Pkt(f.seqnum, f.data));
    }
  }

  /** The list of early packets is strictly ordered by distance from the start of the window,
      and none of them is due. */
  ghost predicate EarlyList(list: seq<Pkt>, start: Seq16) {
    && (forall i :: 0 <= i < |list| ==> list[i].seqnum != start)
    && (forall i, j :: 0 <= i < j < |list| ==> Ahead(list[i].seqnum, start) < Ahead(list[j].seqnum, start))
  }

  ghost predicate AllCloser(list: seq<Pkt>, n: nat, x: Seq16, start: Seq16) {
    forall i :: 0 <= i < n && i < |list| ==> Ahead(list[i].seqnum, start) < Ahead(x, start)
  }

  lemma {:induction false} PlaceIs(list: seq<Pkt>, x: Seq16, start: Seq16, i: nat)
    requires i <= |list| && AllCloser(list, i, x, start)
    requires i < |list| ==> Ahead(list[i].seqnum, start) >= Ahead(x, start)
    ensures PlaceOf(list, x, start) == i
    decreases |list|
  {
    if i > 0 {
      assert Ahead(list[0].seqnum, start) < Ahead(x, start);
      forall j | 0 <= j < i - 1 && j < |list[1..]| ensures Ahead(list[1..][j].seqnum, start) < Ahead(x, start) {
        assert list[1..][j] == list[j + 1];
      }
      PlaceIs(list[1..], x, start, i - 1);
    }
  }

  lemma OnlyPlace(list: seq<Pkt>, x: Seq16, start: Seq16, i: nat)
    requires EarlyList(list, start) && i <= |list| && AllCloser(list, i, x, start)
    requires i < |list| ==> Ahead(list[i].seqnum, start) >= Ahead(x, start) && list[i].seqnum != x
    ensures forall j :: 0 <= j < |list| ==> list[j].seqnum != x
  {
    forall j | 0 <= j < |list| ensures list[j].seqnum != x {
      if j > i {
        assert Ahead(list[i].seqnum, start) < Ahead(list[j].seqnum, start);
      }
    }
  }

  lemma {:induction false} DropKeepsRecv(vc: Vc, ack: Seq16)
    ensures var w := DropAcked(vc, ack);
            w.recvWindow == vc.recvWindow && w.nextToRecv == vc.nextToRecv && w.appWindow == vc.appWindow
    decreases |vc.sendWindow|
  {
    if vc.sendWindow != [] {
      DropKeepsRecv(vc.(sendWindow := vc.sendWindow[1..]), ack);
    }
  }

  lemma {:induction false} FlushKeepsRecv(vc: Vc)
    ensures var w := FlushExt(vc);
            w.recvWindow == vc.recvWindow && w.nextToRecv == vc.nextToRecv && w.appWindow == vc.appWindow
    decreases |vc.extWindow|
  {
    if vc.extWindow != [] && |vc.sendWindow| < SENDWIN_SIZE {
      FlushKeepsRecv(Transmit(vc.(extWindow := vc.extWindow[1..]), vc.extWindow[0]));
    }
  }

  lemma AckKeepsRecv(vc: Vc, ack: Seq16)
    ensures var w := ProcessAck(vc, ack);
            w.recvWindow == vc.recvWindow && w.nextToRecv == vc.nextToRecv && w.appWindow == vc.appWindow
  {
    DropKeepsRecv(vc, ack);
    FlushKeepsRecv(DropAcked(vc, ack));
  }

  /** Packets that the application has been given stay given. */
  lemma {:induction false} DrainGrows(vc: Vc)
    ensures vc.appWindow <= Drain(vc).appWindow
    decreases |vc.recvWindow|
  {
    if vc.recvWindow != [] && vc.recvWindow[0].seqnum == vc.nextToRecv {
      DrainGrows(TakeNext(vc.(recvWindow := vc.recvWindow[1..]), vc.recvWindow[0].data));
    }
  }

  lemma PlaceGrows(vc: Vc, p: Pkt)
    ensures vc.appWindow <= PlaceRecv(vc, p).appWindow
  {
    hide Drain, InsertEarly;
    DrainGrows(TakeNext(vc, p.data).(ackNeeded := true));
    DrainGrows(vc.(recvWindow := InsertEarly(vc.recvWindow, p, vc.nextToRecv), ackNeeded := true));
  }

  // ----- when acknowledgements are sent -----

  lemma {:induction false} DrainKeepsCount(vc: Vc)
    ensures var w := Drain(vc); w.ackNeeded == vc.ackNeeded && w.ackPending == vc.ackPending && w.out == vc.out
    decreases |vc.recvWindow|
  {
    if vc.recvWindow != [] && vc.recvWindow[0].seqnum == vc.nextToRecv {
      DrainKeepsCount(TakeNext(vc.(recvWindow := vc.recvWindow[1..]), vc.recvWindow[0].data));
    }
  }

  lemma PlaceKeepsCount(vc: Vc, p: Pkt)
    ensures var w := PlaceRecv(vc, p); w.ackNeeded && w.ackPending == vc.ackPending && w.out == vc.out
  {
    hide Drain, InsertEarly;
    DrainKeepsCount(TakeNext(vc, p.data).(ackNeeded := true));
    DrainKeepsCount(vc.(recvWindow := InsertEarly(vc.recvWindow, p, vc.nextToRecv), ackNeeded := true));
  }

  lemma {:induction false} DropKeepsCount(vc: Vc, ack: Seq16)
    ensures var w := DropAcked(vc, ack);
            && w.ackNeeded == vc.ackNeeded && w.ackPending == vc.ackPending && w.out == vc.out
            && w.nextToAck == vc.nextToAck
    decreases |vc.sendWindow|
  {
    if vc.sendWindow != [] {
      DropKeepsCount(vc.(sendWindow := vc.sendWindow[1..]), ack);
    }
  }

  /** The last frame that was sent acknowledges up to `vc.nextToAck`. */
  ghost predicate JustAcked(vc: Vc) {
    vc.out != [] && vc.out[|vc.out| - 1].acknum == vc.nextToAck
  }

  /** Flushing sends nothing, or packets that acknowledge and so start the count again. */
  lemma {:induction false} FlushCounts(vc: Vc)
    ensures var w := FlushExt(vc);
            && w.nextToAck == vc.nextToAck
            && (w == vc || (|w.sendWindow| > |vc.sendWindow| && w.ackPending == 0 && !w.ackNeeded && JustAcked(w)))
    decreases |vc.extWindow|
  {
    if vc.extWindow != [] && |vc.sendWindow| < SENDWIN_SIZE {
      FlushCounts(Transmit(vc.(extWindow := vc.extWindow[1..]), vc.extWindow[0]));
    }
  }

  lemma AckCounts(vc: Vc, ack: Seq16)
    ensures var w := ProcessAck(vc, ack);
            && w.nextToAck == vc.nextToAck
            && ((w.ackPending == vc.ackPending && w.ackNeeded == vc.ackNeeded && w.out == vc.out)
                || (w.ackPending == 0 && !w.ackNeeded && JustAcked(w)))
  {
    hide DropAcked, FlushExt;
    DropKeepsCount(vc, ack);
    FlushCounts(DropAcked(vc, ack));
  }

  /** What a frame does to the acknowledgements: exactly one more is counted, or exactly one
      explicit acknowledgement is sent for all that came before, or nothing is counted at all. */
  lemma FrameCounts(vc: Vc, f: Frame)
    ensures var a, w := ProcessAck(vc, f.acknum), ProcessRecv(vc, f);
            && a.nextToAck == vc.nextToAck
            && (f.AckFrame? ==> w == a)
            && (f.DataFrame? ==> w.ackNeeded)
            && (f.DataFrame? && f.data.accept ==> w.ackPending == a.ackPending && w.out == a.out)
            && (f.DataFrame? && !f.data.accept && a.ackPending < MAX_ACK_PENDING ==>
                  w.ackPending == a.ackPending + 1 && w.out == a.out)
            && (f.DataFrame? && !f.data.accept && a.ackPending >= MAX_ACK_PENDING ==>
                  w.ackPending == 0 && w.out == a.out + [AckFrame(vc.nextToAck)])
  {
    hide ProcessAck, PlaceRecv;
    AckCounts(vc, f.acknum);
    var a := ProcessAck(vc, f.acknum);
    if f.DataFrame? {
      PlaceKeepsCount(if f.data.accept then a else CountRecv(a), Pkt(f.seqnum, f.data));
    }
  }
}
