/** Byte streams over a reliable connection.

  A write is cut into packets and a read takes packets apart again, remembering how far it has
  read into the front packet and waiting for packets that have not arrived.  Whatever the sizes of
  the writes and of the reads, and however packets arrive meanwhile, the bytes read are the bytes
  written, in order. */
module ByteStream {
  import opened Confluence
  import opened Buffers
  import opened Transport
  import opened Reliable

  /** What fits in one packet: 2048 bytes less the 40 of the routing header and 24 of the packet header. */
  const PAYLOAD: nat := 1984

  // ----- writing -----

  /** The data packets with these payloads. */
  function Packets(ps: seq<Bytes>): (ds: seq<Data>)
    ensures |ds| == |ps| && forall i :: 0 <= i < |ps| ==> ds[i] == Data(false, ps[i])
  {
    seq(|ps|, i requires 0 <= i < |ps| => Data(false, ps[i]))
  }

  function PostAll(vc: Vc, ps: seq<Bytes>): Vc
    decreases |ps|
  {
    if ps == [] then vc else PostAll(PostSend(vc, Data(false, ps[0])), ps[1..])
  }

  /** The end after the packets have been posted. */
  ghost function PostData(s: End, ps: seq<Bytes>): End
    decreases |ps|
  {
    if ps == [] then s else PostData(AfterPost(s, Data(false, ps[0])), ps[1..])
  }

  /** Posting packets makes them the last ones of what has been posted, and does nothing else but
      keep the window in order. */
  lemma {:induction false} PostDataPosts(s: End, ps: seq<Bytes>)
    ensures var w := PostData(s, ps);
            && w.vc == PostAll(s.vc, ps) && w.low == s.low && w.vc.appWindow == s.vc.appWindow
            && w.posted == s.posted + Packets(ps) && (SendOk(s) ==> SendOk(w))
    decreases |ps|
  {
    hide PostSend, SendOk;
    if ps == [] {
      assert s.posted + Packets(ps) == s.posted;
    } else {
      var d := Data(false, ps[0]);
      PostOne(s, d);
      PostDataPosts(AfterPost(s, d), ps[1..]);
      assert s.posted + Packets(ps) == (s.posted + [d]) + Packets(ps[1..]);
    }
  }

  lemma PostOne(s: End, d: Data)
    ensures var w := AfterPost(s, d);
            && w.vc == PostSend(s.vc, d) && w.low == s.low && w.vc.appWindow == s.vc.appWindow
            && w.posted == s.posted + [d] && (SendOk(s) ==> SendOk(w))
  {
    if SendOk(s) { PostShape(s, d); }
  }

  /** The packets `ps` have been posted at an end that was `s` and whose channel is now `vc`. */
  ghost predicate HasPosted(s: End, vc: Vc, ps: seq<Bytes>) {
    exists w: End :: w.vc == vc && SendOk(w) && w.low == s.low && w.posted == s.posted + Packets(ps)
  }

  /** Write the bytes of `buf` to the channel, a packet at a time: the packets that are posted hold
      the bytes in order, none is empty and each fits. */
  method Write(ch: VirtualChannel, buf: Bytes) returns (ghost packets: seq<Bytes>)
    modifies ch
    ensures packets == Chunks(buf, PAYLOAD) && ch.State() == PostAll(old(ch.State()), packets)
    ensures Flat(packets) == buf && forall i :: 0 <= i < |packets| ==> 0 < |packets[i]| <= 1984
    ensures forall s: End :: SendOk(s) && s.vc == old(ch.State()) ==> HasPosted(s, ch.State(), packets)
  {
    hide PostSend, Transmit, SendOk;
    packets := Chunks(buf, PAYLOAD);
    ChunksFlat(buf, PAYLOAD);
    var nwritten := 0;
    assert buf[0..] == buf;
    while nwritten < |buf|
      invariant 0 <= nwritten <= |buf|
      invariant PostAll(ch.State(), Chunks(buf[nwritten..], PAYLOAD)) == PostAll(old(ch.State()), Chunks(buf, PAYLOAD))
    {
      var bytes := |buf| - nwritten;
      if bytes > PAYLOAD {
        bytes := PAYLOAD;
      }
      NextChunk(buf, nwritten, bytes, PAYLOAD);
      ch.Post(Data(false, buf[nwritten..nwritten + bytes]), false);
      nwritten := nwritten + bytes;
    }
    forall s: End | SendOk(s) && s.vc == old(ch.State()) ensures HasPosted(s, ch.State(), packets) {
      PostDataPosts(s, packets);
    }
  }

  // ----- reading -----

  /** The reading end: the packets that have arrived and not been read, the offset into the front
      one, the bytes that the current read still wants, and all bytes that reads have copied. */
  datatype Reader = Reader(queue: seq<Bytes>, nread: nat, want: nat, copied: Bytes)

  predicate ReaderOk(r: Reader) {
    if r.queue == [] then r.nread == 0 else r.nread <= |r.queue[0]|
  }

  /** The bytes that have arrived and not been read. */
  function Pending(r: Reader): Bytes
    requires ReaderOk(r)
  {
    if r.queue == [] then [] else r.queue[0][r.nread..] + Flat(r.queue[1..])
  }

  function Arrive(r: Reader, ps: seq<Bytes>): Reader { r.(queue := r.queue + ps) }

  /** One turn of the reading loop: copy what the read wants from the front packet, or all of it. */
  function TakeStep(r: Reader): Reader
    requires ReaderOk(r) && r.want > 0 && r.queue != []
  {
    var v := r.queue[0];
    if r.want < |v| - r.nread then
      r.(copied := r.copied + v[r.nread..r.nread + r.want], nread := r.nread + r.want, want := 0)
    else
      r.(copied := r.copied + v[r.nread..], queue := r.queue[1..], nread := 0, want := r.want - (|v| - r.nread))
  }

  /** Turns of the loop until the read has all it wants or must wait. */
  function Fill(r: Reader): Reader
    requires ReaderOk(r)
    decreases |r.queue|, r.want
  {
    if r.want == 0 || r.queue == [] then r else Fill(TakeStep(r))
  }

  /** A turn of the loop moves bytes from the front of what is pending to the end of what is copied. */
  lemma TakeMoves(r: Reader)
    requires ReaderOk(r) && r.want > 0 && r.queue != []
    ensures var t := TakeStep(r);
            && ReaderOk(t) && t.copied + Pending(t) == r.copied + Pending(r)
            && |t.copied| + t.want == |r.copied| + r.want && r.copied <= t.copied
  {
    var v, t := r.queue[0], TakeStep(r);
    if r.want < |v| - r.nread {
      var a, b, c, d := r.copied, v[r.nread..r.nread + r.want], v[r.nread + r.want..], Flat(r.queue[1..]);
      assert v[r.nread..] == b + c;
      Regroup(a, b, c, d);
    } else {
      assert Pending(t) == Flat(r.queue[1..]) by {
        if t.queue != [] { assert t.queue[0][0..] == t.queue[0]; }
      }
      Regroup(r.copied, v[r.nread..], [], Pending(t));
      assert v[r.nread..] + [] == v[r.nread..] && [] + Pending(t) == Pending(t);
    }
  }

  lemma Regroup(a: Bytes, b: Bytes, c: Bytes, d: Bytes)
    ensures (a + b) + (c + d) == a + ((b + c) + d)
  {
  }

  lemma ArriveAppends(r: Reader, ps: seq<Bytes>)
    requires ReaderOk(r)
    ensures ReaderOk(Arrive(r, ps)) && Pending(Arrive(r, ps)) == Pending(r) + Flat(ps)
  {
    var t := Arrive(r, ps);
    if r.queue == [] {
      assert t.queue == ps;
    } else {
      assert t.queue[1..] == r.queue[1..] + ps;
      FlatAppend(r.queue[1..], ps);
    }
  }

  lemma {:induction false} FillMoves(r: Reader)
    requires ReaderOk(r)
    ensures var t := Fill(r);
            && ReaderOk(t) && t.copied + Pending(t) == r.copied + Pending(r)
            && |t.copied| + t.want == |r.copied| + r.want && (t.want == 0 || t.queue == [])
    decreases |r.queue|, r.want
  {
    if r.want > 0 && r.queue != [] {
      TakeMoves(r);
      FillMoves(TakeStep(r));
    }
  }

  /** The receiving end of a channel. */
  class Inbox {
    var queue: seq<Bytes>
    var nread: nat

    ghost function State(want: nat, copied: Bytes): Reader
      reads this
    {
      Reader(queue, nread, want, copied)
    }

    ghost predicate Valid()
      reads this
    {
      ReaderOk(State(0, []))
    }

    /** The bytes that have arrived and not been read. */
    ghost function Unread(): Bytes
      requires Valid()
      reads this
    {
      Pending(State(0, []))
    }

    constructor ()
      ensures Valid() && Unread() == []
    {
      queue, nread := [], 0;
    }

    /** A packet arrives for the application. */
    method Add(p: Bytes)
      requires Valid()
      modifies this
      ensures Valid() && State(0, []) == Arrive(old(State(0, [])), [p]) && Unread() == old(Unread()) + p
    {
      ArriveAppends(State(0, []), [p]);
      assert Flat([p]) == p + Flat([]);
      queue := queue + [p];
    }

    /** Copy bytes into `buf` until it is full or the queue is empty; returns how many.  A read that
        finds the queue empty waits here and goes on when a packet has been added. */
    method ReadSome(buf: array<int>, from: nat) returns (upto: nat)
      requires Valid() && from <= buf.Length
      modifies this, buf
      ensures Valid() && from <= upto <= buf.Length && buf[..from] == old(buf[..from])
      ensures State(buf.Length - upto, buf[..upto]) == Fill(old(State(buf.Length - from, buf[..from])))
      ensures buf[from..upto] + Unread() == old(Unread()) && (upto == buf.Length || Unread() == [])
    {
      hide Fill, Pending;
      ghost var start := State(buf.Length - from, buf[..from]);
      FillMoves(start);
      upto := from;
      while upto < buf.Length && queue != []
        invariant from <= upto <= buf.Length && Valid() && buf[..from] == old(buf[..from])
        invariant Fill(State(buf.Length - upto, buf[..upto])) == Fill(start)
        decreases |queue|, buf.Length - upto
      {
        ghost var before := State(buf.Length - upto, buf[..upto]);
        FillStep(before);
        var v := queue[0];
        var payloadRemaining := |v| - nread;
        var remaining := buf.Length - upto;
        if remaining < payloadRemaining {
          CopyInto(buf, upto, v[nread..nread + remaining]);
          upto := upto + remaining;
          nread := nread + remaining;
        } else {
          CopyInto(buf, upto, v[nread..]);
          upto := upto + payloadRemaining;
          queue := queue[1..];
          nread := 0;
        }
        assert State(buf.Length - upto, buf[..upto]) == TakeStep(before);
      }
      ghost var end := State(buf.Length - upto, buf[..upto]);
      FillDone(end);
      SamePending(start);
      SamePending(end);
      assert buf[..upto] == buf[..from] + buf[from..upto];
      Cancel(buf[..from], buf[from..upto], Unread(), old(Unread()));
    }

    /** Fill `buf` with the next bytes, when they are all there. */
    method Read(buf: array<int>)
      requires Valid() && buf.Length <= |Unread()|
      modifies this, buf
      ensures Valid() && buf[..] == old(Unread())[..buf.Length] && Unread() == old(Unread())[buf.Length..]
    {
      hide Fill;
      var upto := ReadSome(buf, 0);
      assert buf[0..upto] == buf[..upto];
      assert upto == buf.Length;
      assert buf[..upto] == buf[..];
    }
  }

  lemma Cancel(p: Bytes, a: Bytes, b: Bytes, c: Bytes)
    requires (p + a) + b == p + c
    ensures a + b == c
  {
    assert (p + a) + b == p + (a + b);
    assert (p + (a + b))[|p|..] == a + b && (p + c)[|p|..] == c;
  }

  /** What is pending does not depend on the read in progress. */
  lemma SamePending(r: Reader)
    requires ReaderOk(r)
    ensures var q := Reader(r.queue, r.nread, 0, []);
            ReaderOk(q) && Pending(q) == Pending(r) && (r.queue == [] ==> Pending(q) == [])
  {
  }

  lemma FillStep(r: Reader)
    requires ReaderOk(r) && r.want > 0 && r.queue != []
    ensures Fill(r) == Fill(TakeStep(r)) && ReaderOk(TakeStep(r))
  {
  }

  lemma FillDone(r: Reader)
    requires ReaderOk(r) && (r.want == 0 || r.queue == [])
    ensures Fill(r) == r
  {
  }

  // ----- sessions -----

  /** A connection with an application that reads at one end and one that writes at the other;
      `asked` are the sizes of the reads and `wrote` the bytes of the writes. */
  datatype Session = Session(x: End, y: End, r: Reader, asked: seq<nat>, wrote: seq<Bytes>)

  /** Something happens on the connection, the application writes or asks for bytes, or the read in
      progress takes from the front packet. */
  datatype Happening = Net(a: Action) | Submit(buf: Bytes) | Ask(size: nat) | Take

  /** The end that the application reads at: the acceptor, or the connector. */
  function ReadingEnd(x: End, y: End, atAcceptor: bool): End { if atAcceptor then y else x }

  function WritingEnd(x: End, y: End, atAcceptor: bool): End { if atAcceptor then x else y }

  /** The payloads for the application.  At the connector, the ACCEPT packet comes before them. */
  function Stream(app: seq<Data>, atAcceptor: bool): (ps: seq<Bytes>) {
    var skip := if atAcceptor then 0 else 1;
    if |app| < skip then [] else seq(|app| - skip, i requires 0 <= i < |app| - skip => app[skip + i].bytes)
  }

  /** The packets that have come since. */
  function NewPackets(before: seq<Data>, after: seq<Data>, atAcceptor: bool): seq<Bytes> {
    var had, has := Stream(before, atAcceptor), Stream(after, atAcceptor);
    if |had| <= |has| then has[|had|..] else []
  }

  /** The writing end posts a packet. */
  predicate WriterPosts(a: Action, atAcceptor: bool) {
    a.e.Post? && a.First? == atAcceptor
  }

  /** The first packet that an end posts belongs to the connection setup; all others are posted by
      writes. */
  ghost function Happens(s: Session, h: Happening, atAcceptor: bool): Option<Session> {
    match h
    case Net(a) =>
      var m := Run(s.x, s.y, [a], LIMITS);
      if m.None? || (WriterPosts(a, atAcceptor) && WritingEnd(s.x, s.y, atAcceptor).posted != []) then None
      else
        var (x, y) := m.value;
        var ps := NewPackets(ReadingEnd(s.x, s.y, atAcceptor).vc.appWindow,
          ReadingEnd(x, y, atAcceptor).vc.appWindow, atAcceptor);
        Some(s.(x := x, y := y, r := Arrive(s.r, ps)))
    case Submit(buf) =>
      var w := PostData(WritingEnd(s.x, s.y, atAcceptor), Chunks(buf, PAYLOAD));
      if WritingEnd(s.x, s.y, atAcceptor).posted == [] then None
      else if atAcceptor then Some(s.(x := w, wrote := s.wrote + [buf]))
      else Some(s.(y := w, wrote := s.wrote + [buf]))
    case Ask(size) => if s.r.want > 0 then None else Some(s.(r := s.r.(want := size), asked := s.asked + [size]))
    case Take => if s.r.want == 0 || s.r.queue == [] || !ReaderOk(s.r) then None else Some(s.(r := TakeStep(s.r)))
  }

  ghost function Sessions(s: Session, hs: seq<Happening>, atAcceptor: bool): Option<Session>
    decreases |hs|
  {
    if hs == [] then Some(s)
    else
      var t := Happens(s, hs[0], atAcceptor);
      if t.None? then None else Sessions(t.value, hs[1..], atAcceptor)
  }

  function Sum(sizes: seq<nat>): nat {
    if sizes == [] then 0 else sizes[0] + Sum(sizes[1..])
  }

  lemma {:induction false} SumAppend(sizes: seq<nat>, n: nat)
    ensures Sum(sizes + [n]) == Sum(sizes) + n
  {
    if sizes == [] {
      assert sizes + [n] == [n] && [n][1..] == [];
    } else {
      assert (sizes + [n])[1..] == sizes[1..] + [n];
      SumAppend(sizes[1..], n);
    }
  }

  /** What has been copied and what is pending make up all that has arrived, and the reads have got
      what they asked for, except for what the current one still wants. */
  ghost predicate SessionOk(s: Session, atAcceptor: bool) {
    && ReaderOk(s.r)
    && s.r.copied + Pending(s.r) == Flat(Stream(ReadingEnd(s.x, s.y, atAcceptor).vc.appWindow, atAcceptor))
    && |s.r.copied| + s.r.want == Sum(s.asked)
    && WroteOk(WritingEnd(s.x, s.y, atAcceptor).posted, s.wrote)
  }

  /** Behind the packet of the connection setup, exactly what was written has been posted. */
  ghost predicate WroteOk(posted: seq<Data>, wrote: seq<Bytes>) {
    if posted == [] then wrote == [] else posted[1..] == Packets(AllChunks(wrote, PAYLOAD))
  }

  lemma WroteMore(s: End, wrote: seq<Bytes>, buf: Bytes)
    requires WroteOk(s.posted, wrote) && s.posted != []
    ensures var w := PostData(s, Chunks(buf, PAYLOAD));
            WroteOk(w.posted, wrote + [buf]) && w.vc.appWindow == s.vc.appWindow
  {
    hide Chunks, AllChunks, PostAll, PostData;
    var ps := Chunks(buf, PAYLOAD);
    PostDataPosts(s, ps);
    AllChunksAppend(wrote, buf, PAYLOAD);
    assert (s.posted + Packets(ps))[1..] == s.posted[1..] + Packets(ps);
    assert Packets(AllChunks(wrote, PAYLOAD) + ps) == Packets(AllChunks(wrote, PAYLOAD)) + Packets(ps);
  }

  /** Only posting posts. */
  lemma PostedStays(s: End, p: End, e: Event)
    requires Move(s, p, e, LIMITS).Some?
    ensures Move(s, p, e, LIMITS).value.posted == s.posted + if e.Post? then [e.data] else []
  {
    hide PostSend, ProcessAck, PlaceRecv, CountRecv, Resend, SendAck, DrainNumbers, InsertNumber;
  }

  lemma StreamGrows(before: seq<Data>, after: seq<Data>, atAcceptor: bool)
    requires before <= after
    ensures Flat(Stream(after, atAcceptor))
            == Flat(Stream(before, atAcceptor)) + Flat(NewPackets(before, after, atAcceptor))
  {
    var had, has := Stream(before, atAcceptor), Stream(after, atAcceptor);
    assert has == had + has[|had|..];
    FlatAppend(had, has[|had|..]);
  }

  lemma OneAction(x: End, y: End, a: Action, atAcceptor: bool, wrote: seq<Bytes>)
    requires Run(x, y, [a], LIMITS).Some? && WroteOk(WritingEnd(x, y, atAcceptor).posted, wrote)
    requires WriterPosts(a, atAcceptor) ==> WritingEnd(x, y, atAcceptor).posted == []
    ensures var (u, v) := Run(x, y, [a], LIMITS).value;
            && x.vc.appWindow <= u.vc.appWindow && y.vc.appWindow <= v.vc.appWindow
            && WroteOk(WritingEnd(u, v, atAcceptor).posted, wrote)
  {
    hide Move;
    assert [a][1..] == [];
    match a
    case First(e) =>
      AppGrows(x, y, e, LIMITS);
      PostedStays(x, y, e);
    case Second(e) =>
      AppGrows(y, x, e, LIMITS);
      PostedStays(y, x, e);
  }

  lemma HappensKeeps(s: Session, h: Happening, atAcceptor: bool)
    requires SessionOk(s, atAcceptor) && Happens(s, h, atAcceptor).Some?
    ensures SessionOk(Happens(s, h, atAcceptor).value, atAcceptor)
  {
    hide Stream, NewPackets, Run, Flat, Pending, WroteOk, PostData;
    match h
    case Net(a) =>
      OneAction(s.x, s.y, a, atAcceptor, s.wrote);
      var (x, y) := Run(s.x, s.y, [a], LIMITS).value;
      var before, after := ReadingEnd(s.x, s.y, atAcceptor).vc.appWindow, ReadingEnd(x, y, atAcceptor).vc.appWindow;
      StreamGrows(before, after, atAcceptor);
      ArriveAppends(s.r, NewPackets(before, after, atAcceptor));
    case Submit(buf) =>
      WroteMore(WritingEnd(s.x, s.y, atAcceptor), s.wrote, buf);
    case Ask(size) =>
      SumAppend(s.asked, size);
      assert Pending(s.r.(want := size)) == Pending(s.r) by { PendingSame(s.r, size); }
    case Take => TakeMoves(s.r);
  }

  lemma PendingSame(r: Reader, want: nat)
    requires ReaderOk(r)
    ensures ReaderOk(r.(want := want)) && Pending(r.(want := want)) == Pending(r)
  {
  }

  /** The actions of a write. */
  function PostActions(ps: seq<Bytes>, first: bool): (run: seq<Action>) {
    if ps == [] then []
    else
      var e := Event.Post(Data(false, ps[0]));
      [if first then First(e) else Second(e)] + PostActions(ps[1..], first)
  }

  lemma {:induction false} WriteRuns(x: End, y: End, ps: seq<Bytes>, first: bool)
    ensures Run(x, y, PostActions(ps, first), LIMITS)
            == Some(if first then (PostData(x, ps), y) else (x, PostData(y, ps)))
    decreases |ps|
  {
    hide AfterPost;
    if ps != [] {
      var d := Data(false, ps[0]);
      assert PostActions(ps, first)[1..] == PostActions(ps[1..], first);
      if first {
        WriteRuns(AfterPost(x, d), y, ps[1..], first);
      } else {
        WriteRuns(x, AfterPost(y, d), ps[1..], first);
      }
    }
  }

  /** Both ends of a session are where the actions on the connection alone would have led. */
  lemma {:induction false} SessionRuns(s: Session, hs: seq<Happening>, atAcceptor: bool) returns (run: seq<Action>)
    requires SessionOk(s, atAcceptor) && Sessions(s, hs, atAcceptor).Some?
    ensures var t := Sessions(s, hs, atAcceptor).value;
            SessionOk(t, atAcceptor) && Run(s.x, s.y, run, LIMITS) == Some((t.x, t.y))
    decreases |hs|
  {
    hide SessionOk, Run, Happens;
    if hs == [] {
      run := [];
      NoRun(s.x, s.y);
    } else {
      HappensKeeps(s, hs[0], atAcceptor);
      var t := Happens(s, hs[0], atAcceptor).value;
      var rest := SessionRuns(t, hs[1..], atAcceptor);
      var now := EndsAfter(s, hs[0], atAcceptor);
      RunAppend(s.x, s.y, now, rest, LIMITS);
      run := now + rest;
    }
  }

  lemma NoRun(x: End, y: End)
    ensures Run(x, y, [], LIMITS) == Some((x, y))
  {
  }

  lemma EndsAfter(s: Session, h: Happening, atAcceptor: bool) returns (run: seq<Action>)
    requires Happens(s, h, atAcceptor).Some?
    ensures var t := Happens(s, h, atAcceptor).value; Run(s.x, s.y, run, LIMITS) == Some((t.x, t.y))
  {
    hide Run, NewPackets, PostData;
    NoRun(s.x, s.y);
    run := [];
    match h
    case Net(a) =>
      run := [a];
      var m := Run(s.x, s.y, run, LIMITS);
      assert m == Some(m.value) && m.value == (m.value.0, m.value.1);
    case Submit(buf) =>
      run := PostActions(Chunks(buf, PAYLOAD), atAcceptor);
      WriteRuns(s.x, s.y, Chunks(buf, PAYLOAD), atAcceptor);
    case Ask(_) =>
    case Take =>
  }

  ghost function Opening(request: Data): Session {
    Session(Connector(request), Acceptor(), Reader([], 0, 0, []), [], [])
  }

  /** What has been delivered to the application is the first packets of what was written. */
  lemma StreamIsWritten(app: seq<Data>, posted: seq<Data>, wrote: seq<Bytes>, atAcceptor: bool)
    requires WroteOk(posted, wrote)
    requires if atAcceptor then posted != [] && app <= posted[1..] else app <= posted
    ensures Stream(app, atAcceptor) <= AllChunks(wrote, PAYLOAD)
    ensures app == (if atAcceptor then posted[1..] else posted) ==> Stream(app, atAcceptor) == AllChunks(wrote, PAYLOAD)
  {
    var ps, skip := AllChunks(wrote, PAYLOAD), if atAcceptor then 0 else 1;
    hide AllChunks, Packets;
    forall i | 0 <= i < |app| - skip ensures i < |ps| && app[skip + i].bytes == ps[i] {
      assert app[skip + i] == posted[1..][i];
    }
  }

  /** For any writes, any reads and any behaviour of the network, with packets arriving between and
      during the reads, in either direction: what the reads have copied is exactly the first bytes
      that the other end wrote, in order, as many as were asked for when no read is waiting; and once
      everything is acknowledged, all other bytes are there to be read. */
  lemma StreamDelivered(request: Data, hs: seq<Happening>, atAcceptor: bool)
    requires Sessions(Opening(request), hs, atAcceptor).Some?
    ensures var s := Sessions(Opening(request), hs, atAcceptor).value;
            var w := WritingEnd(s.x, s.y, atAcceptor);
            && s.r.copied <= Flat(s.wrote) && |s.r.copied| + s.r.want == Sum(s.asked)
            && (w.vc.sendWindow == [] && w.vc.extWindow == [] ==>
                  ReaderOk(s.r) && s.r.copied + Pending(s.r) == Flat(s.wrote))
  {
    hide Sessions, Run, ConnOk, Stream, WroteOk, Flat;
    assert SessionOk(Opening(request), atAcceptor) by { StartOk(request, atAcceptor); }
    var run := SessionRuns(Opening(request), hs, atAcceptor);
    var s := Sessions(Opening(request), hs, atAcceptor).value;
    ReliableDelivery(request, run);
    var app := ReadingEnd(s.x, s.y, atAcceptor).vc.appWindow;
    StreamIsWritten(app, WritingEnd(s.x, s.y, atAcceptor).posted, s.wrote, atAcceptor);
    FlatPrefix(Stream(app, atAcceptor), AllChunks(s.wrote, PAYLOAD));
    AllChunksFlat(s.wrote, PAYLOAD);
  }

  lemma StartOk(request: Data, atAcceptor: bool)
    ensures SessionOk(Opening(request), atAcceptor)
  {
    assert Stream([], atAcceptor) == [];
    assert [request][1..] == [] == Packets(AllChunks([], PAYLOAD));
  }
}
