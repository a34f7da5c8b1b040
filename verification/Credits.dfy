/** Send credits and packet buffers of a process.

  A buffer is handed to the network card only while there is a send credit; otherwise it waits
  in the extended send queue.  A data buffer stays in its channel's send window, and in the
  global queue of unacknowledged packets, until it is acknowledged, and goes back to the free
  list only when it is neither there nor with the card. */
module Credits {
  import opened Confluence
  import opened Lists

  type Buf = nat

  /** An entry of the unacknowledged queue: the channel of the packet and its buffer. */
  datatype Entry = Entry(vc: nat, buf: Buf)

  /** `avail` send credits are left; `wire` are the buffers with the card, `posted` in number;
      `uncredited` sends have completed but not been credited; `extq` waits for credits.
      `flying` and `pending` are the buffers marked send-in-progress and free-pending; `held` are
      in use outside of all queues; `spent` carried explicit acknowledgements. */
  datatype Ctx = Ctx(
    avail: int, posted: int, uncredited: nat, extq: seq<Buf>, wire: seq<Buf>,
    windows: map<nat, seq<Buf>>, unack: seq<Entry>,
    free: seq<Buf>, flying: set<Buf>, pending: set<Buf>, held: set<Buf>, spent: set<Buf>, total: nat)

  function Window(s: Ctx, c: nat): seq<Buf> { if c in s.windows then s.windows[c] else [] }

  // ----- operations -----

  /** Hand a buffer to the card, or queue it behind others that wait for credits. */
  function PostSr(s: Ctx, b: Buf): Ctx {
    if s.avail <= 0 || s.extq != [] then s.(extq := s.extq + [b])
    else s.(posted := s.posted + 1, avail := s.avail - 1, wire := s.wire + [b])
  }

  /** Send waiting buffers while there are credits. */
  function DrainExt(s: Ctx): Ctx
    decreases |s.extq|
  {
    if s.extq == [] || s.avail <= 0 then s
    else DrainExt(s.(extq := s.extq[1..], posted := s.posted + 1, avail := s.avail - 1, wire := s.wire + [s.extq[0]]))
  }

  function Credit(s: Ctx): Ctx {
    DrainExt(s.(avail := s.avail + s.uncredited, uncredited := 0))
  }

  /** Put a buffer on the free list, or mark it if its send is still in progress. */
  function Release(s: Ctx, b: Buf): Ctx {
    if b in s.flying then s.(pending := s.pending + {b}) else s.(free := [b] + s.free)
  }

  function Region(from: nat, pool: nat): (r: seq<Buf>)
    ensures |r| == pool && forall i :: 0 <= i < pool ==> r[i] == from + i
  {
    seq(pool, i requires 0 <= i < pool => from + i)
  }

  /** Allocate a region of `pool` new buffers. */
  function Grow(s: Ctx, pool: nat): Ctx {
    s.(free := Region(s.total, pool) + s.free, total := s.total + pool)
  }

  function Get(s: Ctx): Ctx
    requires s.free != []
  {
    var b := s.free[0];
    s.(free := s.free[1..], flying := s.flying - {b}, pending := s.pending - {b}, held := s.held + {b})
  }

  /** Send the data packet in buffer `b` on channel `c` and track it. */
  function Submit(s: Ctx, c: nat, b: Buf): Ctx {
    var t := PostSr(s.(flying := s.flying + {b}, held := s.held - {b}), b);
    t.(windows := t.windows[c := Window(t, c) + [b]], unack := t.unack + [Entry(c, b)])
  }

  /** Send an explicit acknowledgement in buffer `b`. */
  function SubmitAck(s: Ctx, b: Buf): Ctx {
    PostSr(s.(held := s.held - {b}, spent := s.spent + {b}), b)
  }

  function Removed<T>(q: seq<T>, i: nat): seq<T>
    requires i < |q|
  {
    q[..i] + q[i + 1..]
  }

  /** The card reports that the send of `wire[i]` has completed. */
  function Completed(s: Ctx, i: nat): Ctx
    requires i < |s.wire|
  {
    var b := s.wire[i];
    var t := s.(wire := Removed(s.wire, i), posted := s.posted - 1, uncredited := s.uncredited + 1);
    if b !in s.flying then t
    else if b !in s.pending then t.(flying := t.flying - {b})
    else Release(t.(flying := t.flying - {b}, pending := t.pending - {b}), b)
  }

  /** The position of a packet in the unacknowledged queue. */
  function Find(q: seq<Entry>, e: Entry): (i: nat)
    ensures i <= |q| && (i < |q| ==> q[i] == e) && (e in q ==> i < |q|)
  {
    if q == [] || q[0] == e then 0 else 1 + Find(q[1..], e)
  }

  /** The front packet of channel `c` is acknowledged. */
  function Acked(s: Ctx, c: nat): Ctx
    requires Window(s, c) != [] && Entry(c, Window(s, c)[0]) in s.unack
  {
    var b := Window(s, c)[0];
    Release(s.(windows := s.windows[c := Window(s, c)[1..]], unack := Removed(s.unack, Find(s.unack, Entry(c, b)))), b)
  }

  /** Send a packet of the unacknowledged queue again, unless it is still on its way. */
  function Resent(s: Ctx, i: nat): Ctx
    requires i < |s.unack|
  {
    var b := s.unack[i].buf;
    if b in s.flying then s
    else
      var t := s.(flying := s.flying + {b});
      if t.avail > 0 then t.(posted := t.posted + 1, avail := t.avail - 1, wire := t.wire + [b])
      else t.(extq := t.extq + [b])
  }

  // ----- what always holds -----

  ghost function Elems<T(!new)>(q: seq<T>): set<T> { set x | x in q }

  ghost function Bufs(q: seq<Entry>): (s: seq<Buf>)
    ensures |s| == |q| && forall i :: 0 <= i < |s| ==> s[i] == q[i].buf
  {
    seq(|q|, i requires 0 <= i < |q| => q[i].buf)
  }

  /** The buffers of channel `c`, in the order of the queue. */
  function OfVc(q: seq<Entry>, c: nat): seq<Buf> {
    if q == [] then [] else (if q[0].vc == c then [q[0].buf] else []) + OfVc(q[1..], c)
  }

  /** Credits are neither lost nor made up, and buffers wait only when there are none. */
  ghost predicate CreditsOk(s: Ctx, credits: nat) {
    && s.avail >= 0 && s.posted == |s.wire| && s.avail + s.posted + s.uncredited == credits
    && (s.extq != [] ==> s.avail == 0)
  }

  /** The queue of unacknowledged packets holds exactly the packets of all send windows. */
  ghost predicate WindowsOk(s: Ctx) {
    forall c :: OfVc(s.unack, c) == Window(s, c)
  }

  /** The buffers in each place: free, in use, carrying an acknowledgement, in a window, to be
      freed on completion; those marked in progress, and those with the card or waiting for it. */
  datatype Places = Places(
    free: set<Buf>, held: set<Buf>, spent: set<Buf>, win: set<Buf>, pending: set<Buf>, flying: set<Buf>, net: set<Buf>)

  ghost function PlacesOf(s: Ctx): Places {
    Places(Elems(s.free), s.held, s.spent, Elems(Bufs(s.unack)), s.pending, s.flying, Elems(s.wire + s.extq))
  }

  /** Every buffer is in one place only.  What is with the card or waits for it is marked in
      progress or carries an acknowledgement, and what is in progress is in a window or will be
      freed on completion. */
  ghost predicate PlacesOk(v: Places, total: nat) {
    && v.free !! v.held && v.free !! v.spent && v.free !! v.win && v.free !! v.pending
    && v.held !! v.spent && v.held !! v.win && v.held !! v.pending
    && v.spent !! v.win && v.spent !! v.pending && v.win !! v.pending
    && v.pending <= v.flying <= v.win + v.pending && v.flying <= v.net <= v.flying + v.spent
    && forall b :: b in v.free || b in v.held || b in v.spent || b in v.win || b in v.pending ==> b < total
  }

  ghost predicate ListsOk(s: Ctx) {
    NoDup(s.free) && NoDup(Bufs(s.unack)) && NoDup(s.wire + s.extq)
  }

  ghost predicate CtxOk(s: Ctx, credits: nat) {
    CreditsOk(s, credits) && WindowsOk(s) && ListsOk(s) && PlacesOk(PlacesOf(s), s.total)
  }

  // ----- lists of different elements -----

  lemma AppendOne<T(!new)>(q: seq<T>, x: T)
    requires NoDup(q) && x !in q
    ensures NoDup(q + [x]) && Elems(q + [x]) == Elems(q) + {x}
  {
  }

  lemma PrependOne<T(!new)>(q: seq<T>, x: T)
    requires NoDup(q) && x !in q
    ensures NoDup([x] + q) && Elems([x] + q) == Elems(q) + {x}
  {
  }

  lemma RemoveOne<T(!new)>(q: seq<T>, i: nat)
    requires NoDup(q) && i < |q|
    ensures NoDup(Removed(q, i)) && Elems(Removed(q, i)) == Elems(q) - {q[i]}
  {
    var r := Removed(q, i);
    forall j, k | 0 <= j < k < |r| ensures r[j] != r[k] {
      assert r[j] == q[if j < i then j else j + 1] && r[k] == q[if k < i then k else k + 1];
    }
    forall x | x in Elems(r) ensures x in Elems(q) && x != q[i] {
      var j :| 0 <= j < |r| && r[j] == x;
      assert r[j] == q[if j < i then j else j + 1];
    }
    forall x | x in Elems(q) && x != q[i] ensures x in Elems(r) {
      var j :| 0 <= j < |q| && q[j] == x;
      assert r[if j < i then j else j - 1] == x;
    }
  }

  lemma {:induction false} OfVcAppend(q: seq<Entry>, e: Entry, c: nat)
    ensures OfVc(q + [e], c) == OfVc(q, c) + if e.vc == c then [e.buf] else []
  {
    if q == [] {
      assert q + [e] == [e] && [e][1..] == [];
    } else {
      var r := q + [e];
      assert r[1..] == q[1..] + [e] && r[0] == q[0];
      OfVcAppend(q[1..], e, c);
      calc {
        OfVc(r, c);
        (if q[0].vc == c then [q[0].buf] else []) + OfVc(q[1..] + [e], c);
        OfVc(q, c) + (if e.vc == c then [e.buf] else []);
      }
    }
  }

  /** Taking the front packet of a channel out of the queue takes it off that channel's list. */
  lemma {:induction false} OfVcRemove(q: seq<Entry>, i: nat, c: nat)
    requires i < |q| && NoDup(Bufs(q))
    requires OfVc(q, q[i].vc) != [] && OfVc(q, q[i].vc)[0] == q[i].buf
    ensures OfVc(Removed(q, i), c) == if c == q[i].vc then OfVc(q, c)[1..] else OfVc(q, c)
    decreases |q|
  {
    if i == 0 {
      assert Removed(q, 0) == q[1..];
    } else {
      var r := Removed(q, i);
      assert r == [q[0]] + Removed(q[1..], i - 1) && r[1..] == Removed(q[1..], i - 1);
      assert Bufs(q)[0] != Bufs(q)[i];
      assert q[0].vc != q[i].vc;
      assert Bufs(q[1..]) == Bufs(q)[1..];
      OfVcRemove(q[1..], i - 1, c);
    }
  }

  // ----- every operation keeps it -----

  /** A buffer that is not there yet joins the card's buffers or the waiting ones. */
  lemma PostSrNet(s: Ctx, b: Buf, credits: nat)
    requires CreditsOk(s, credits) && NoDup(s.wire + s.extq) && b !in s.wire + s.extq
    ensures var t := PostSr(s, b);
            && CreditsOk(t, credits) && NoDup(t.wire + t.extq) && Elems(t.wire + t.extq) == Elems(s.wire + s.extq) + {b}
            && t == s.(avail := t.avail, posted := t.posted, wire := t.wire, extq := t.extq)
  {
    var t := PostSr(s, b);
    assert t.wire + t.extq == (s.wire + s.extq) + [b];
    AppendOne(s.wire + s.extq, b);
  }

  lemma {:induction false} DrainNet(s: Ctx, credits: nat)
    requires s.avail >= 0 && s.posted == |s.wire| && s.avail + s.posted + s.uncredited == credits
    ensures var t := DrainExt(s);
            && CreditsOk(t, credits) && t.wire + t.extq == s.wire + s.extq && t.uncredited == s.uncredited
            && t == s.(avail := t.avail, posted := t.posted, wire := t.wire, extq := t.extq)
    decreases |s.extq|
  {
    if s.extq != [] && s.avail > 0 {
      var u := s.(extq := s.extq[1..], posted := s.posted + 1, avail := s.avail - 1, wire := s.wire + [s.extq[0]]);
      assert u.wire + u.extq == s.wire + s.extq;
      DrainNet(u, credits);
    }
  }

  lemma CreditKeeps(s: Ctx, credits: nat)
    requires CtxOk(s, credits)
    ensures CtxOk(Credit(s), credits)
  {
    hide DrainExt, PlacesOk, NoDup;
    var u := s.(avail := s.avail + s.uncredited, uncredited := 0);
    DrainNet(u, credits);
    var t := Credit(s);
    assert forall c :: Window(t, c) == Window(s, c);
  }

  lemma GetKeeps(s: Ctx, credits: nat)
    requires CtxOk(s, credits) && s.free != []
    ensures CtxOk(Get(s), credits)
  {
    hide OfVc;
    var b, t := s.free[0], Get(s);
    assert s.free[1..] == Removed(s.free, 0);
    RemoveOne(s.free, 0);
    assert b in Elems(s.free);
    assert forall c :: Window(t, c) == Window(s, c);
    assert t.flying == s.flying && t.pending == s.pending;
    hide NoDup, Elems;
    assert PlacesOf(t) == PlacesOf(s).(free := Elems(t.free), held := s.held + {b});
  }

  lemma GrowKeeps(s: Ctx, pool: nat, credits: nat)
    requires CtxOk(s, credits)
    ensures CtxOk(Grow(s, pool), credits)
  {
    hide OfVc;
    var t := Grow(s, pool);
    assert forall c :: Window(t, c) == Window(s, c);
    assert t.free == Region(s.total, pool) + s.free;
    forall i | 0 <= i < |s.free| ensures s.free[i] in Elems(s.free) && s.free[i] < s.total {
      assert s.free[i] in PlacesOf(s).free;
    }
    assert forall b :: b in Elems(t.free) ==> b in Elems(s.free) || s.total <= b < t.total;
    assert NoDup(t.free);
    hide NoDup, Elems;
    assert PlacesOf(t) == PlacesOf(s).(free := Elems(t.free));
  }

  lemma SubmitAckKeeps(s: Ctx, b: Buf, credits: nat)
    requires CtxOk(s, credits) && b in s.held
    ensures CtxOk(SubmitAck(s, b), credits)
  {
    hide OfVc, NoDup;
    var u := s.(held := s.held - {b}, spent := s.spent + {b});
    assert b !in Elems(s.wire + s.extq);
    PostSrNet(u, b, credits);
    hide Elems, PostSr;
    var t := SubmitAck(s, b);
    assert forall c :: Window(t, c) == Window(s, c);
    assert PlacesOf(t) == PlacesOf(s).(held := s.held - {b}, spent := s.spent + {b},
           net := Elems(s.wire + s.extq) + {b});
  }

  lemma SubmitKeeps(s: Ctx, c: nat, b: Buf, credits: nat)
    requires CtxOk(s, credits) && b in s.held
    ensures CtxOk(Submit(s, c, b), credits)
  {
    hide OfVc, NoDup;
    var u := s.(flying := s.flying + {b}, held := s.held - {b});
    assert b !in Elems(s.wire + s.extq) && b !in Elems(Bufs(s.unack));
    PostSrNet(u, b, credits);
    AppendOne(Bufs(s.unack), b);
    var t := Submit(s, c, b);
    assert Bufs(t.unack) == Bufs(s.unack) + [b];
    hide Elems, PostSr;
    forall d ensures OfVc(t.unack, d) == Window(t, d) {
      OfVcAppend(s.unack, Entry(c, b), d);
    }
    assert PlacesOf(t) == PlacesOf(s).(held := s.held - {b}, flying := s.flying + {b},
           win := Elems(Bufs(s.unack)) + {b},
                                       net := Elems(s.wire + s.extq) + {b});
  }

  lemma ResentKeeps(s: Ctx, i: nat, credits: nat)
    requires CtxOk(s, credits) && i < |s.unack|
    ensures CtxOk(Resent(s, i), credits)
  {
    hide OfVc, NoDup;
    var b := s.unack[i].buf;
    assert Bufs(s.unack)[i] == b;
    if b !in s.flying {
      var u := s.(flying := s.flying + {b});
      assert b in Elems(Bufs(s.unack)) && b !in Elems(s.wire + s.extq);
      PostSrNet(u, b, credits);
      var t := Resent(s, i);
      assert t == PostSr(u, b);
      hide Elems, PostSr, Resent;
      assert forall c :: Window(t, c) == Window(s, c);
      assert PlacesOf(t) == PlacesOf(s).(flying := s.flying + {b}, net := Elems(s.wire + s.extq) + {b});
    }
  }

  /** Buffer `b` is nowhere any more, unless its send is in progress: releasing it is right. */
  lemma ReleaseKeeps(s: Ctx, b: Buf, credits: nat)
    requires CreditsOk(s, credits) && WindowsOk(s) && ListsOk(s) && b < s.total
    requires var v := PlacesOf(s);
             && b !in v.free && b !in v.held && b !in v.spent && b !in v.win && b !in v.pending
               && (b in v.net ==> b in v.flying)
             && PlacesOk(v.(pending := if b in s.flying then v.pending + {b} else v.pending), s.total)
    ensures CtxOk(Release(s, b), credits)
  {
    hide OfVc, CreditsOk;
    var t := Release(s, b);
    assert forall c :: Window(t, c) == Window(s, c);
    assert CreditsOk(t, credits) by { SameCredits(s, t, credits); }
    if b !in s.flying {
      PrependOne(s.free, b);
      hide NoDup, Elems;
      assert PlacesOf(t) == PlacesOf(s).(free := Elems(s.free) + {b});
    } else {
      hide NoDup, Elems;
      assert PlacesOf(t) == PlacesOf(s).(pending := s.pending + {b});
    }
  }

  lemma SameCredits(s: Ctx, t: Ctx, credits: nat)
    requires CreditsOk(s, credits) && t.avail == s.avail && t.posted == s.posted && t.uncredited == s.uncredited
    requires t.wire == s.wire && t.extq == s.extq
    ensures CreditsOk(t, credits)
  {
  }

  lemma DropKeeps(s: Ctx, b: Buf, credits: nat)
    requires CtxOk(s, credits) && b in s.held
    ensures CtxOk(Release(s.(held := s.held - {b}), b), credits)
  {
    hide OfVc, NoDup, Elems;
    var u := s.(held := s.held - {b});
    assert forall c :: Window(u, c) == Window(s, c);
    assert PlacesOf(u) == PlacesOf(s).(held := s.held - {b});
    ReleaseKeeps(u, b, credits);
  }

  lemma CompletedKeeps(s: Ctx, i: nat, credits: nat)
    requires CtxOk(s, credits) && i < |s.wire|
    ensures CtxOk(Completed(s, i), credits)
  {
    hide OfVc;
    var b := s.wire[i];
    var t := s.(wire := Removed(s.wire, i), posted := s.posted - 1, uncredited := s.uncredited + 1);
    assert t.wire + t.extq == Removed(s.wire + s.extq, i) && (s.wire + s.extq)[i] == b;
    RemoveOne(s.wire + s.extq, i);
    assert b in Elems(s.wire + s.extq);
    assert CreditsOk(t, credits);
    hide NoDup, Elems, CreditsOk;
    assert forall c :: Window(t, c) == Window(s, c);
    var v := PlacesOf(s);
    assert PlacesOf(t) == v.(net := v.net - {b});
    if b in s.flying {
      var w := t.(flying := t.flying - {b}, pending := t.pending - {b});
      assert forall c :: Window(w, c) == Window(s, c);
      assert CreditsOk(w, credits) by { SameCredits(t, w, credits); }
      assert PlacesOf(w) == v.(net := v.net - {b}, flying := v.flying - {b}, pending := v.pending - {b});
      if b in s.pending {
        ReleaseKeeps(w, b, credits);
      } else {
        assert w == t.(flying := t.flying - {b});
      }
    }
  }

  lemma FrontIsThere(s: Ctx, c: nat)
    requires WindowsOk(s) && Window(s, c) != []
    ensures Entry(c, Window(s, c)[0]) in s.unack
  {
    OfVcIn(s.unack, c, 0);
  }

  lemma {:induction false} OfVcIn(q: seq<Entry>, c: nat, i: nat)
    requires i < |OfVc(q, c)|
    ensures Entry(c, OfVc(q, c)[i]) in q
  {
    if q[0].vc == c {
      if i > 0 { OfVcIn(q[1..], c, i - 1); }
    } else {
      OfVcIn(q[1..], c, i);
    }
  }

  lemma AckedKeeps(s: Ctx, c: nat, credits: nat)
    requires CtxOk(s, credits) && Window(s, c) != []
    ensures Entry(c, Window(s, c)[0]) in s.unack && CtxOk(Acked(s, c), credits)
  {
    FrontIsThere(s, c);
    hide OfVc;
    var b := Window(s, c)[0];
    var i := Find(s.unack, Entry(c, b));
    var u := s.(windows := s.windows[c := Window(s, c)[1..]], unack := Removed(s.unack, i));
    assert Bufs(u.unack) == Removed(Bufs(s.unack), i) && Bufs(s.unack)[i] == b;
    RemoveOne(Bufs(s.unack), i);
    assert b in Elems(Bufs(s.unack));
    assert CreditsOk(u, credits);
    hide NoDup, Elems, CreditsOk, Find;
    forall d ensures OfVc(u.unack, d) == Window(u, d) {
      OfVcRemove(s.unack, i, d);
    }
    var v := PlacesOf(s);
    assert PlacesOf(u) == v.(win := v.win - {b});
    ReleaseKeeps(u, b, credits);
  }

  // ----- whole runs -----

  datatype Act =
    | DoGrow(pool: nat) | DoGet | DoSubmit(vc: nat, b: Buf) | DoSubmitAck(b: Buf) | DoDrop(b: Buf)
    | DoComplete(i: nat) | DoCredit | DoAck(vc: nat) | DoResend(i: nat)

  /** The operations in any order, each when there is something for it to work on. */
  function ActStep(s: Ctx, a: Act): Option<Ctx> {
    match a
    case DoGrow(pool) => Some(Grow(s, pool))
    case DoGet => if s.free == [] then None else Some(Get(s))
    case DoSubmit(c, b) => if b in s.held then Some(Submit(s, c, b)) else None
    case DoSubmitAck(b) => if b in s.held then Some(SubmitAck(s, b)) else None
    case DoDrop(b) => if b in s.held then Some(Release(s.(held := s.held - {b}), b)) else None
    case DoComplete(i) => if i < |s.wire| then Some(Completed(s, i)) else None
    case DoCredit => Some(Credit(s))
    case DoAck(c) => if Window(s, c) != [] && Entry(c, Window(s, c)[0]) in s.unack then Some(Acked(s, c)) else None
    case DoResend(i) => if i < |s.unack| then Some(Resent(s, i)) else None
  }

  lemma ActKeeps(s: Ctx, a: Act, credits: nat)
    requires CtxOk(s, credits) && ActStep(s, a).Some?
    ensures CtxOk(ActStep(s, a).value, credits)
  {
    hide CtxOk, Grow, Get, Submit, SubmitAck, Release, Completed, Credit, Acked, Resent;
    match a
    case DoGrow(pool) => GrowKeeps(s, pool, credits);
    case DoGet => GetKeeps(s, credits);
    case DoSubmit(c, b) => SubmitKeeps(s, c, b, credits);
    case DoSubmitAck(b) => SubmitAckKeeps(s, b, credits);
    case DoDrop(b) => DropKeeps(s, b, credits);
    case DoComplete(i) => CompletedKeeps(s, i, credits);
    case DoCredit => CreditKeeps(s, credits);
    case DoAck(c) => AckedKeeps(s, c, credits);
    case DoResend(i) => ResentKeeps(s, i, credits);
  }

  function ActRun(s: Ctx, acts: seq<Act>): Option<Ctx>
    decreases |acts|
  {
    if acts == [] then Some(s)
    else
      var t := ActStep(s, acts[0]);
      if t.None? then None else ActRun(t.value, acts[1..])
  }

  lemma {:induction false} ActRunKeeps(s: Ctx, acts: seq<Act>, credits: nat)
    requires CtxOk(s, credits) && ActRun(s, acts).Some?
    ensures CtxOk(ActRun(s, acts).value, credits)
    decreases |acts|
  {
    hide CtxOk, ActStep;
    if acts != [] {
      ActKeeps(s, acts[0], credits);
      ActRunKeeps(ActStep(s, acts[0]).value, acts[1..], credits);
    }
  }

  function Initial(credits: nat): Ctx {
    Ctx(credits, 0, 0, [], [], map[], [], [], {}, {}, {}, {}, 0)
  }

  /** In every state that any sequence of operations reaches: credits are conserved, buffers wait
      only when there are none, the unacknowledged queue is made up of the send windows, in order,
      no buffer is on the free list twice, and none is there while it is with the card, waits for
      it, is marked in progress or is in a window. */
  lemma BuffersAndCredits(credits: nat, acts: seq<Act>)
    requires ActRun(Initial(credits), acts).Some?
    ensures var s := ActRun(Initial(credits), acts).value;
            && s.avail + |s.wire| + s.uncredited == credits && s.posted == |s.wire|
            && (s.extq != [] ==> s.avail == 0)
            && (forall c :: OfVc(s.unack, c) == Window(s, c))
            && NoDup(s.free)
            && (forall b :: b in s.free ==>
                  b !in s.wire && b !in s.extq && b !in s.flying && b !in s.held && b !in Bufs(s.unack))
  {
    assert CtxOk(Initial(credits), credits);
    ActRunKeeps(Initial(credits), acts, credits);
    hide ActRun, OfVc;
    var s := ActRun(Initial(credits), acts).value;
    forall b | b in s.free
      ensures b !in s.wire && b !in s.extq && b !in s.flying && b !in s.held && b !in Bufs(s.unack)
    {
      assert b in Elems(s.free) && b !in Elems(Bufs(s.unack)) && b !in Elems(s.wire + s.extq);
    }
  }

  // ----- the same, in place -----

  /** `b` has gone to the card on a credit, or waits last in line because there is none. */
  ghost predicate OnItsWay(s: Ctx, t: Ctx, b: Buf) {
    || (s.avail > 0 && t.avail == s.avail - 1 && t.wire == s.wire + [b] && t.extq == s.extq == [])
    || (s.avail == 0 && t.avail == 0 && t.wire == s.wire && t.extq == s.extq + [b])
  }

  class UdContext {
    var avail: int
    var posted: int
    var uncredited: nat
    var extq: seq<Buf>
    var wire: seq<Buf>
    var windows: map<nat, seq<Buf>>
    var unack: seq<Entry>
    var free: seq<Buf>
    var flying: set<Buf>
    var pending: set<Buf>
    var held: set<Buf>
    var spent: set<Buf>
    var total: nat
    ghost const credits: nat

    function State(): Ctx
      reads this
    {
      Ctx(avail, posted, uncredited, extq, wire, windows, unack, free, flying, pending, held, spent, total)
    }

    ghost predicate Valid()
      reads this
    {
      CtxOk(State(), credits)
    }

    constructor (credits: nat)
      ensures Valid() && this.credits == credits && State() == Initial(credits)
    {
      avail, posted, uncredited, extq, wire := credits, 0, 0, [], [];
      windows, unack, free, flying, pending, held, spent, total := map[], [], [], {}, {}, {}, {}, 0;
      this.credits := credits;
    }

    /** Hand a buffer to the card if there is a credit and nobody waits, else line it up. */
    method PostSendRequest(b: Buf)
      requires CreditsOk(State(), credits)
      modifies this
      ensures CreditsOk(State(), credits) && OnItsWay(old(State()), State(), b) && State() == PostSr(old(State()), b)
    {
      if avail <= 0 || extq != [] {
        extq := extq + [b];
      } else {
        posted := posted + 1;
        avail := avail - 1;
        wire := wire + [b];
      }
    }

    /** Send a data packet on channel `c`: it is tracked as the last one of its window and of the
        unacknowledged queue, and no other channel is affected. */
    method PostSend(c: nat, b: Buf)
      requires Valid() && b in held
      modifies this
      ensures Valid() && State() == Submit(old(State()), c, b)
      ensures OnItsWay(old(State()), State(), b) && b in flying && b !in held
      ensures unack == old(unack) + [Entry(c, b)]
      ensures forall d :: Window(State(), d) == old(Window(State(), d)) + if d == c then [b] else []
    {
      hide CtxOk, OfVc;
      SubmitKeeps(State(), c, b, credits);
      CreditsOf(State(), credits);
      held := held - {b};
      flying := flying + {b};
      PostSendRequest(b);
      windows := windows[c := (if c in windows then windows[c] else []) + [b]];
      unack := unack + [Entry(c, b)];
    }

    /** Send an explicit acknowledgement: no window and no mark changes. */
    method SendExplicitAck(b: Buf)
      requires Valid() && b in held
      modifies this
      ensures Valid() && State() == SubmitAck(old(State()), b)
      ensures OnItsWay(old(State()), State(), b) && b in spent && b !in held
      ensures windows == old(windows) && unack == old(unack) && flying == old(flying) && free == old(free)
    {
      hide CtxOk;
      SubmitAckKeeps(State(), b, credits);
      CreditsOf(State(), credits);
      held := held - {b};
      spent := spent + {b};
      PostSendRequest(b);
    }

    /** Add the credits of completed sends and issue waiting ones: those on the card and those in
        line stay in the same order, and afterwards nobody waits while there is a credit. */
    method UpdateSendCredits()
      requires Valid()
      modifies this
      ensures Valid() && State() == Credit(old(State()))
      ensures wire + extq == old(wire + extq) && uncredited == 0 && (extq == [] || avail == 0)
    {
      hide CtxOk;
      CreditKeeps(State(), credits);
      CreditOrder(State(), credits);
      avail := avail + uncredited;
      uncredited := 0;
      while extq != [] && avail > 0
        invariant DrainExt(State()) == Credit(old(State()))
        decreases |extq|
      {
        var cur := extq[0];
        extq := extq[1..];
        posted := posted + 1;
        avail := avail - 1;
        wire := wire + [cur];
      }
    }

    /** Put a buffer on the free list, or leave it marked until its send completes. */
    method ReleaseBuffer(b: Buf)
      modifies this
      ensures State() == Release(old(State()), b)
      ensures b in free[..|free| - |old(free)|] <==> b !in flying
    {
      if b in flying {
        pending := pending + {b};
        return;
      }
      free := [b] + free;
    }

    /** Release a buffer that is in use: it is free at once, as it is not with the card. */
    method DropBuffer(b: Buf)
      requires Valid() && b in held
      modifies this
      ensures Valid() && free == [b] + old(free) && held == old(held) - {b} && b !in wire && b !in extq
    {
      hide CtxOk;
      DropKeeps(State(), b, credits);
      HeldNotFlying(State(), b, credits);
      held := held - {b};
      ReleaseBuffer(b);
    }

    /** Get a buffer that is in no other place: not with the card, not waiting, not in a window and
        with no mark. */
    method GetBuffer(pool: nat) returns (b: Buf)
      requires Valid() && pool > 0
      modifies this
      ensures Valid() && b !in old(held) && held == old(held) + {b} && b !in free
      ensures b !in wire && b !in extq && b !in flying && b !in pending && b !in Bufs(unack)
      ensures unack == old(unack) && wire == old(wire) && extq == old(extq) && windows == old(windows)
      ensures old(free) != [] ==> b == old(free)[0] && free == old(free)[1..] && total == old(total)
    {
      hide CtxOk;
      if free == [] {
        GrowKeeps(State(), pool, credits);
        free := Region(total, pool) + free;
        total := total + pool;
      }
      b := free[0];
      GetKeeps(State(), credits);
      FreeIsNowhere(State(), credits, 0);
      free := free[1..];
      flying, pending := flying - {b}, pending - {b};
      held := held + {b};
    }

    /** A send has completed: one credit is due, and the buffer is free now if it was only waiting
        for this; a packet still in a window may be sent again. */
    method SendCompleted(i: nat)
      requires Valid() && i < |wire|
      modifies this
      ensures Valid() && State() == Completed(old(State()), i)
      ensures uncredited == old(uncredited) + 1 && avail == old(avail) && unack == old(unack) && windows == old(windows)
      ensures var b := old(wire)[i];
              && b !in flying && b !in wire && b !in extq
              && (b in old(pending) ==> free == [b] + old(free)) && (b !in old(pending) ==> free == old(free))
    {
      var b := wire[i];
      hide CtxOk, Removed;
      CompletedKeeps(State(), i, credits);
      OffTheWire(State(), i, credits);
      wire := Removed(wire, i);
      uncredited := uncredited + 1;
      posted := posted - 1;
      if b in flying {
        flying := flying - {b};
        if b in pending {
          pending := pending - {b};
          ReleaseBuffer(b);
        }
      }
    }

    /** The front packet of channel `c` is acknowledged: it leaves its window and the unacknowledged
        queue, other channels keep theirs, and its buffer is free unless the card still has it. */
    method PacketAcked(c: nat)
      requires Valid() && Window(State(), c) != []
      modifies this
      ensures var b := old(Window(State(), c)[0]);
              && b !in Bufs(unack)
              && (b in flying ==> b in pending && free == old(free)) && (b !in flying ==> free == [b] + old(free))
      ensures Valid() && forall d :: Window(State(), d) == if d == c then old(Window(State(), d))[1..]
              else old(Window(State(), d))
      ensures wire == old(wire) && extq == old(extq) && flying == old(flying)
    {
      hide CtxOk, Find, Removed;
      AckedKeeps(State(), c, credits);
      AckedIsGone(State(), c, credits);
      var b := windows[c][0];
      windows := windows[c := windows[c][1..]];
      unack := Removed(unack, Find(unack, Entry(c, b)));
      ReleaseBuffer(b);
    }

    /** Send an unacknowledged packet again, unless its last send is still in progress; the queues of
        packets do not change. */
    method ResendPacket(i: nat)
      requires Valid() && i < |unack|
      modifies this
      ensures Valid() && State() == Resent(old(State()), i)
      ensures unack == old(unack) && windows == old(windows) && free == old(free) && unack[i].buf in flying
      ensures old(unack[i].buf in flying) ==> State() == old(State())
      ensures old(unack[i].buf !in flying) ==> OnItsWay(old(State()), State(), unack[i].buf)
    {
      hide CtxOk;
      ResentKeeps(State(), i, credits);
      CreditsOf(State(), credits);
      var b := unack[i].buf;
      if b in flying { return; }
      flying := flying + {b};
      if avail > 0 {
        posted := posted + 1;
        avail := avail - 1;
        wire := wire + [b];
      } else {
        extq := extq + [b];
      }
    }
  }

  lemma CreditsOf(s: Ctx, credits: nat)
    requires CtxOk(s, credits)
    ensures CreditsOk(s, credits)
  {
  }

  lemma CreditOrder(s: Ctx, credits: nat)
    requires CtxOk(s, credits)
    ensures var t := Credit(s);
            t.wire + t.extq == s.wire + s.extq && t.uncredited == 0 && (t.extq == [] || t.avail == 0)
  {
    DrainNet(s.(avail := s.avail + s.uncredited, uncredited := 0), credits);
  }

  lemma HeldNotFlying(s: Ctx, b: Buf, credits: nat)
    requires CtxOk(s, credits) && b in s.held
    ensures b !in s.flying && b !in s.wire && b !in s.extq
  {
    assert b !in Elems(s.wire + s.extq);
  }

  lemma FreeIsNowhere(s: Ctx, credits: nat, i: nat)
    requires CtxOk(s, credits) && i < |s.free|
    ensures var b := s.free[i];
            && b !in s.held && b !in s.wire && b !in s.extq && b !in s.flying && b !in s.pending && b !in Bufs(s.unack)
            && (i == 0 ==> b !in s.free[1..])
  {
    var b := s.free[i];
    assert b in Elems(s.free) && b !in Elems(Bufs(s.unack)) && b !in Elems(s.wire + s.extq);
  }

  lemma OffTheWire(s: Ctx, i: nat, credits: nat)
    requires CtxOk(s, credits) && i < |s.wire|
    ensures s.wire[i] !in Removed(s.wire, i) && s.wire[i] !in s.extq
    ensures s.wire[i] in s.pending ==> s.wire[i] in s.flying
  {
    var b, q := s.wire[i], s.wire + s.extq;
    assert q[i] == b;
    assert forall j :: 0 <= j < |s.wire| ==> q[j] == s.wire[j];
    assert forall j {:trigger s.extq[j]} :: 0 <= j < |s.extq| ==> q[|s.wire| + j] == s.extq[j];
  }

  lemma AckedIsGone(s: Ctx, c: nat, credits: nat)
    requires CtxOk(s, credits) && Window(s, c) != [] && Entry(c, Window(s, c)[0]) in s.unack
    ensures Window(s, c)[0] !in Bufs(Acked(s, c).unack)
  {
    hide OfVc;
    var b := Window(s, c)[0];
    var i := Find(s.unack, Entry(c, b));
    assert Bufs(Removed(s.unack, i)) == Removed(Bufs(s.unack), i) && Bufs(s.unack)[i] == b;
    RemoveOne(Bufs(s.unack), i);
    assert b !in Elems(Removed(Bufs(s.unack), i));
  }
}
