/** Channels over named pipes: all packets for a process arrive in one pipe, each writer marks its
  packets with the id that the reader gave it, and a read on a channel gets the bytes of that
  channel's peer. */
module FifoChannel {
  import opened Lists
  import opened Buffers
  import opened FifoQueue

  /** The payloads of the messages from `id`, in order. */
  function Lane(s: seq<Packet>, id: int): seq<Bytes> {
    if s == [] then [] else (if Matches(s[0], Message, id) then [s[0].data] else []) + Lane(s[1..], id)
  }

  /** All packets but the messages from `id`. */
  function Others(s: seq<Packet>, id: int): seq<Packet> {
    if s == [] then [] else (if Matches(s[0], Message, id) then [] else [s[0]]) + Others(s[1..], id)
  }

  /** Taking out the first message of a channel takes it off the front of that channel's lane and
      leaves everything else in place. */
  lemma {:induction false} TakeMessage(s: seq<Packet>, id: int)
    ensures FirstMatch(s, Message, id) < |s| <==> Lane(s, id) != []
    ensures FirstMatch(s, Message, id) < |s| ==>
              var k := FirstMatch(s, Message, id);
              && Lane(s, id) == [s[k].data] + Lane(Without(s, k), id)
              && Others(Without(s, k), id) == Others(s, id)
  {
    if s != [] {
      var k := FirstMatch(s, Message, id);
      if k == 0 {
        assert Without(s, 0) == s[1..];
      } else {
        TakeMessage(s[1..], id);
        if k < |s| {
          SkipOne(s, k, id);
        }
      }
    }
  }

  /** The first packet stays in front when a later one is taken out. */
  lemma SkipOne(s: seq<Packet>, k: nat, id: int)
    requires 0 < k < |s|
    ensures var rest := Without(s[1..], k - 1);
            && Lane(Without(s, k), id) == (if Matches(s[0], Message, id) then [s[0].data] else []) + Lane(rest, id)
            && Others(Without(s, k), id) == (if Matches(s[0], Message, id) then [] else [s[0]]) + Others(rest, id)
  {
    var t := Without(s, k);
    assert t == [s[0]] + Without(s[1..], k - 1);
    assert t[1..] == Without(s[1..], k - 1);
  }

  /** The lanes of other channels are among the others. */
  lemma {:induction false} LaneOfOthers(s: seq<Packet>, id: int, other: int)
    requires other != id
    ensures Lane(Others(s, id), other) == Lane(s, other)
  {
    if s != [] {
      LaneOfOthers(s[1..], id, other);
      var rest := Others(s[1..], id);
      if !Matches(s[0], Message, id) {
        assert Others(s, id) == [s[0]] + rest && ([s[0]] + rest)[1..] == rest;
      } else {
        assert Others(s, id) == rest;
      }
    }
  }

  lemma {:induction false} LaneAppend(a: seq<Packet>, b: seq<Packet>, id: int)
    ensures Lane(a + b, id) == Lane(a, id) + Lane(b, id)
  {
    if a == [] {
      assert a + b == b;
    } else {
      assert (a + b)[1..] == a[1..] + b;
      LaneAppend(a[1..], b, id);
    }
  }

  // ----- writing and reading -----

  /** The packets of one write: each goes into the pipe in one piece. */
  function Messages(id: int, ps: seq<Bytes>): seq<Packet> {
    if ps == [] then [] else [Packet(Message, id, ps[0])] + Messages(id, ps[1..])
  }

  lemma {:induction false} MessagesAppend(id: int, a: seq<Bytes>, p: Bytes)
    ensures Messages(id, a + [p]) == Messages(id, a) + [Packet(Message, id, p)]
  {
    if a == [] {
      assert a + [p] == [p] && [p][1..] == [];
    } else {
      assert (a + [p])[1..] == a[1..] + [p];
      MessagesAppend(id, a[1..], p);
    }
  }

  lemma {:induction false} LaneOfMessages(id: int, ps: seq<Bytes>)
    ensures Lane(Messages(id, ps), id) == ps
  {
    if ps != [] { LaneOfMessages(id, ps[1..]); }
  }

  /** Write `buf` with packets of at most `max` payload bytes; returns the packets in the order in
      which they enter the pipe. */
  method WriteFifo(writeid: int, buf: Bytes, max: nat) returns (packets: seq<Packet>)
    requires max > 0
    ensures packets == Messages(writeid, Chunks(buf, max))
  {
    hide Chunks, Messages;
    NoWrites(writeid, max);
    packets := [];
    var nwritten := 0;
    ghost var done: seq<Bytes> := [];
    assert buf[0..] == buf;
    while nwritten < |buf|
      invariant 0 <= nwritten <= |buf| && packets == Messages(writeid, done)
      invariant done + Chunks(buf[nwritten..], max) == Chunks(buf, max)
    {
      var bytes := |buf| - nwritten;
      if bytes > max {
        bytes := max;
      }
      NextChunk(buf, nwritten, bytes, max);
      var data := buf[nwritten..nwritten + bytes];
      MessagesAppend(writeid, done, data);
      packets := packets + [Packet(Message, writeid, data)];
      done := done + [data];
      nwritten := nwritten + bytes;
    }
    assert buf[nwritten..] == [] && done + [] == done;
  }

  lemma NoWrites(id: int, max: nat)
    requires max > 0
    ensures Messages(id, []) == [] && Chunks([], max) == []
  {
  }

  /** How many packets a read of `size` bytes takes: it goes on until it has enough. */
  function Needed(lane: seq<Bytes>, size: int): (k: nat)
    ensures k <= |lane|
  {
    if size <= 0 || lane == [] then 0 else 1 + Needed(lane[1..], size - |lane[0]|)
  }

  lemma {:induction false} NeededSuffices(lane: seq<Bytes>, size: int)
    requires size <= |Flat(lane)|
    ensures |Flat(lane[..Needed(lane, size)])| >= size
    ensures forall j :: 0 <= j < Needed(lane, size) ==> |Flat(lane[..j])| < size
    decreases |lane|
  {
    if size > 0 && lane != [] {
      NeededSuffices(lane[1..], size - |lane[0]|);
      var k := Needed(lane, size);
      forall j | 0 < j <= |lane| ensures Flat(lane[..j]) == lane[0] + Flat(lane[1..][..j - 1]) {
        assert lane[..j][1..] == lane[1..][..j - 1];
      }
      forall j | 0 <= j < k ensures |Flat(lane[..j])| < size {
        if j > 0 { assert Flat(lane[..j]) == lane[0] + Flat(lane[1..][..j - 1]); }
      }
    }
  }

  /** Read from the messages of `readid` into the memory at `mem` until `size` bytes are there.  Whole
      packets are copied, so more than `size` bytes may be written; returns how many were. */
  method ReadFifo(rx: Receiver, readid: int, mem: array<int>, size: nat) returns (nread: nat)
    requires rx.Valid() && size <= |Flat(Lane(rx.Coming(), readid))|
    requires var lane := Lane(rx.Coming(), readid); |Flat(lane[..Needed(lane, size)])| <= mem.Length
    modifies rx, rx.nodes, mem
    ensures rx.Valid() && (forall j :: 0 <= j < |rx.nodes| ==> rx.nodes[j] in old(rx.nodes) || fresh(rx.nodes[j]))
    ensures var lane := old(Lane(rx.Coming(), readid)); var k := Needed(lane, size);
            && nread == |Flat(lane[..k])| && mem[..] == Flat(lane[..k]) + old(mem[..])[nread..]
            && Lane(rx.Coming(), readid) == lane[k..]
    ensures Others(rx.Coming(), readid) == old(Others(rx.Coming(), readid))
  {
    hide *;
    ghost var lane, before := Lane(rx.Coming(), readid), mem[..];
    ghost var k := Needed(lane, size);
    NeededSuffices(lane, size);
    nread := 0;
    ghost var i := 0;
    ReadStart(lane, before);
    while nread < size
      invariant rx.Valid() && (forall j :: 0 <= j < |rx.nodes| ==> rx.nodes[j] in old(rx.nodes) || fresh(rx.nodes[j]))
      invariant i <= k <= |lane| && nread == |Flat(lane[..i])| <= |before|
      invariant mem[..] == Flat(lane[..i]) + before[nread..]
      invariant Lane(rx.Coming(), readid) == lane[i..]
                && Others(rx.Coming(), readid) == old(Others(rx.Coming(), readid))
      decreases k - i
    {
      ReadNext(lane, i, k);
      TakeMessage(rx.Coming(), readid);
      assert lane[i..] != [];
      var p := rx.PacketRead(Message, readid);
      assert p.data == lane[i..][0] == lane[i];
      nread := CopyNext(mem, nread, p.data, Flat(lane[..i]), before);
      i := i + 1;
    }
    assert i == k;
  }

  /** Copy `data` behind what has been written. */
  method CopyNext(mem: array<int>, nread: nat, data: Bytes, ghost done: Bytes, ghost before: Bytes) returns (next: nat)
    requires nread == |done| && |done| + |data| <= |before| == mem.Length && mem[..] == done + before[nread..]
    modifies mem
    ensures next == nread + |data| && mem[..] == (done + data) + before[next..]
  {
    CopyInto(mem, nread, data);
    next := nread + |data|;
  }

  lemma ReadStart(lane: seq<Bytes>, before: Bytes)
    ensures Flat(lane[..0]) == [] && lane[0..] == lane && before == [] + before[0..]
  {
    assert lane[..0] == [];
  }

  lemma ReadNext(lane: seq<Bytes>, i: nat, k: nat)
    requires i < k <= |lane|
    ensures Flat(lane[..i + 1]) == Flat(lane[..i]) + lane[i]
    ensures |Flat(lane[..i + 1])| <= |Flat(lane[..k])|
    ensures lane[i..][0] == lane[i] && lane[i..][1..] == lane[i + 1..]
  {
    assert lane[..i + 1] == lane[..i] + [lane[i]];
    FlatAppend(lane[..i], [lane[i]]);
    assert Flat([lane[i]]) == lane[i] + Flat([]);
    assert lane[..i + 1] <= lane[..k];
    FlatPrefix(lane[..i + 1], lane[..k]);
  }

  /** `size` is the total size of some number of whole messages. */
  ghost predicate OnBoundary(lane: seq<Bytes>, size: nat) {
    exists j :: 0 <= j <= |lane| && |Flat(lane[..j])| == size
  }

  /** A read writes exactly `size` bytes if and only if `size` is that of whole messages; otherwise
      it writes past the end of a buffer of that size. */
  lemma ReadFits(lane: seq<Bytes>, size: nat)
    requires size <= |Flat(lane)|
    ensures |Flat(lane[..Needed(lane, size)])| == size <==> OnBoundary(lane, size)
  {
    hide Needed, Flat;
    NeededSuffices(lane, size);
    if j :| 0 <= j <= |lane| && |Flat(lane[..j])| == size {
      assert lane[..Needed(lane, size)] <= lane[..j];
      FlatPrefix(lane[..Needed(lane, size)], lane[..j]);
    }
  }

  // ----- any interleaving of the writers -----

  /** A process that writes to the pipe: its id, and the packets it has yet to write. */
  datatype Writer = Writer(id: int, todo: seq<Packet>)

  /** What arrives in the pipe when the writers take turns as `sched` says, a packet at a time. */
  function Arrivals(ws: seq<Writer>, sched: seq<nat>): seq<Packet>
    decreases |sched|
  {
    if sched == [] then []
    else
      var w := sched[0];
      if w < |ws| && ws[w].todo != [] then
        [ws[w].todo[0]] + Arrivals(ws[w := ws[w].(todo := ws[w].todo[1..])], sched[1..])
      else Arrivals(ws, sched[1..])
  }

  function Turns(sched: seq<nat>, w: nat): nat {
    if sched == [] then 0 else (if sched[0] == w then 1 else 0) + Turns(sched[1..], w)
  }

  /** Each writer has an id of its own and uses it. */
  ghost predicate OwnIds(ws: seq<Writer>) {
    && (forall i, j :: 0 <= i < j < |ws| ==> ws[i].id != ws[j].id)
    && (forall i, k :: 0 <= i < |ws| && 0 <= k < |ws[i].todo| ==> ws[i].todo[k].src == ws[i].id)
  }

  /** Whatever the others write and when: the packets of one writer arrive in the order in which
      it writes them. */
  lemma {:induction false} LaneOfWriter(ws: seq<Writer>, sched: seq<nat>, w: nat)
    requires OwnIds(ws) && w < |ws|
    ensures Lane(Arrivals(ws, sched), ws[w].id) ==
              Lane(ws[w].todo[..if Turns(sched, w) < |ws[w].todo| then Turns(sched, w) else |ws[w].todo|], ws[w].id)
    decreases |sched|
  {
    if sched != [] {
      var x := sched[0];
      if x < |ws| && ws[x].todo != [] {
        var next := ws[x := ws[x].(todo := ws[x].todo[1..])];
        assert OwnIds(next) by { TurnKeepsIds(ws, x); }
        LaneOfWriter(next, sched[1..], w);
        var first := [ws[x].todo[0]];
        LaneAppend(first, Arrivals(next, sched[1..]), ws[w].id);
        if x == w {
          var n := if Turns(sched, w) < |ws[w].todo| then Turns(sched, w) else |ws[w].todo|;
          assert ws[w].todo[..n] == first + ws[w].todo[1..][..n - 1];
          LaneAppend(first, ws[w].todo[1..][..n - 1], ws[w].id);
        } else {
          assert ws[x].todo[0].src == ws[x].id != ws[w].id;
          assert Lane(first, ws[w].id) == [];
        }
      } else {
        LaneOfWriter(ws, sched[1..], w);
      }
    }
  }

  lemma TurnKeepsIds(ws: seq<Writer>, x: nat)
    requires OwnIds(ws) && x < |ws| && ws[x].todo != []
    ensures OwnIds(ws[x := ws[x].(todo := ws[x].todo[1..])])
  {
  }

  /** Draining the pipe into the queue loses no message. */
  lemma {:induction false} LaneOfKept(s: seq<Packet>, id: int)
    ensures Lane(Kept(s), id) == Lane(s, id)
  {
    if s != [] {
      LaneOfKept(s[1..], id);
      if s[0].kind != Disconnect {
        assert Kept(s) == [s[0]] + Kept(s[1..]) && Kept(s)[1..] == Kept(s[1..]);
      } else {
        assert Kept(s) == Kept(s[1..]);
      }
    }
  }

  // ----- sessions -----

  /** A read of the size of a write takes exactly the packets of that write. */
  lemma {:induction false} NeededForWrite(write: Bytes, rest: seq<Bytes>, max: nat)
    requires max > 0
    ensures var lane, k := Chunks(write, max) + rest, |Chunks(write, max)|;
            Needed(lane, |write|) == k && Flat(lane[..k]) == write && lane[k..] == rest && |write| <= |Flat(lane)|
    decreases |write|
  {
    var lane, k := Chunks(write, max) + rest, |Chunks(write, max)|;
    assert lane[..k] == Chunks(write, max);
    ChunksFlat(write, max);
    FlatAppend(Chunks(write, max), rest);
    if write != [] {
      var n := if |write| > max then max else |write|;
      NextChunk(write, 0, n, max);
      assert write[0..] == write && write[0..n] == write[..n];
      NeededForWrite(write[n..], rest, max);
      assert lane == [write[..n]] + (Chunks(write[n..], max) + rest);
      assert lane[1..] == Chunks(write[n..], max) + rest;
    }
  }

  lemma {:induction false} TurnsAppend(order: seq<nat>, x: nat, w: nat)
    ensures Turns(order + [x], w) == Turns(order, w) + if x == w then 1 else 0
  {
    if order == [] {
      assert order + [x] == [x] && [x][1..] == [];
    } else {
      assert (order + [x])[1..] == order[1..] + [x];
      TurnsAppend(order[1..], x, w);
    }
  }

  lemma {:induction false} TurnsMonotone(order: seq<nat>, t: nat, w: nat)
    requires t < |order|
    ensures Turns(order[..t + 1], w) <= Turns(order, w)
    decreases |order| - t
  {
    if t + 1 < |order| {
      assert order[..t + 2] == order[..t + 1] + [order[t + 1]];
      TurnsAppend(order[..t + 1], order[t + 1], w);
      TurnsMonotone(order, t + 1, w);
    } else {
      assert order[..t + 1] == order;
    }
  }

  /** Every writer writes its `writes`, and all of it arrives. */
  ghost predicate AllArrives(ws: seq<Writer>, sched: seq<nat>, writes: seq<seq<Bytes>>, max: nat)
    requires max > 0
  {
    && OwnIds(ws) && |writes| == |ws|
    && forall w :: 0 <= w < |ws| ==>
         ws[w].todo == Messages(ws[w].id, AllChunks(writes[w], max)) && Turns(sched, w) >= |ws[w].todo|
  }

  lemma LaneAtStart(ws: seq<Writer>, sched: seq<nat>, writes: seq<seq<Bytes>>, max: nat, w: nat)
    requires max > 0 && AllArrives(ws, sched, writes, max) && w < |ws|
    ensures Lane(Kept(Arrivals(ws, sched)), ws[w].id) == AllChunks(writes[w], max)
  {
    hide Lane, Arrivals, Messages, AllChunks;
    LaneOfKept(Arrivals(ws, sched), ws[w].id);
    LaneOfWriter(ws, sched, w);
    assert ws[w].todo[..|ws[w].todo|] == ws[w].todo;
    LaneOfMessages(ws[w].id, AllChunks(writes[w], max));
  }

  /** After `order[..t]` has been read, each lane holds the packets of the writes not yet read. */
  ghost predicate LanesAt(
    coming: seq<Packet>, ids: seq<int>, writes: seq<seq<Bytes>>, max: nat, order: seq<nat>)
    requires max > 0 && |ids| == |writes|
  {
    forall w :: 0 <= w < |ids| ==>
      Turns(order, w) <= |writes[w]| && Lane(coming, ids[w]) == AllChunks(writes[w][Turns(order, w)..], max)
  }

  /** Reading the next write of channel `w` leaves the lanes as they should be. */
  lemma LanesStep(
    before: seq<Packet>, after: seq<Packet>, ids: seq<int>, writes: seq<seq<Bytes>>, max: nat, order: seq<nat>, w: nat)
    requires max > 0 && |ids| == |writes| && NoDup(ids) && LanesAt(before, ids, writes, max, order)
    requires w < |ids| && Turns(order, w) < |writes[w]|
    requires Others(after, ids[w]) == Others(before, ids[w])
    requires Lane(after, ids[w]) == AllChunks(writes[w][Turns(order, w) + 1..], max)
    ensures LanesAt(after, ids, writes, max, order + [w])
  {
    hide Lane, Others, AllChunks, Turns;
    forall v | 0 <= v < |ids|
      ensures && Turns(order + [w], v) <= |writes[v]|
              && Lane(after, ids[v]) == AllChunks(writes[v][Turns(order + [w], v)..], max)
    {
      TurnsAppend(order, w, v);
      if v != w {
        assert ids[v] != ids[w];
        LaneOfOthers(before, ids[w], ids[v]);
        LaneOfOthers(after, ids[w], ids[v]);
      }
    }
  }

  /** What a lane begins with: the packets of the next write. */
  lemma LaneFront(lane: seq<Bytes>, writes: seq<Bytes>, max: nat, j: nat)
    requires max > 0 && j < |writes| && lane == AllChunks(writes[j..], max)
    ensures var k := Needed(lane, |writes[j]|);
            && |writes[j]| <= |Flat(lane)| && Flat(lane[..k]) == writes[j]
              && lane[k..] == AllChunks(writes[j + 1..], max)
  {
    hide Needed, Flat, Chunks;
    assert writes[j..][0] == writes[j] && writes[j..][1..] == writes[j + 1..];
    NeededForWrite(writes[j], AllChunks(writes[j + 1..], max), max);
  }

  /** The index of the write that the `t`th read of a session is for. */
  ghost function WriteOf(order: seq<nat>, t: nat): nat
    requires t < |order|
  {
    Turns(order[..t], order[t])
  }

  /** Any number of peers write to the pipe, their packets interleaved in any way; the process reads
      its channels in any order, with the sizes of the writes.  Every read returns exactly the bytes
      of the write that it is for. */
  method ReadSession(
    rx: Receiver, ids: seq<int>, order: seq<nat>, sizes: seq<nat>,
    ghost ws: seq<Writer>, ghost sched: seq<nat>, ghost writes: seq<seq<Bytes>>, ghost max: nat)
    returns (results: seq<Bytes>)
    requires max > 0 && AllArrives(ws, sched, writes, max)
    requires rx.Valid() && rx.nodes == [] && Join(rx.pipe) == Arrivals(ws, sched)
    requires |ids| == |ws| && forall w :: 0 <= w < |ws| ==> ids[w] == ws[w].id
    requires |sizes| == |order| && forall t :: 0 <= t < |order| ==> order[t] < |ws|
    requires forall w :: 0 <= w < |ws| ==> Turns(order, w) <= |writes[w]|
    requires forall t :: 0 <= t < |order| ==>
               WriteOf(order, t) < |writes[order[t]]| ==> sizes[t] == |writes[order[t]][WriteOf(order, t)]|
    modifies rx, rx.nodes
    ensures |results| == |order|
    ensures forall t :: 0 <= t < |order| ==>
              WriteOf(order, t) < |writes[order[t]]| && results[t] == writes[order[t]][WriteOf(order, t)]
  {
    hide Lane, Arrivals, AllChunks, Flat, Needed, Kept, Join, Others, Messages, Receiver.Valid, Turns;
    results := [];
    SessionStart(rx.Coming(), ids, ws, sched, writes, max, rx.nodes, rx.pipe);
    var t := 0;
    while t < |order|
      invariant t <= |order| && |results| == t && rx.Valid()
      invariant forall j :: 0 <= j < |rx.nodes| ==> fresh(rx.nodes[j])
      invariant LanesAt(rx.Coming(), ids, writes, max, order[..t])
      invariant forall i :: 0 <= i < t ==>
                  WriteOf(order, i) < |writes[order[i]]| && results[i] == writes[order[i]][WriteOf(order, i)]
    {
      var w := order[t];
      ghost var j, before := WriteOf(order, t), rx.Coming();
      assert order[..t + 1] == order[..t] + [w];
      TurnsAppend(order[..t], w, w);
      TurnsMonotone(order, t, w);
      LaneFront(Lane(before, ids[w]), writes[w], max, j);
      var buf := new int[sizes[t]];
      var n := ReadFifo(rx, ids[w], buf, sizes[t]);
      LanesStep(before, rx.Coming(), ids, writes, max, order[..t], w);
      assert buf[..] == writes[w][j];
      results := results + [buf[..]];
      t := t + 1;
    }
  }

  lemma SessionStart(
    coming: seq<Packet>, ids: seq<int>, ws: seq<Writer>, sched: seq<nat>, writes: seq<seq<Bytes>>, max: nat,
    nodes: seq<Node>, pipe: seq<seq<Packet>>)
    requires max > 0 && AllArrives(ws, sched, writes, max) && nodes == []
             && coming == FifoQueue.Packets(nodes) + Kept(Join(pipe))
    requires Join(pipe) == Arrivals(ws, sched) && |ids| == |ws| && forall w :: 0 <= w < |ws| ==> ids[w] == ws[w].id
    ensures NoDup(ids) && LanesAt(coming, ids, writes, max, [])
  {
    hide Lane, Arrivals, AllChunks, Kept, Join;
    assert coming == Kept(Arrivals(ws, sched));
    forall w | 0 <= w < |ids| ensures Lane(coming, ids[w]) == AllChunks(writes[w][Turns([], w)..], max) {
      LaneAtStart(ws, sched, writes, max, w);
      assert writes[w][0..] == writes[w];
    }
  }
}
