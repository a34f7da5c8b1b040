/** Demultiplexing one shared pipe: packets wait in a linked list until a reader asks for one of
  their kind and source. */
module FifoQueue {
  import opened Lists
  import opened Buffers

  datatype Kind = Connect | Accept | Disconnect | Message

  datatype Packet = Packet(kind: Kind, src: int, data: Bytes)

  /** A connection request matches whatever its source is. */
  predicate Matches(p: Packet, kind: Kind, src: int) {
    p.kind == kind && (kind == Connect || p.src == src)
  }

  /** The position of the first packet that matches, or the length. */
  function FirstMatch(s: seq<Packet>, kind: Kind, src: int): (i: nat)
    ensures i <= |s| && (i < |s| ==> Matches(s[i], kind, src))
    ensures forall j :: 0 <= j < i ==> !Matches(s[j], kind, src)
    ensures i < |s| ==> s[i].kind == kind && (kind != Connect ==> s[i].src == src)
    ensures forall j :: 0 <= j < i && s[j].kind == kind ==> kind != Connect && s[j].src != src
  {
    if s == [] || Matches(s[0], kind, src) then 0 else 1 + FirstMatch(s[1..], kind, src)
  }

  function Without(s: seq<Packet>, i: nat): seq<Packet>
    requires i < |s|
  {
    s[..i] + s[i + 1..]
  }

  lemma WithoutIs(s: seq<Packet>, i: nat)
    requires i < |s|
    ensures Without(s, i) == s[..i] + s[i + 1..]
  {
  }

  /** The packets that are queued: all but the disconnect messages. */
  function Kept(s: seq<Packet>): seq<Packet> {
    if s == [] then [] else (if s[0].kind == Disconnect then [] else [s[0]]) + Kept(s[1..])
  }

  /** The sources of the disconnect messages. */
  function Leaving(s: seq<Packet>): seq<int> {
    if s == [] then [] else (if s[0].kind == Disconnect then [s[0].src] else []) + Leaving(s[1..])
  }

  function Join(batches: seq<seq<Packet>>): seq<Packet> {
    if batches == [] then [] else batches[0] + Join(batches[1..])
  }

  lemma {:induction false} KeptAppend(a: seq<Packet>, b: seq<Packet>)
    ensures Kept(a + b) == Kept(a) + Kept(b) && Leaving(a + b) == Leaving(a) + Leaving(b)
  {
    if a == [] {
      assert a + b == b;
    } else {
      assert (a + b)[1..] == a[1..] + b;
      KeptAppend(a[1..], b);
    }
  }

  lemma {:induction false} FirstMatchAppend(a: seq<Packet>, b: seq<Packet>, kind: Kind, src: int)
    ensures FirstMatch(a, kind, src) < |a| ==> FirstMatch(a + b, kind, src) == FirstMatch(a, kind, src)
    ensures FirstMatch(a, kind, src) == |a| ==> FirstMatch(a + b, kind, src) == |a| + FirstMatch(b, kind, src)
  {
    if a == [] {
      assert a + b == b;
    } else if !Matches(a[0], kind, src) {
      assert (a + b)[1..] == a[1..] + b;
      FirstMatchAppend(a[1..], b, kind, src);
    }
  }

  lemma NoPackets()
    ensures Kept([]) == [] && Leaving([]) == []
  {
  }

  lemma OnePacket(p: Packet)
    ensures Kept([p]) == (if p.kind == Disconnect then [] else [p])
    ensures Leaving([p]) == (if p.kind == Disconnect then [p.src] else [])
  {
  }

  class Node {
    const packet: Packet
    var next: Node?

    constructor (packet: Packet)
      ensures this.packet == packet && next == null
    {
      this.packet := packet;
      next := null;
    }
  }

  ghost function Packets(nodes: seq<Node>): (s: seq<Packet>)
    ensures |s| == |nodes| && forall i :: 0 <= i < |s| ==> s[i] == nodes[i].packet
  {
    seq(|nodes|, i requires 0 <= i < |nodes| => nodes[i].packet)
  }

  ghost function NodeAt(nodes: seq<Node>, i: int): Node? {
    if 0 <= i < |nodes| then nodes[i] else null
  }

  ghost predicate Linked(nodes: seq<Node>)
    reads nodes
  {
    forall i :: 0 <= i < |nodes| ==> nodes[i].next == NodeAt(nodes, i + 1)
  }

  /** The receiving end of a process.  `pipe` holds what successive looks into the pipe will find;
      `departed` records the sources of the disconnect messages seen so far. */
  class Receiver {
    var head: Node?
    var tail: Node?
    var writerCount: int
    var pipe: seq<seq<Packet>>
    ghost var nodes: seq<Node>
    ghost var departed: seq<int>

    ghost predicate Valid()
      reads this, nodes
    {
      && NoDup(nodes) && Linked(nodes)
      && head == NodeAt(nodes, 0) && tail == NodeAt(nodes, |nodes| - 1)
    }

    /** Everything that a reader will see: what waits, and what is still to come. */
    ghost function Coming(): seq<Packet>
      reads this
    {
      Packets(nodes) + Kept(Join(pipe))
    }

    constructor (pipe: seq<seq<Packet>>)
      ensures Valid() && fresh(nodes) && nodes == [] && departed == [] && writerCount == 0 && this.pipe == pipe
    {
      head, tail, writerCount, this.pipe := null, null, 0, pipe;
      nodes, departed := [], [];
    }

    method AddWriter()
      requires Valid()
      modifies this`writerCount
      ensures Valid() && writerCount == old(writerCount) + 1 && Coming() == old(Coming())
    {
      writerCount := writerCount + 1;
    }

    method Append(p: Node)
      requires Valid() && p !in nodes && p.next == null
      modifies this`head, this`tail, this`nodes, nodes
      ensures Valid() && nodes == old(nodes) + [p]
    {
      if head == null {
        head := p;
      }
      if tail != null {
        tail.next := p;
      }
      tail := p;
      ghost var more := nodes + [p];
      forall j | 0 <= j < |more| ensures more[j].next == NodeAt(more, j + 1) {
        if j < |nodes| { assert more[j] == nodes[j]; }
      }
      nodes := more;
    }

    /** Take in one packet from the pipe. */
    method Take(p: Packet)
      requires Valid()
      modifies this`head, this`tail, this`nodes, this`writerCount, this`departed, nodes
      ensures Valid() && old(nodes) <= nodes && (forall j :: |old(nodes)| <= j < |nodes| ==> fresh(nodes[j]))
      ensures Packets(nodes) == old(Packets(nodes)) + Kept([p]) && departed == old(departed) + Leaving([p])
      ensures writerCount == old(writerCount) - |Leaving([p])|
      ensures if p.kind == Disconnect then Packets(nodes) == old(Packets(nodes)) && departed == old(departed) + [p.src]
              else Packets(nodes) == old(Packets(nodes)) + [p] && departed == old(departed)
    {
      OnePacket(p);
      hide Kept, Leaving, Linked, NoDup;
      if p.kind == Disconnect {
        writerCount := writerCount - 1;
        departed := departed + [p.src];
      } else {
        var node := new Node(p);
        ghost var before := nodes;
        Append(node);
        assert Packets(nodes) == Packets(before) + [p];
      }
    }

    /** Look into the pipe and take out all that is there.  Disconnect messages are counted at
        once, all others are queued in order. */
    method Progress()
      requires Valid()
      modifies this, nodes
      ensures Valid() && old(nodes) <= nodes && (forall j :: |old(nodes)| <= j < |nodes| ==> fresh(nodes[j]))
      ensures pipe == if old(pipe) == [] then [] else old(pipe)[1..]
      ensures Coming() == old(Coming())
      ensures departed + Leaving(Join(pipe)) == old(departed) + Leaving(Join(old(pipe)))
      ensures |departed| >= |old(departed)| && writerCount == old(writerCount) - (|departed| - |old(departed)|)
    {
      hide Kept, Leaving, Linked, NoDup, Packets;
      if pipe == [] { return; }
      var batch := pipe[0];
      pipe := pipe[1..];
      ghost var seen := [];
      var i := 0;
      NoPackets();
      while i < |batch|
        invariant i <= |batch| && Valid() && pipe == old(pipe)[1..] && seen == batch[..i]
        invariant old(nodes) <= nodes && (forall j :: |old(nodes)| <= j < |nodes| ==> fresh(nodes[j]))
        invariant Packets(nodes) == old(Packets(nodes)) + Kept(seen)
        invariant departed == old(departed) + Leaving(seen)
        invariant writerCount == old(writerCount) - |Leaving(seen)|
      {
        KeptAppend(seen, [batch[i]]);
        Take(batch[i]);
        seen := seen + [batch[i]];
        i := i + 1;
      }
      assert seen == batch;
      KeptAppend(batch, Join(pipe));
    }

    /** The pointer updates for taking out `curr`. */
    method Unlink(prev: Node?, curr: Node)
      requires head != curr ==> prev != null && prev != curr
      modifies this`head, this`tail, {prev}`next, curr`next
      ensures head == if old(head) == curr then old(curr.next) else old(head)
      ensures tail == if old(head) == curr then (if old(curr.next) == null then null else old(tail))
                      else if old(tail) == curr then prev else old(tail)
      ensures curr.next == null && (old(head) != curr ==> prev.next == old(curr.next))
      ensures old(head) == curr && prev != null && prev != curr ==> prev.next == old(prev.next)
    {
      if head == curr {
        head := curr.next;
        if head == null {
          tail := null;
        }
      } else {
        prev.next := curr.next;
        if tail == curr {
          tail := prev;
        }
      }
      curr.next := null;
    }

    /** Take packet `curr` out of the list; `prev` is the one before it. */
    method Extract(prev: Node?, curr: Node, ghost i: nat)
      requires Valid() && i < |nodes| && curr == nodes[i] && prev == NodeAt(nodes, i - 1)
      modifies this`head, this`tail, this`nodes, nodes
      ensures Valid() && nodes == old(nodes[..i] + nodes[i + 1..])
      ensures Packets(nodes) == Without(old(Packets(nodes)), i)
    {
      hide Packets, Without, NoDup, Linked;
      ghost var was, rest := nodes, nodes[..i] + nodes[i + 1..];
      Neighbours(i);
      nodes := rest;
      Unlink(prev, curr);
      assert Linked(rest) by {
        assert forall j :: 0 <= j < |was| && j != i && j != i - 1 ==> was[j].next == NodeAt(was, j + 1);
        assert i > 0 ==> was[i - 1].next == NodeAt(was, i + 1);
        SplicedLinked(was, i);
      }
      assert head == NodeAt(rest, 0) && tail == NodeAt(rest, |rest| - 1) by {
        SplicedEnds(was, i);
      }
      SplicedNoDup(was, i);
    }

    /** Search the list from position `i` on and take out the first match. */
    method Scan(kind: Kind, src: int, prev0: Node?, curr0: Node?, ghost i0: nat) returns (found: Node?)
      requires Valid() && i0 <= |nodes| && curr0 == NodeAt(nodes, i0) && prev0 == NodeAt(nodes, i0 - 1)
      requires i0 <= FirstMatch(Packets(nodes), kind, src)
      modifies this`head, this`tail, this`nodes, nodes
      ensures Valid() && (found == null <==> FirstMatch(old(Packets(nodes)), kind, src) == |old(nodes)|)
      ensures found == null ==> nodes == old(nodes)
      ensures found != null ==>
                var k := FirstMatch(old(Packets(nodes)), kind, src);
                && found.packet == old(Packets(nodes))[k] && Packets(nodes) == Without(old(Packets(nodes)), k)
                && nodes == old(nodes[..k] + nodes[k + 1..])
    {
      hide FirstMatch, Linked, NoDup, Without;
      ghost var i := i0;
      var prev, curr := prev0, curr0;
      while curr != null
        invariant Valid() && nodes == old(nodes) && i <= |nodes| && curr == NodeAt(nodes, i)
                  && prev == NodeAt(nodes, i - 1)
        invariant i <= FirstMatch(Packets(nodes), kind, src)
        decreases |nodes| - i
      {
        if Matches(curr.packet, kind, src) {
          assert FirstMatch(Packets(nodes), kind, src) == i;
          Extract(prev, curr, i);
          return curr;
        }
        Neighbours(i);
        prev := curr;
        curr := curr.next;
        i := i + 1;
      }
      return null;
    }

    /** Look into the pipe once more and search what has come in. */
    method Poll(kind: Kind, src: int) returns (found: Node?)
      requires Valid() && FirstMatch(Packets(nodes), kind, src) == |nodes|
      modifies this, nodes
      ensures Valid() && (forall j :: 0 <= j < |nodes| ==> nodes[j] in old(nodes) || fresh(nodes[j]))
      ensures pipe == if old(pipe) == [] then [] else old(pipe)[1..]
      ensures found == null ==> Coming() == old(Coming()) && FirstMatch(Packets(nodes), kind, src) == |nodes|
      ensures found != null ==>
                var k := FirstMatch(old(Coming()), kind, src);
                k < |old(Coming())| && found.packet == old(Coming())[k] && Coming() == Without(old(Coming()), k)
      ensures departed + Leaving(Join(pipe)) == old(departed) + Leaving(Join(old(pipe)))
      ensures |departed| >= |old(departed)| && writerCount == old(writerCount) - (|departed| - |old(departed)|)
    {
      hide FirstMatch, Linked, NoDup, Without, Kept, Leaving, Packets, NodeAt, Join;
      var last := tail;
      ghost var before := nodes;
      Progress();
      SearchedSoFar(before, nodes, kind, src);
      Resume(|before|, before);
      if tail == last {
        return null;
      }
      var prev, curr := null, head;
      if last != null {
        prev, curr := last, last.next;
      }
      ghost var queue := Packets(nodes);
      found := Scan(kind, src, prev, curr, |before|);
      if found != null {
        TakenOut(queue, Kept(Join(pipe)), kind, src);
      }
    }

    /** Look into the pipe, and search the whole queue. */
    method PollFirst(kind: Kind, src: int) returns (found: Node?)
      requires Valid()
      modifies this, nodes
      ensures Valid() && (forall j :: 0 <= j < |nodes| ==> nodes[j] in old(nodes) || fresh(nodes[j]))
      ensures found == null ==> Coming() == old(Coming()) && FirstMatch(Packets(nodes), kind, src) == |nodes|
      ensures found != null ==>
                var k := FirstMatch(old(Coming()), kind, src);
                k < |old(Coming())| && found.packet == old(Coming())[k] && Coming() == Without(old(Coming()), k)
      ensures departed + Leaving(Join(pipe)) == old(departed) + Leaving(Join(old(pipe)))
      ensures |departed| >= |old(departed)| && writerCount == old(writerCount) - (|departed| - |old(departed)|)
    {
      hide FirstMatch, Linked, NoDup, Without, Kept, Leaving, Packets, NodeAt, Join;
      Progress();
      StartOfList();
      ghost var queue := Packets(nodes);
      found := Scan(kind, src, null, head, 0);
      if found != null {
        TakenOut(queue, Kept(Join(pipe)), kind, src);
      }
    }

    /** Wait for the first packet of a kind, and for other kinds than CONNECT of a source, of those
        queued and those still to come.  All others stay, in order. */
    method PacketRead(kind: Kind, src: int) returns (p: Packet)
      requires Valid() && FirstMatch(Coming(), kind, src) < |Coming()|
      modifies this, nodes
      ensures Valid() && (forall j :: 0 <= j < |nodes| ==> nodes[j] in old(nodes) || fresh(nodes[j]))
      ensures var k := FirstMatch(old(Coming()), kind, src);
              && p == old(Coming())[k] && Coming() == Without(old(Coming()), k)
              && Coming() == old(Coming())[..k] + old(Coming())[k + 1..]
              && p.kind == kind && (kind != Connect ==> p.src == src)
              && forall j :: 0 <= j < k && old(Coming())[j].kind == kind ==>
                   kind != Connect && old(Coming())[j].src != src
      ensures departed + Leaving(Join(pipe)) == old(departed) + Leaving(Join(old(pipe)))
      ensures |departed| >= |old(departed)| && writerCount == old(writerCount) - (|departed| - |old(departed)|)
    {
      hide *;
      ghost var all := Coming();
      var found := PollFirst(kind, src);
      while found == null
        invariant Valid() && (forall j :: 0 <= j < |nodes| ==> nodes[j] in old(nodes) || fresh(nodes[j]))
        invariant found == null ==> Coming() == all && FirstMatch(Packets(nodes), kind, src) == |nodes|
        invariant found != null ==>
                    var k := FirstMatch(all, kind, src);
                    k < |all| && found.packet == all[k] && Coming() == Without(all, k)
        invariant departed + Leaving(Join(pipe)) == old(departed) + Leaving(Join(old(pipe)))
        invariant |departed| >= |old(departed)| && writerCount == old(writerCount) - (|departed| - |old(departed)|)
        decreases found == null, |pipe|
      {
        assert pipe != [] by { StillComing(kind, src); }
        found := Poll(kind, src);
      }
      p := found.packet;
      WithoutIs(all, FirstMatch(all, kind, src));
    }

    lemma StillComing(kind: Kind, src: int)
      requires FirstMatch(Packets(nodes), kind, src) == |nodes| && FirstMatch(Coming(), kind, src) < |Coming()|
      ensures pipe != []
    {
      MoreToCome(Packets(nodes), pipe, kind, src);
    }

    /** Where the search goes on after more packets have come in behind position `n`. */
    lemma Resume(n: nat, before: seq<Node>)
      requires Valid() && before <= nodes && n == |before|
      ensures var last := NodeAt(before, n - 1);
              && (last == null ==> n == 0 && head == NodeAt(nodes, 0) && NodeAt(nodes, n - 1) == null)
              && (last != null ==> last in nodes && last.next == NodeAt(nodes, n) && last == NodeAt(nodes, n - 1))
              && (tail == last ==> nodes == before)
    {
      if n > 0 {
        assert before[n - 1] == nodes[n - 1];
      }
    }

    lemma StartOfList()
      requires Valid()
      ensures head == NodeAt(nodes, 0) && NodeAt(nodes, -1) == null
    {
    }

    /** What the pointers around position `i` are. */
    lemma Neighbours(i: nat)
      requires Valid() && i < |nodes|
      ensures forall j :: 0 <= j < |nodes| ==> nodes[j].next == NodeAt(nodes, j + 1)
      ensures forall j :: 0 <= j < |nodes| && j != i ==> nodes[j] != nodes[i]
      ensures i > 0 ==> forall j :: 0 <= j < |nodes| && j != i - 1 ==> nodes[j] != nodes[i - 1]
      ensures head == nodes[i] <==> i == 0
      ensures tail == nodes[i] <==> i == |nodes| - 1
    {
    }
  }

  /** Position `j` of the list without element `i`, in the whole list. */
  function Behind(i: nat, j: nat): nat { if j < i then j else j + 1 }

  lemma SplicedAt(was: seq<Node>, i: nat, j: nat)
    requires i < |was| && j < |was| - 1
    ensures (was[..i] + was[i + 1..])[j] == was[Behind(i, j)]
  {
  }

  lemma SplicedNoDup(was: seq<Node>, i: nat)
    requires NoDup(was) && i < |was|
    ensures NoDup(was[..i] + was[i + 1..]) && Packets(was[..i] + was[i + 1..]) == Without(Packets(was), i)
  {
    var rest := was[..i] + was[i + 1..];
    assert Packets(rest) == Without(Packets(was), i);
    hide Packets, Without;
    forall j, k | 0 <= j < k < |rest| ensures rest[j] != rest[k] {
      SplicedAt(was, i, j);
      SplicedAt(was, i, k);
    }
  }

  lemma SplicedLinked(was: seq<Node>, i: nat)
    requires i < |was|
    requires forall j :: 0 <= j < |was| && j != i && j != i - 1 ==> was[j].next == NodeAt(was, j + 1)
    requires i > 0 ==> was[i - 1].next == NodeAt(was, i + 1)
    ensures Linked(was[..i] + was[i + 1..])
  {
    var rest := was[..i] + was[i + 1..];
    forall j | 0 <= j < |rest| ensures rest[j].next == NodeAt(rest, j + 1) {
      SplicedAt(was, i, j);
      if j + 1 < |rest| { SplicedAt(was, i, j + 1); }
    }
  }

  lemma SplicedEnds(was: seq<Node>, i: nat)
    requires i < |was|
    ensures var rest := was[..i] + was[i + 1..];
            && NodeAt(rest, 0) == (if i == 0 then NodeAt(was, 1) else NodeAt(was, 0))
            && NodeAt(rest, |rest| - 1) == (if i == |was| - 1 then NodeAt(was, i - 1) else NodeAt(was, |was| - 1))
  {
    if |was| > 1 {
      SplicedAt(was, i, 0);
      SplicedAt(was, i, |was| - 2);
    }
  }

  /** Taking a match out of the queue takes it out of all that is to come. */
  lemma TakenOut(queue: seq<Packet>, rest: seq<Packet>, kind: Kind, src: int)
    requires FirstMatch(queue, kind, src) < |queue|
    ensures var k := FirstMatch(queue, kind, src);
            && FirstMatch(queue + rest, kind, src) == k && (queue + rest)[k] == queue[k]
            && Without(queue, k) + rest == Without(queue + rest, k)
  {
    FirstMatchAppend(queue, rest, kind, src);
  }

  lemma MoreToCome(queue: seq<Packet>, pipe: seq<seq<Packet>>, kind: Kind, src: int)
    requires FirstMatch(queue, kind, src) == |queue|
             && FirstMatch(queue + Kept(Join(pipe)), kind, src) < |queue + Kept(Join(pipe))|
    ensures pipe != []
  {
    assert Kept(Join([])) == [] && queue + [] == queue;
  }

  lemma SearchedSoFar(before: seq<Node>, nodes: seq<Node>, kind: Kind, src: int)
    requires before <= nodes && FirstMatch(Packets(before), kind, src) == |before|
    ensures |before| <= FirstMatch(Packets(nodes), kind, src)
  {
    assert Packets(nodes) == Packets(before) + Packets(nodes[|before|..]);
    FirstMatchAppend(Packets(before), Packets(nodes[|before|..]), kind, src);
  }
}
