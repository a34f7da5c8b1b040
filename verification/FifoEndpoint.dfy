/** The endpoint of a process over named pipes: giving out channel ids, and waiting at the last
  close until every peer has disconnected. */
module FifoEndpoint {
  import opened Lists
  import opened FifoQueue
  import opened Lex
  import opened StrPack

  /** A connection request: the id that the reply is to carry, and the name to reply to. */
  function Request(readid: nat, name: CString): Packet {
    Packet(Connect, -1, BigEndian(readid, 8) + name + [0])
  }

  /** The reply: marked with the id from the request, it carries the id for the peer to use. */
  function Reply(writeid: int, readid: nat): Packet {
    Packet(Accept, writeid, BigEndian(readid, 8))
  }

  /** The id at the front of a request or a reply. */
  function IdOf(p: Packet): int
    requires 8 <= |p.data|
  {
    BigValue(p.data[..8])
  }

  /** The name behind it. */
  function NameOf(p: Packet): CString
    requires 8 <= |p.data|
  {
    p.data[8..StrEnd(p.data, 8)]
  }

  lemma RequestRead(readid: nat, name: CString)
    requires readid < Pow256(8) && NulFree(name)
    ensures var p := Request(readid, name);
            && p.kind == Connect && 8 <= StrEnd(p.data, 8) < |p.data| && IdOf(p) == readid && NameOf(p) == name
  {
    hide BigEndian, BigValue, StrEnd, Pow256;
    var p := Request(readid, name);
    assert p.data[..8] == BigEndian(readid, 8);
    BigEndianRoundTrip(readid, 8);
    assert forall i :: 8 <= i < 8 + |name| ==> p.data[i] == name[i - 8];
    StrEndUnique(p.data, 8, 8 + |name|);
    assert p.data[8..8 + |name|] == name;
  }

  lemma ReplyRead(writeid: int, readid: nat)
    requires readid < Pow256(8)
    ensures var p := Reply(writeid, readid);
            p.kind == Accept && p.src == writeid && 8 <= |p.data| && IdOf(p) == readid
  {
    hide BigEndian, BigValue, Pow256;
    var p := Reply(writeid, readid);
    assert p.data[..8] == BigEndian(readid, 8);
    BigEndianRoundTrip(readid, 8);
  }

  /** A channel: the id that the peer puts on its packets, and the id to put on ours. */
  datatype Channel = Channel(readid: nat, writeid: int)

  class Endpoint {
    const rx: Receiver
    var nextId: nat
    var openCount: int
    /** The read ids of all channels ever established. */
    ghost var established: set<int>

    ghost predicate Valid()
      reads this, rx, rx.nodes
    {
      && rx.Valid() && rx.writerCount == |established| - |rx.departed| && nextId >= 1
      && forall id <- established :: 0 < id < nextId
    }

    constructor (pipe: seq<seq<Packet>>)
      ensures Valid() && fresh(rx) && fresh(rx.nodes) && rx.pipe == pipe && rx.departed == [] && rx.nodes == []
      ensures established == {} && openCount == 0 && nextId == 1
    {
      rx := new Receiver(pipe);
      nextId, openCount, established := 1, 0, {};
    }

    method Open()
      requires Valid()
      modifies this`openCount
      ensures Valid() && openCount == old(openCount) + 1
    {
      openCount := openCount + 1;
    }

    /** The first half of a connect call: the request carries the id for the peer to use. */
    method ConnectRequest(name: CString) returns (readid: nat, request: Packet)
      requires Valid()
      modifies this`nextId
      ensures Valid() && readid == old(nextId) && readid !in established && nextId == readid + 1
      ensures request == Request(readid, name)
      ensures readid < Pow256(8) && NulFree(name) ==>
                request.kind == Connect && 8 <= |request.data| && IdOf(request) == readid && NameOf(request) == name
    {
      hide BigEndian, NulFree, StrEnd, BigValue;
      readid := nextId;
      nextId := nextId + 1;
      request := Packet(Connect, -1, BigEndian(readid, 8) + name + [0]);
      if readid < Pow256(8) && NulFree(name) {
        RequestRead(readid, name);
      }
    }

    /** The second half: wait for the reply, and count the new writer.  The reply is the first ACCEPT
        packet that is marked with the id of the request, whatever else comes before it. */
    method ConnectReply(readid: nat) returns (ch: Channel)
      requires Valid() && 0 < readid < nextId && readid !in established
      requires FirstMatch(rx.Coming(), Accept, readid) < |rx.Coming()|
      requires 8 <= |rx.Coming()[FirstMatch(rx.Coming(), Accept, readid)].data|
      modifies this`established, rx, rx.nodes
      ensures Valid() && ch.readid == readid && established == old(established) + {readid}
      ensures var (coming, k) := (old(rx.Coming()), FirstMatch(old(rx.Coming()), Accept, readid));
              && coming[k].kind == Accept && coming[k].src == readid
              && (forall j :: 0 <= j < k && coming[j].kind == Accept ==> coming[j].src != readid)
              && ch.writeid == IdOf(coming[k]) && rx.Coming() == coming[..k] + coming[k + 1..]
    {
      hide FirstMatch, Without, BigValue, Receiver.Valid;
      var p := rx.PacketRead(Accept, readid);
      var writeid := BigValue(p.data[..8]);
      rx.AddWriter();
      established := established + {readid};
      ch := Channel(readid, writeid);
    }

    /** Accept the first connection request, whatever else comes before it; the reply, for the pipe
        `name`, carries the id for the peer to use. */
    method AcceptRequest() returns (ch: Channel, name: CString, reply: Packet)
      requires Valid() && FirstMatch(rx.Coming(), Connect, -1) < |rx.Coming()|
      requires 8 <= |rx.Coming()[FirstMatch(rx.Coming(), Connect, -1)].data|
      modifies this`nextId, this`established, rx, rx.nodes
      ensures Valid() && ch.readid == old(nextId) && nextId == old(nextId) + 1
      ensures ch.readid !in old(established) && established == old(established) + {ch.readid}
      ensures var (coming, k) := (old(rx.Coming()), FirstMatch(old(rx.Coming()), Connect, -1));
              && coming[k].kind == Connect && (forall j :: 0 <= j < k ==> coming[j].kind != Connect)
              && ch.writeid == IdOf(coming[k]) && name == NameOf(coming[k])
              && rx.Coming() == coming[..k] + coming[k + 1..]
      ensures reply == Reply(ch.writeid, ch.readid) && reply.kind == Accept && reply.src == ch.writeid
      ensures ch.readid < Pow256(8) ==> 8 <= |reply.data| && IdOf(reply) == ch.readid
    {
      hide FirstMatch, Without, BigValue, BigEndian, StrEnd, Receiver.Valid, Receiver.Coming, Pow256;
      var p := rx.PacketRead(Connect, -1);
      var writeid := BigValue(p.data[..8]);
      name := p.data[8..StrEnd(p.data, 8)];
      var readid := nextId;
      nextId := nextId + 1;
      reply := Packet(Accept, writeid, BigEndian(readid, 8));
      if readid < Pow256(8) {
        ReplyRead(writeid, readid);
      }
      rx.AddWriter();
      established := established + {readid};
      ch := Channel(readid, writeid);
    }

    /** Close once.  The last close returns only when as many disconnect messages have been seen as
        channels were established; every peer must therefore disconnect sooner or later. */
    method Close() returns (ok: bool)
      requires Valid()
      requires openCount == 1 ==> |established| <= |rx.departed| + |Leaving(Join(rx.pipe))|
      modifies this`openCount, rx, rx.nodes
      ensures Valid() && established == old(established)
      ensures ok == (old(openCount) > 0) && openCount == (if ok then old(openCount) - 1 else old(openCount))
      ensures rx.Coming() == old(rx.Coming())
      ensures rx.departed + Leaving(Join(rx.pipe)) == old(rx.departed) + Leaving(Join(old(rx.pipe)))
      ensures ok && openCount == 0 ==> |rx.departed| >= |established|
    {
      hide Receiver.Valid, Leaving, Join;
      if openCount <= 0 { return false; }
      openCount := openCount - 1;
      if openCount == 0 {
        while rx.writerCount > 0
          invariant Valid() && openCount == 0
          invariant forall j :: 0 <= j < |rx.nodes| ==> rx.nodes[j] in old(rx.nodes) || fresh(rx.nodes[j])
          invariant rx.Coming() == old(rx.Coming())
          invariant rx.departed + Leaving(Join(rx.pipe)) == old(rx.departed) + Leaving(Join(old(rx.pipe)))
          decreases |rx.pipe|
        {
          assert rx.pipe != [] by {
            assert |rx.departed + Leaving(Join(rx.pipe))| >= |established|;
            NothingLeft();
          }
          rx.Progress();
        }
      }
      return true;
    }
  }

  lemma NothingLeft()
    ensures Leaving(Join([])) == []
  {
  }

  /** If the peers disconnect at most once each, and only established ones do, then seeing as many
      disconnect messages as there are channels means that every peer has disconnected. */
  lemma {:induction false} AllDeparted(departed: seq<int>, established: set<int>)
    requires NoDup(departed) && (forall i :: 0 <= i < |departed| ==> departed[i] in established)
    requires |departed| >= |established|
    ensures forall id <- established :: id in departed
    decreases |departed|
  {
    if departed == [] {
      assert |established| == 0;
    } else {
      var n := |departed| - 1;
      var last := departed[n];
      AllDeparted(departed[..n], established - {last});
      assert established == (established - {last}) + {last};
      assert departed == departed[..n] + [last];
    }
  }
}
