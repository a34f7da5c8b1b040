/** Bytes: cutting them into packets, putting packets together, and copying them. */
module Buffers {
  type Bytes = seq<int>

  function Flat(ps: seq<Bytes>): Bytes {
    if ps == [] then [] else ps[0] + Flat(ps[1..])
  }

  /** The bytes cut into packets of at most `max` bytes. */
  function Chunks(b: Bytes, max: nat): seq<Bytes>
    requires max > 0
    decreases |b|
  {
    if b == [] then [] else if |b| <= max then [b] else [b[..max]] + Chunks(b[max..], max)
  }

  /** Cutting loses nothing, and every packet fits and is not empty. */
  lemma {:induction false} ChunksFlat(b: Bytes, max: nat)
    requires max > 0
    ensures Flat(Chunks(b, max)) == b
    ensures forall i :: 0 <= i < |Chunks(b, max)| ==> 0 < |Chunks(b, max)[i]| <= max
    decreases |b|
  {
    if b != [] {
      if |b| <= max {
        assert Chunks(b, max) == [b] && Flat([b]) == b + Flat([]);
      } else {
        ChunksFlat(b[max..], max);
        assert b == b[..max] + b[max..];
      }
    }
  }

  /** The first packet of what is left. */
  lemma NextChunk(buf: Bytes, at: nat, bytes: nat, max: nat)
    requires max > 0 && at < |buf| && bytes == if |buf| - at > max then max else |buf| - at
    ensures Chunks(buf[at..], max) == [buf[at..at + bytes]] + Chunks(buf[at + bytes..], max)
  {
    var rest := buf[at..];
    assert rest[..bytes] == buf[at..at + bytes];
    assert rest[bytes..] == buf[at + bytes..];
    if bytes == |rest| {
      assert rest[..bytes] == rest && buf[at + bytes..] == [];
    }
  }

  lemma {:induction false} FlatAppend(a: seq<Bytes>, b: seq<Bytes>)
    ensures Flat(a + b) == Flat(a) + Flat(b)
  {
    if a == [] {
      assert a + b == b;
    } else {
      var r := a + b;
      assert r[1..] == a[1..] + b && r[0] == a[0];
      FlatAppend(a[1..], b);
      calc {
        Flat(r);
        a[0] + Flat(a[1..] + b);
        a[0] + (Flat(a[1..]) + Flat(b));
        Flat(a) + Flat(b);
      }
    }
  }

  lemma FlatPrefix(a: seq<Bytes>, b: seq<Bytes>)
    requires a <= b
    ensures Flat(a) <= Flat(b)
  {
    assert b == a + b[|a|..];
    FlatAppend(a, b[|a|..]);
  }

  /** The packets of several writes. */
  function AllChunks(writes: seq<Bytes>, max: nat): seq<Bytes>
    requires max > 0
    decreases |writes|
  {
    if writes == [] then [] else Chunks(writes[0], max) + AllChunks(writes[1..], max)
  }

  lemma {:induction false} AllChunksAppend(writes: seq<Bytes>, buf: Bytes, max: nat)
    requires max > 0
    ensures AllChunks(writes + [buf], max) == AllChunks(writes, max) + Chunks(buf, max)
    decreases |writes|
  {
    if writes == [] {
      assert writes + [buf] == [buf] && [buf][1..] == [];
      assert Chunks(buf, max) + AllChunks([], max) == Chunks(buf, max) == AllChunks([], max) + Chunks(buf, max);
    } else {
      assert (writes + [buf])[1..] == writes[1..] + [buf];
      AllChunksAppend(writes[1..], buf, max);
    }
  }

  lemma {:induction false} AllChunksFlat(writes: seq<Bytes>, max: nat)
    requires max > 0
    ensures Flat(AllChunks(writes, max)) == Flat(writes)
    decreases |writes|
  {
    if writes != [] {
      ChunksFlat(writes[0], max);
      FlatAppend(Chunks(writes[0], max), AllChunks(writes[1..], max));
      AllChunksFlat(writes[1..], max);
    }
  }

  /** `memcpy` of the bytes `b` to position `at`. */
  method CopyInto(buf: array<int>, at: nat, b: Bytes)
    requires at + |b| <= buf.Length
    modifies buf
    ensures buf[..] == old(buf[..at]) + b + old(buf[at + |b|..])
  {
    var i := 0;
    while i < |b|
      invariant i <= |b|
      invariant forall k :: 0 <= k < i ==> buf[at + k] == b[k]
      invariant forall k :: 0 <= k < buf.Length && !(at <= k < at + i) ==> buf[k] == old(buf[k])
    {
      buf[at + i] := b[i];
      i := i + 1;
    }
  }
}
