/** Copying string maps: merging one into another, packing one into a buffer, and unpacking. */
module StrTransfer {
  import opened Lex
  import opened AvlTree
  import opened StrNodes
  import opened StrItems
  import opened StrSearch
  import opened StrMaps
  import opened StrPack
  import opened Buffers

  lemma ItemsLength(m: StrMap)
    requires m.Valid()
    ensures |m.items| == |InOrder(m.tree)| && Sorted(m.items) && m.len == SizeOf(m.items)
    ensures Located(ShapeOf(m.own), m.own, m.tree, Top) && m.root == Root(m.tree)
  {
    hide LexCmp;
    GoodIsSorted(ShapeOf(m.own), ValuesOf(m.own), m.own, m.tree, m.items);
  }

  ghost function NodeAt(m: StrMap, i: nat): StrNode?
    reads m
  {
    Nth(m.tree, i)
  }

  ghost function Nth(t: Tree<StrNode>, i: nat): StrNode? {
    if i < |InOrder(t)| then InOrder(t)[i] else null
  }

  lemma NodeAtIs(m: StrMap, i: nat)
    ensures NodeAt(m, i) == Nth(m.tree, i)
  {
  }

  /** What a walk sees at position `i`. */
  lemma PairOfNode(m: StrMap, i: nat)
    requires m.Valid() && i <= |m.items|
    ensures NodeAt(m, i) == null <==> i == |m.items|
    ensures i < |m.items| ==> m.items[i] == (NodeAt(m, i).key, NodeAt(m, i).value)
  {
  }

  /** The node with the smallest key of the map, if there is one. */
  method First(m: StrMap) returns (node: StrNode?)
    requires m.Valid()
    ensures node == NodeAt(m, 0) && (node == null <==> m.Contents() == map[])
    ensures node != null ==>
              && node.key in m.Contents() && m.Contents()[node.key] == node.value
              && forall k :: k in m.Contents() ==> k == node.key || StrBefore(node.key, k)
  {
    hide StrMap.Valid, StrBefore, LexCmp, MapOf, Sorted, SizeOf;
    ItemsLength(m);
    hide Located, InOrder;
    node := Leftmost(m.root, m.own, m.tree, Top);
    FirstIsLeast(m);
  }

  /** The node with the next larger key of the map, if there is one. */
  method NextOf(m: StrMap, node: StrNode, ghost i: nat) returns (next: StrNode?)
    requires m.Valid() && node == NodeAt(m, i)
    ensures next == NodeAt(m, i + 1)
    ensures next == null ==> forall k :: k in m.Contents() ==> !StrBefore(node.key, k)
    ensures next != null ==>
              && StrBefore(node.key, next.key)
              && next.key in m.Contents() && m.Contents()[next.key] == next.value
              && forall k :: k in m.Contents() && StrBefore(node.key, k) ==> k == next.key || StrBefore(next.key, k)
  {
    hide StrMap.Valid, StrBefore, LexCmp, MapOf, Sorted, SizeOf;
    ItemsLength(m);
    hide Located, InOrder;
    next := Next(node, m.own, m.tree, i);
    NextIsLeast(m, i);
  }

  lemma FirstIsLeast(m: StrMap)
    requires m.Valid()
    ensures NodeAt(m, 0) == null <==> m.Contents() == map[]
    ensures NodeAt(m, 0) != null ==>
              var node := NodeAt(m, 0);
              && node.key in m.Contents() && m.Contents()[node.key] == node.value
              && forall k :: k in m.Contents() ==> k == node.key || StrBefore(node.key, k)
  {
    hide *;
    ItemsLength(m);
    PairOfNode(m, 0);
    StartWalk(m, map[]);
    LeastKey(m.items);
  }

  lemma NextIsLeast(m: StrMap, i: nat)
    requires m.Valid() && NodeAt(m, i) != null
    ensures NodeAt(m, i + 1) == null ==> forall k :: k in m.Contents() ==> !StrBefore(NodeAt(m, i).key, k)
    ensures NodeAt(m, i + 1) != null ==>
              var node, next := NodeAt(m, i), NodeAt(m, i + 1);
              && StrBefore(node.key, next.key)
              && next.key in m.Contents() && m.Contents()[next.key] == next.value
              && forall k :: k in m.Contents() && StrBefore(node.key, k) ==> k == next.key || StrBefore(next.key, k)
  {
    hide *;
    ItemsLength(m);
    NodeAtIs(m, i);
    WithinTree(m.tree, i);
    PairOfNode(m, i);
    PairOfNode(m, i + 1);
    StartWalk(m, map[]);
    LeastKeyAfter(m.items, i);
  }

  lemma LeastKey(s: seq<Pair>)
    requires Sorted(s)
    ensures s == [] <==> MapOf(s) == map[]
    ensures s != [] ==>
              && s[0].0 in MapOf(s) && MapOf(s)[s[0].0] == s[0].1
              && forall k :: k in MapOf(s) ==> k == s[0].0 || StrBefore(s[0].0, k)
  {
    hide *;
    if s == [] {
      NoEntries(map[]);
    } else {
      PairsOfMap(s, 0);
      SortedByStrcmp(s);
      forall k | k in MapOf(s) ensures k == s[0].0 || StrBefore(s[0].0, k) {
        MapOfKeys(s, k);
      }
    }
  }

  lemma LeastKeyAfter(s: seq<Pair>, i: nat)
    requires Sorted(s) && i < |s|
    ensures i + 1 == |s| ==> forall k :: k in MapOf(s) ==> !StrBefore(s[i].0, k)
    ensures i + 1 < |s| ==>
              && StrBefore(s[i].0, s[i + 1].0) && s[i + 1].0 in MapOf(s) && MapOf(s)[s[i + 1].0] == s[i + 1].1
              && forall k :: k in MapOf(s) && StrBefore(s[i].0, k) ==> k == s[i + 1].0 || StrBefore(s[i + 1].0, k)
  {
    hide *;
    SortedByStrcmp(s);
    forall k | k in MapOf(s) && StrBefore(s[i].0, k)
      ensures i + 1 < |s| && (k == s[i + 1].0 || StrBefore(s[i + 1].0, k))
    {
      MapOfKeys(s, k);
    }
    if i + 1 < |s| {
      PairsOfMap(s, i + 1);
    }
  }

  lemma WithinTree(t: Tree<StrNode>, i: nat)
    ensures Nth(t, i) != null ==> i < |InOrder(t)|
  {
  }

  /** Copy one entry.  If the map is copied into itself, nothing changes. */
  method CopyEntry(dst: StrMap, src: StrMap, node: StrNode, ghost i: nat)
    requires dst.Valid() && src.Valid() && (dst == src || dst.own !! src.own) && node == NodeAt(src, i)
             && i < |src.items|
    modifies dst, dst.own
    ensures dst.Valid() && src.Valid() && (dst == src || dst.own !! src.own) && fresh(dst.own - old(dst.own))
    ensures dst.Contents() == old(dst.Contents())[old(src.items)[i].0 := old(src.items)[i].1]
    ensures src.items == old(src.items) && node == NodeAt(src, i)
  {
    hide *;
    ghost var items := src.items;
    NodeAtIs(src, i);
    PairOfNode(src, i);
    ItemsLength(src);
    StartWalk(src, map[]);
    PairsOfMap(items, i);
    dst.Set(node.key, node.value);
    if dst == src {
      ItemsLength(dst);
      StartWalk(dst, map[]);
      SameUpdate(MapOf(items), items[i].0, items[i].1);
      ItemsUnique(dst.items, items);
    }
    NodeAtIs(src, i);
  }

  lemma SameUpdate(m: map<CString, CString>, k: CString, v: CString)
    requires k in m && m[k] == v
    ensures m[k := v] == m
  {
  }

  /** Copy every entry of `src` into `dst`.  Two maps have no node in common, or are the same map. */
  method Merge(dst: StrMap, src: StrMap)
    requires dst.Valid() && src.Valid() && (dst == src || dst.own !! src.own)
    modifies dst, dst.own
    ensures dst.Valid() && fresh(dst.own - old(dst.own))
    ensures dst.Contents() == old(dst.Contents()) + old(src.Contents())
  {
    hide *;
    ghost var items, i, before := src.items, 0, dst.Contents();
    StartWalk(src, before);
    var node := First(src);
    PairOfNode(src, 0);
    while node != null
      invariant i <= |items| && node == NodeAt(src, i) && (node == null <==> i == |items|)
      invariant src.Valid() && src.items == items && (dst == src || dst.own !! src.own)
      invariant dst.Valid() && fresh(dst.own - old(dst.own))
      invariant dst.Contents() == before + MapOf(items[..i])
      decreases |items| - i
    {
      CopyEntry(dst, src, node, i);
      MapOfStep(before, items, i);
      node := NextOf(src, node, i);
      i := i + 1;
      PairOfNode(src, i);
    }
    assert items[..i] == items;
  }

  lemma StartWalk(m: StrMap, before: map<CString, CString>)
    ensures before == before + MapOf(m.items[..0]) && m.Contents() == MapOf(m.items)
  {
    assert m.items[..0] == [];
  }

  lemma MapOfStep(before: map<CString, CString>, items: seq<Pair>, i: nat)
    requires i < |items|
    ensures (before + MapOf(items[..i]))[items[i].0 := items[i].1] == before + MapOf(items[..i + 1])
  {
    assert items[..i + 1][..i] == items[..i];
  }

  // ----- packing -----

  /** The bytes `done` have been written at position `at`, and nothing else. */
  ghost predicate Written(now: Bytes, before: Bytes, at: nat, done: Bytes) {
    at + |done| <= |before| && now == before[..at] + done + before[at + |done|..]
  }

  /** Append bytes to what has been written. */
  method Append(buf: array<int>, ptr: nat, b: Bytes, ghost before: Bytes, ghost at: nat, ghost done: Bytes)
    returns (next: nat)
    requires Written(buf[..], before, at, done) && ptr == at + |done| && ptr + |b| <= buf.Length
    modifies buf
    ensures Written(buf[..], before, at, done + b) && next == ptr + |b|
  {
    CopyInto(buf, ptr, b);
    next := ptr + |b|;
  }

  /** Pack the map at position `at` of the buffer: the bytes of its pairs go there, and nothing
      else changes. */
  method Pack(buf: array<int>, at: nat, m: StrMap) returns (size: int)
    requires m.Valid() && at + 8 + m.len <= buf.Length
    modifies buf
    ensures size == 8 + m.len == |PackBytes(m.items)|
    ensures buf[..] == old(buf[..at]) + PackBytes(m.items) + old(buf[at + size..])
    ensures forall i :: at <= i < at + 8 ==> buf[i] == Digit(size, at + 7 - i)
    ensures MapOf(m.items) == m.Contents()
    ensures forall i, j :: 0 <= i < j < |m.items| ==> StrBefore(m.items[i].0, m.items[j].0)
  {
    hide *;
    ItemsLength(m);
    SortedByStrcmp(m.items);
    StartWalk(m, map[]);
    ghost var items, i, before := m.items, 0, buf[..];
    size := 8 + m.len;
    ghost var done := BigEndian(size, 8);
    assert Written(before, before, at, []) by { NothingWritten(before, at); }
    var ptr := Append(buf, at, BigEndian(size, 8), before, at, []);
    assert [] + done == done;
    var node := First(m);
    PairOfNode(m, 0);
    PackStart(items);
    while node != null
      invariant m.Valid() && m.items == items
      invariant i <= |items| && node == NodeAt(m, i) && (node == null <==> i == |items|)
      invariant done == BigEndian(size, 8) + PackPairs(items[..i])
      invariant ptr == at + |done| && |done| == 8 + SizeOf(items[..i])
      invariant Written(buf[..], before, at, done)
      decreases |items| - i
    {
      PairOfNode(m, i);
      PackNext(items, i);
      ghost var key := node.key + [0];
      ptr := Append(buf, ptr, node.key + [0], before, at, done);
      ptr := Append(buf, ptr, node.value + [0], before, at, done + key);
      Associate(BigEndian(size, 8), PackPairs(items[..i]), key, node.value + [0]);
      done := done + key + (node.value + [0]);
      node := NextOf(m, node, i);
      i := i + 1;
      PairOfNode(m, i);
    }
    assert items[..i] == items;
    PackEnd(items, buf[..], before, at);
    PackHeader(items, before[..at], buf[..], before[at + size..]);
    assert forall j :: at <= j < at + 8 ==> buf[j] == buf[..][j];
  }

  lemma PackHeader(items: seq<Pair>, front: Bytes, now: Bytes, back: Bytes)
    requires now == front + PackBytes(items) + back
    ensures forall i :: |front| <= i < |front| + 8 ==> now[i] == Digit(8 + SizeOf(items), |front| + 7 - i)
  {
    hide *;
    var n := 8 + SizeOf(items);
    HeaderDigits(n);
    forall i | |front| <= i < |front| + 8 ensures now[i] == Digit(n, |front| + 7 - i) {
      var j := i - |front|;
      PackIs(items);
      FrontOf(front, BigEndian(n, 8), PackPairs(items), back, j);
      assert |front| + 7 - i == 7 - j;
    }
  }

  lemma FrontOf(front: Bytes, head: Bytes, rest: Bytes, back: Bytes, j: nat)
    requires j < |head|
    ensures (front + (head + rest) + back)[|front| + j] == head[j]
  {
  }

  lemma NothingWritten(before: Bytes, at: nat)
    requires at <= |before|
    ensures Written(before, before, at, [])
  {
  }

  lemma Associate(a: Bytes, b: Bytes, c: Bytes, d: Bytes)
    ensures (a + b) + c + d == a + (b + (c + d))
  {
  }

  lemma PackStart(items: seq<Pair>)
    ensures PackPairs(items[..0]) == [] && SizeOf(items[..0]) == 0
  {
  }

  lemma PackNext(items: seq<Pair>, i: nat)
    requires i < |items|
    ensures PackPairs(items[..i + 1]) == PackPairs(items[..i]) + ((items[i].0 + [0]) + (items[i].1 + [0]))
    ensures SizeOf(items[..i + 1]) == SizeOf(items[..i]) + (|items[i].0| + 1) + (|items[i].1| + 1)
    ensures SizeOf(items[..i + 1]) <= SizeOf(items)
  {
    assert items[..i + 1] == items[..i] + [items[i]];
    PackPairsAppend(items[..i], items[i]);
    PackedSizes(items, i);
  }

  lemma PackEnd(items: seq<Pair>, now: Bytes, before: Bytes, at: nat)
    requires Written(now, before, at, BigEndian(8 + SizeOf(items), 8) + PackPairs(items))
    ensures now == before[..at] + PackBytes(items) + before[at + 8 + SizeOf(items)..]
  {
    hide BigEndian, PackPairs, SizeOf, PackBytes;
    PackIs(items);
  }

  // ----- unpacking -----

  /** `strlen` of the string at position `at`, which ends before `end`. */
  method StrLen(buf: array<int>, at: nat, ghost end: nat) returns (n: nat)
    requires at <= end < buf.Length && buf[end] == 0
    ensures at + n <= end && buf[at + n] == 0 && forall k :: at <= k < at + n ==> buf[k] != 0
  {
    n := 0;
    while buf[at + n] != 0
      invariant at + n <= end && forall k :: at <= k < at + n ==> buf[k] != 0
      decreases end - n
    {
      n := n + 1;
    }
  }

  /** Unpack one key and one value at `ptr`, where the well-formed bytes `rest` begin. */
  method NextEntry(buf: array<int>, ptr: nat, ghost end: nat) returns (key: CString, value: CString, next: nat)
    requires ptr < end <= buf.Length && WellFormed(buf[ptr..end])
    ensures ptr < next <= end && WellFormed(buf[next..end])
    ensures ParsePairs(buf[ptr..end]) == [(key, value)] + ParsePairs(buf[next..end])
  {
    hide *;
    ghost var b := buf[ptr..end];
    ghost var e, f := TwoStrings(b);
    assert b[e] == buf[ptr + e] && b[f] == buf[ptr + f];
    var n := StrLen(buf, ptr, ptr + e);
    key := buf[ptr..ptr + n];
    assert n == e by { SameEnd(b, 0, e, n); }
    assert key == b[0..e] == b[..e] by { SliceOfSlice(buf[..], ptr, end, 0, e); }
    var k := StrLen(buf, ptr + n + 1, ptr + f);
    value := buf[ptr + n + 1..ptr + n + 1 + k];
    assert n + 1 + k == f by { SameEnd(b, e + 1, f, n + 1 + k); }
    assert value == b[e + 1..f] by { SliceOfSlice(buf[..], ptr, end, e + 1, f); }
    next := ptr + (n + 1) + (k + 1);
    assert b[f + 1..] == buf[next..end] by { SliceOfSlice(buf[..], ptr, end, f + 1, end - ptr); }
    ParseStep(b, e, f);
  }

  lemma SliceOfSlice(s: Bytes, lo: nat, hi: nat, i: nat, j: nat)
    requires i <= j && lo + j <= hi <= |s|
    ensures s[lo..hi][i..j] == s[lo + i..lo + j]
  {
    var a, b := s[lo..hi][i..j], s[lo + i..lo + j];
    assert |a| == |b|;
    forall k | 0 <= k < |a| ensures a[k] == b[k] {
      assert a[k] == s[lo..hi][i + k] == s[lo + (i + k)];
    }
  }

  lemma TwoStrings(b: Bytes) returns (e: nat, f: nat)
    requires b != [] && WellFormed(b)
    ensures e < f < |b| && StrEnd(b, 0) == e && StrEnd(b, e + 1) == f && b[e] == 0 && b[f] == 0
            && WellFormed(b[f + 1..])
  {
    e := StrEnd(b, 0);
    f := StrEnd(b, e + 1);
  }

  lemma SameEnd(b: Bytes, i: nat, e: nat, n: nat)
    requires i <= n < |b| && StrEnd(b, i) == e && b[n] == 0 && forall k :: i <= k < n ==> b[k] != 0
    ensures n == e
  {
    StrEndUnique(b, i, n);
  }

  /** Unpack the map at position `at` of the buffer into `m`: its entries override those of `m`. */
  method Unpack(buf: array<int>, at: nat, m: StrMap) returns (size: int)
    requires m.Valid() && at + 8 <= buf.Length && at + BigValue(buf[at..at + 8]) <= buf.Length
    requires 8 <= BigValue(buf[at..at + 8]) ==> WellFormed(buf[at + 8..at + BigValue(buf[at..at + 8])])
    modifies m, m.own
    ensures m.Valid() && fresh(m.own - old(m.own)) && size == BigValue(buf[at..at + 8])
    ensures 8 <= size ==> m.Contents() == old(m.Contents()) + MapOf(ParsePairs(buf[at + 8..at + size]))
    ensures size < 8 ==> m.Contents() == old(m.Contents())
  {
    hide *;
    size := BigValue(buf[at..at + 8]);
    var ptr, end := at + 8, at + size;
    ghost var all := if 8 <= size then ParsePairs(buf[at + 8..at + size]) else [];
    ghost var done, before := [], m.Contents();
    NoEntries(before);
    while ptr < end
      invariant at + 8 <= ptr && (8 <= size ==> ptr <= end)
      invariant 8 <= size ==> WellFormed(buf[ptr..end]) && all == done + ParsePairs(buf[ptr..end])
      invariant size < 8 ==> done == []
      invariant m.Valid() && fresh(m.own - old(m.own))
      invariant m.Contents() == before + MapOf(done)
      decreases end - ptr
    {
      var key, value, next := NextEntry(buf, ptr, end);
      m.Set(key, value);
      MergeOne(before, done, key, value);
      assert all == (done + [(key, value)]) + ParsePairs(buf[next..end]);
      ptr := next;
      done := done + [(key, value)];
    }
    if 8 <= size {
      assert buf[ptr..end] == [];
      NoBytes();
      assert all == done + [] == done;
    }
  }

  lemma NoBytes()
    ensures WellFormed([]) && ParsePairs([]) == []
  {
  }

  lemma NoEntries(before: map<CString, CString>)
    ensures before == before + MapOf([])
  {
  }

  lemma MergeOne(before: map<CString, CString>, done: seq<Pair>, key: CString, value: CString)
    ensures (before + MapOf(done))[key := value] == before + MapOf(done + [(key, value)])
  {
    assert (done + [(key, value)])[..|done|] == done;
  }

  // ----- over a channel -----

  /** The bytes of a map on a channel: the packed size, then the packed map. */
  function WireBytes(s: seq<Pair>): Bytes {
    BigEndian(8 + SizeOf(s), 8) + PackBytes(s)
  }

  /** Write a map to a channel. */
  method WriteMap(m: StrMap) returns (wire: Bytes)
    requires m.Valid()
    ensures wire == WireBytes(m.items) && (AllNulFree(m.items) ==> AreBytes(wire))
  {
    hide *;
    ItemsLength(m);
    var size := 8 + m.len;
    var buf := new int[8 + size];
    CopyInto(buf, 0, BigEndian(size, 8));
    wire := buf[..8];
    assert wire == BigEndian(size, 8);
    var n := Pack(buf, 8, m);
    assert buf[8..8 + size] == PackBytes(m.items);
    wire := wire + buf[8..8 + size];
    WireIs(m.items);
    if AllNulFree(m.items) {
      WireAreBytes(m.items);
    }
  }

  /** Everything that is sent for a map is a byte. */
  lemma WireAreBytes(s: seq<Pair>)
    requires AllNulFree(s)
    ensures AreBytes(WireBytes(s))
  {
    hide *;
    WireIs(s);
    BigEndianDigits(8 + SizeOf(s), 8);
    PackedAreBytes(s);
    BytesJoin(BigEndian(8 + SizeOf(s), 8), PackBytes(s));
  }

  lemma WireIs(s: seq<Pair>)
    ensures WireBytes(s) == BigEndian(8 + SizeOf(s), 8) + PackBytes(s)
  {
  }

  /** What the map reader expects of a packed map of `n` bytes. */
  predicate Readable(b: Bytes) {
    8 <= |b| && 8 <= BigValue(b[..8]) <= |b| && WellFormed(b[8..BigValue(b[..8])])
  }

  lemma ReadableMap(b: Bytes)
    requires Readable(b)
    ensures 8 <= |b| && 8 <= BigValue(b[..8]) <= |b| && WellFormed(b[8..BigValue(b[..8])])
    ensures UnpackMap(b) == MapOf(ParsePairs(b[8..BigValue(b[..8])]))
  {
  }

  /** Read a map from a channel that holds the bytes `wire`, into `m`.  A channel that ends too
      early leaves `m` as it is. */
  method ReadMap(wire: Bytes, m: StrMap)
    requires m.Valid()
    requires 8 <= |wire| && 0 < BigValue(wire[..8]) <= |wire| - 8 ==> Readable(wire[8..8 + BigValue(wire[..8])])
    modifies m, m.own
    ensures m.Valid() && fresh(m.own - old(m.own))
    ensures m.Contents() == old(m.Contents()) +
              if 8 <= |wire| && 0 < BigValue(wire[..8]) <= |wire| - 8
                then UnpackMap(wire[8..8 + BigValue(wire[..8])]) else map[]
  {
    hide *;
    if |wire| < 8 { return; }
    var len := BigValue(wire[..8]);
    if 0 < len {
      if |wire| < 8 + len { return; }
      var buf := new int[len];
      CopyInto(buf, 0, wire[8..8 + len]);
      ghost var b := wire[8..8 + len];
      assert buf[..] == b;
      ReadableMap(b);
      assert buf[0..8] == b[..8];
      assert buf[8..BigValue(b[..8])] == b[8..BigValue(b[..8])];
      var _ := Unpack(buf, 0, m);
    }
  }

  /** Reading back what was written: the entries of the written map override those of the map
      that is read into. */
  lemma WireRoundTrip(s: seq<Pair>, tail: Bytes)
    requires AllNulFree(s) && 8 + SizeOf(s) < Pow256(8)
    ensures var wire := WireBytes(s) + tail;
            && 8 <= |wire| && 0 < BigValue(wire[..8]) <= |wire| - 8
            && Readable(wire[8..8 + BigValue(wire[..8])]) && UnpackMap(wire[8..8 + BigValue(wire[..8])]) == MapOf(s)
  {
    hide *;
    var wire, n := WireBytes(s) + tail, 8 + SizeOf(s);
    WireIs(s);
    assert wire == BigEndian(n, 8) + PackBytes(s) + tail;
    assert wire[..8] == BigEndian(n, 8);
    BigEndianRoundTrip(n, 8);
    assert wire[8..8 + n] == PackBytes(s);
    UnpackPacked(s);
    PackedReadable(s);
  }

  lemma PackedReadable(s: seq<Pair>)
    requires AllNulFree(s) && 8 + SizeOf(s) < Pow256(8)
    ensures Readable(PackBytes(s))
  {
    var b, n := PackBytes(s), 8 + SizeOf(s);
    hide WellFormed, SizeOf, BigValue, BigEndian, Pow256, PackPairs;
    assert b[..8] == BigEndian(n, 8) && b[8..n] == PackPairs(s);
    BigEndianRoundTrip(n, 8);
    ParsePacked(s);
  }
}
