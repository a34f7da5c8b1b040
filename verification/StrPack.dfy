/** The packed form of a string map: its total size as eight bytes in network order, followed by
  its keys and values in key order, each ending in a zero byte. */
module StrPack {
  import opened Lex
  import opened StrItems
  import opened Buffers

  // ----- integers in network byte order -----

  function Pow256(k: nat): (r: nat)
    ensures r > 0
  {
    if k == 0 then 1 else 256 * Pow256(k - 1)
  }

  /** The low `k` bytes of `n`, most significant first. */
  function BigEndian(n: nat, k: nat): Bytes
    ensures |BigEndian(n, k)| == k
  {
    if k == 0 then [] else BigEndian(n / 256, k - 1) + [n % 256]
  }

  function BigValue(b: Bytes): int {
    if b == [] then 0 else 256 * BigValue(b[..|b| - 1]) + b[|b| - 1]
  }

  lemma {:induction false} BigEndianRoundTrip(n: nat, k: nat)
    requires n < Pow256(k)
    ensures BigValue(BigEndian(n, k)) == n
  {
    if k > 0 {
      BigEndianRoundTrip(n / 256, k - 1);
      var b := BigEndian(n, k);
      assert b[..|b| - 1] == BigEndian(n / 256, k - 1);
    }
  }

  /** Byte `j` of `k` holds the digit of weight 256^(k - 1 - j): the most significant byte comes first. */
  lemma {:induction false} BigEndianDigits(n: nat, k: nat)
    ensures forall j :: 0 <= j < k ==> BigEndian(n, k)[j] == n / Pow256(k - 1 - j) % 256
    ensures AreBytes(BigEndian(n, k))
  {
    if k > 0 {
      BigEndianDigits(n / 256, k - 1);
      forall j | 0 <= j < k ensures BigEndian(n, k)[j] == n / Pow256(k - 1 - j) % 256 {
        if j < k - 1 {
          DivideTwice(n, Pow256(k - 2 - j));
          assert BigEndian(n, k)[j] == BigEndian(n / 256, k - 1)[j];
        }
      }
    }
  }

  /** The digit of weight 256^k. */
  function Digit(n: nat, k: nat): nat { n / Pow256(k) % 256 }

  lemma HeaderDigits(n: nat)
    ensures forall j :: 0 <= j < 8 ==> BigEndian(n, 8)[j] == Digit(n, 7 - j)
  {
    hide BigEndian, Pow256;
    BigEndianDigits(n, 8);
  }

  lemma DivideTwice(n: nat, p: nat)
    requires p > 0
    ensures n / 256 / p == n / (256 * p)
  {
    var q, r := n / 256 / p, n / 256 % p;
    assert n == 256 * (q * p + r) + n % 256;
    assert n == (256 * p) * q + (256 * r + n % 256);
    assert 0 <= 256 * r + n % 256 < 256 * p;
    QuotientIs(n, 256 * p, q, 256 * r + n % 256);
  }

  lemma QuotientIs(n: int, d: int, q: int, r: int)
    requires 0 <= r < d && n == d * q + r
    ensures n / d == q
  {
    var t := n / d - q;
    assert d * t == r - n % d;
    assert t >= 1 ==> d * t >= d;
    assert t <= -1 ==> d * t <= -d;
  }

  predicate AreBytes(b: Bytes) {
    forall i :: 0 <= i < |b| ==> 0 <= b[i] < 256
  }

  // ----- strings and pairs -----

  /** A string that can be written with a terminating zero. */
  predicate NulFree(s: CString) {
    forall i :: 0 <= i < |s| ==> 1 <= s[i] < 256
  }

  predicate AllNulFree(s: seq<Pair>) {
    forall i :: 0 <= i < |s| ==> NulFree(s[i].0) && NulFree(s[i].1)
  }

  function PackPair(p: Pair): Bytes { p.0 + [0] + (p.1 + [0]) }

  function PackPairs(s: seq<Pair>): (b: Bytes)
    ensures |b| == SizeOf(s)
  {
    if s == [] then [] else PackPair(s[0]) + PackPairs(s[1..])
  }

  function PackBytes(s: seq<Pair>): (b: Bytes)
    ensures |b| == 8 + SizeOf(s)
  {
    BigEndian(8 + SizeOf(s), 8) + PackPairs(s)
  }

  lemma {:induction false} PackPairsAppend(s: seq<Pair>, p: Pair)
    ensures PackPairs(s + [p]) == PackPairs(s) + PackPair(p)
  {
    if s == [] {
      assert s + [p] == [p] && [p][1..] == [];
    } else {
      assert (s + [p])[1..] == s[1..] + [p];
      PackPairsAppend(s[1..], p);
    }
  }

  /** Packed strings are bytes. */
  lemma {:induction false} PairsAreBytes(s: seq<Pair>)
    requires AllNulFree(s)
    ensures AreBytes(PackPairs(s))
  {
    if s != [] {
      assert NulFree(s[0].0) && NulFree(s[0].1);
      assert AreBytes(PackPair(s[0]));
      PairsAreBytes(s[1..]);
    }
  }

  /** Packed maps are bytes, with the size in network order in front. */
  lemma PackedAreBytes(s: seq<Pair>)
    requires AllNulFree(s)
    ensures AreBytes(PackBytes(s))
    ensures forall j :: 0 <= j < 8 ==> PackBytes(s)[j] == Digit(8 + SizeOf(s), 7 - j)
  {
    hide *;
    var n, b := 8 + SizeOf(s), PackBytes(s);
    PackIs(s);
    PairsAreBytes(s);
    BigEndianDigits(n, 8);
    BytesJoin(BigEndian(n, 8), PackPairs(s));
    HeaderDigits(n);
    assert forall j :: 0 <= j < 8 ==> b[j] == BigEndian(n, 8)[j];
  }

  lemma PackIs(s: seq<Pair>)
    ensures PackBytes(s) == BigEndian(8 + SizeOf(s), 8) + PackPairs(s)
  {
  }

  lemma BytesJoin(a: Bytes, b: Bytes)
    requires AreBytes(a) && AreBytes(b)
    ensures AreBytes(a + b)
  {
  }

  /** Where each pair is: behind the header and the pairs before it, first the key and then the
      value, each with its zero. */
  lemma PackedLayout(s: seq<Pair>, i: nat)
    requires i < |s|
    ensures SizeOf(s[..i + 1]) == SizeOf(s[..i]) + |s[i].0| + 1 + |s[i].1| + 1 && SizeOf(s[..i + 1]) <= SizeOf(s)
    ensures PackBytes(s)[8 + SizeOf(s[..i])..8 + SizeOf(s[..i + 1])] == s[i].0 + [0] + s[i].1 + [0]
  {
    hide *;
    PackedSizes(s, i);
    PackedTail(s, i);
    InBytes(PackBytes(s), BigEndian(8 + SizeOf(s), 8), PackPairs(s[..i]), s[i].0, s[i].1, PackPairs(s[i + 1..]),
            8 + SizeOf(s[..i]), 8 + SizeOf(s[..i + 1]));
  }

  lemma PackedSizes(s: seq<Pair>, i: nat)
    requires i < |s|
    ensures SizeOf(s[..i + 1]) == SizeOf(s[..i]) + (|s[i].0| + 1) + (|s[i].1| + 1)
    ensures SizeOf(s[..i + 1]) <= SizeOf(s)
  {
    hide *;
    assert s[..i + 1] == s[..i] + [s[i]] + [] && s[..i] + [] == s[..i];
    SizeOfPair(s[..i], s[i], []);
    assert s == s[..i + 1] + s[i + 1..];
    SizeOfAppend(s[..i + 1], s[i + 1..]);
  }

  lemma PackedTail(s: seq<Pair>, i: nat)
    requires i < |s|
    ensures var pair := s[i].0 + [0] + (s[i].1 + [0]);
            PackBytes(s) == BigEndian(8 + SizeOf(s), 8) + (PackPairs(s[..i]) + (pair + PackPairs(s[i + 1..])))
    ensures |PackPairs(s[..i])| == SizeOf(s[..i])
  {
    hide BigEndian;
    assert s == s[..i] + s[i..] && s[i..][1..] == s[i + 1..];
    PackPairsJoin(s[..i], s[i..]);
  }

  lemma InBytes(
    b: Bytes, head: Bytes, before: Bytes, key: CString, value: CString, rest: Bytes, at: nat, next: nat)
    requires b == head + (before + ((key + [0] + (value + [0])) + rest))
    requires at == |head| + |before| && next == at + |key| + 1 + |value| + 1
    ensures at <= next <= |b| && b[at..next] == key + [0] + value + [0]
  {
    var pair := key + [0] + (value + [0]);
    assert key + [0] + value + [0] == pair;
    assert b == (head + before) + pair + rest;
  }

  lemma {:induction false} PackPairsJoin(s: seq<Pair>, t: seq<Pair>)
    ensures PackPairs(s + t) == PackPairs(s) + PackPairs(t)
  {
    if s == [] {
      assert s + t == t;
    } else {
      assert (s + t)[1..] == s[1..] + t;
      PackPairsJoin(s[1..], t);
    }
  }

  /** The position of the first zero from `i` on. */
  function StrEnd(b: Bytes, i: nat): (e: nat)
    requires i <= |b|
    ensures i <= e <= |b| && (e < |b| ==> b[e] == 0)
    ensures forall k :: i <= k < e ==> b[k] != 0
    decreases |b| - i
  {
    if i == |b| || b[i] == 0 then i else StrEnd(b, i + 1)
  }

  /** Every string is terminated before the end. */
  predicate WellFormed(b: Bytes)
    decreases |b|
  {
    b == [] ||
    (var e := StrEnd(b, 0);
     e < |b| && var f := StrEnd(b, e + 1); f < |b| && WellFormed(b[f + 1..]))
  }

  function ParsePairs(b: Bytes): seq<Pair>
    requires WellFormed(b)
    decreases |b|
  {
    if b == [] then []
    else
      var e := StrEnd(b, 0);
      var f := StrEnd(b, e + 1);
      [(b[..e], b[e + 1..f])] + ParsePairs(b[f + 1..])
  }

  lemma {:induction false} StrEndUnique(b: Bytes, i: nat, e: nat)
    requires i <= e < |b| && b[e] == 0 && forall k :: i <= k < e ==> b[k] != 0
    ensures StrEnd(b, i) == e
    decreases e - i
  {
    if i < e { StrEndUnique(b, i + 1, e); }
  }

  /** Where the first two strings end in the packed form. */
  lemma FirstPair(p: Pair, rest: Bytes)
    requires NulFree(p.0) && NulFree(p.1)
    ensures var (b, e) := (PackPair(p) + rest, |p.0|);
            var f := e + 1 + |p.1|;
            && f < |b| && StrEnd(b, 0) == e && StrEnd(b, e + 1) == f
            && (b[..e], b[e + 1..f]) == p && b[f + 1..] == rest
  {
    hide StrEnd;
    var b, e := PackPair(p) + rest, |p.0|;
    var f := e + 1 + |p.1|;
    assert forall k :: 0 <= k < e ==> b[k] == p.0[k];
    assert forall k :: e + 1 <= k < f ==> b[k] == p.1[k - e - 1];
    assert b[e] == 0 && b[f] == 0;
    StrEndUnique(b, 0, e);
    StrEndUnique(b, e + 1, f);
    assert b[..e] == p.0 && b[e + 1..f] == p.1;
  }

  /** Parsing the packed pairs gives the pairs back. */
  lemma {:induction false} ParsePacked(s: seq<Pair>)
    requires AllNulFree(s)
    ensures WellFormed(PackPairs(s)) && ParsePairs(PackPairs(s)) == s
  {
    hide NulFree, StrEnd;
    if s != [] {
      assert s == [s[0]] + s[1..];
      assert NulFree(s[0].0) && NulFree(s[0].1);
      hide WellFormed, ParsePairs;
      ParsePacked(s[1..]);
      ParseFirst(s[0], PackPairs(s[1..]));
    }
  }

  lemma ParseFirst(p: Pair, rest: Bytes)
    requires NulFree(p.0) && NulFree(p.1) && WellFormed(rest)
    ensures WellFormed(PackPair(p) + rest) && ParsePairs(PackPair(p) + rest) == [p] + ParsePairs(rest)
  {
    hide *;
    FirstPair(p, rest);
    ParseStep(PackPair(p) + rest, |p.0|, |p.0| + 1 + |p.1|);
  }

  lemma ParseStep(b: Bytes, e: nat, f: nat)
    requires e < |b| && StrEnd(b, 0) == e && e + 1 <= f < |b| && StrEnd(b, e + 1) == f && WellFormed(b[f + 1..])
    ensures WellFormed(b) && ParsePairs(b) == [(b[..e], b[e + 1..f])] + ParsePairs(b[f + 1..])
  {
  }

  // ----- maps -----

  /** The sorted list of a map. */
  ghost function ItemsOf(m: map<CString, CString>): (s: seq<Pair>)
    ensures Sorted(s) && MapOf(s) == m
  {
    assert exists s :: Sorted(s) && MapOf(s) == m by { var s := HasItems(m); }
    var s :| Sorted(s) && MapOf(s) == m;
    s
  }

  ghost function PackMap(m: map<CString, CString>): Bytes { PackBytes(ItemsOf(m)) }

  /** What a reader makes of packed bytes. */
  function UnpackMap(b: Bytes): map<CString, CString> {
    if 8 <= |b| && 8 <= BigValue(b[..8]) <= |b| && WellFormed(b[8..BigValue(b[..8])])
    then MapOf(ParsePairs(b[8..BigValue(b[..8])]))
    else map[]
  }

  predicate NulFreeMap(m: map<CString, CString>) {
    forall k :: k in m ==> NulFree(k) && NulFree(m[k])
  }

  lemma PairsOfMap(s: seq<Pair>, i: nat)
    requires Sorted(s) && i < |s|
    ensures s[i].0 in MapOf(s) && MapOf(s)[s[i].0] == s[i].1
  {
    hide MapOf, SizeOf, LexCmp;
    assert s == s[..i] + [s[i]] + s[i + 1..];
    SortedAround(s[..i], s[i], s[i + 1..]);
    RemovePairAt(s, i, s[i]);
  }

  lemma NulFreeItems(m: map<CString, CString>)
    requires NulFreeMap(m)
    ensures AllNulFree(ItemsOf(m))
  {
    var s := ItemsOf(m);
    forall i | 0 <= i < |s| ensures NulFree(s[i].0) && NulFree(s[i].1) {
      PairsOfMap(s, i);
    }
  }

  /** Unpacking what was packed gives the map back. */
  lemma PackRoundTrip(m: map<CString, CString>)
    requires NulFreeMap(m) && 8 + SizeOf(ItemsOf(m)) < Pow256(8)
    ensures UnpackMap(PackMap(m)) == m
  {
    NulFreeItems(m);
    UnpackPacked(ItemsOf(m));
  }

  lemma UnpackPacked(s: seq<Pair>)
    requires AllNulFree(s) && 8 + SizeOf(s) < Pow256(8)
    ensures UnpackMap(PackBytes(s)) == MapOf(s)
  {
    hide *;
    var n, b := 8 + SizeOf(s), PackBytes(s);
    PackIs(s);
    assert b[..8] == BigEndian(n, 8) && b[8..n] == PackPairs(s);
    ParsePacked(s);
    BigEndianRoundTrip(n, 8);
    UnpackValue(b, n);
  }

  lemma UnpackValue(b: Bytes, n: nat)
    requires 8 <= n == |b| && BigValue(b[..8]) == n && WellFormed(b[8..n])
    ensures UnpackMap(b) == MapOf(ParsePairs(b[8..n]))
  {
  }
}
