/** C strings as sequences of byte values, and the order of `strcmp`. */
module Lex {
  import opened Bitonic

  type CString = seq<int>

  /** Negative, zero or positive, as the first difference decides; a proper prefix is smaller. */
  function LexCmp(a: CString, b: CString): int
    decreases |a|
  {
    if a == [] then (if b == [] then 0 else -1)
    else if b == [] then 1
    else if a[0] != b[0] then (if a[0] < b[0] then -1 else 1)
    else LexCmp(a[1..], b[1..])
  }

  lemma {:induction false} LexAntisymmetric(a: CString, b: CString)
    ensures LexCmp(a, b) == -LexCmp(b, a)
    ensures LexCmp(a, b) == 0 <==> a == b
    decreases |a|
  {
    if a != [] && b != [] && a[0] == b[0] {
      LexAntisymmetric(a[1..], b[1..]);
      assert a == [a[0]] + a[1..] && b == [b[0]] + b[1..];
    }
  }

  lemma {:induction false} LexTransitive(a: CString, b: CString, c: CString)
    requires LexCmp(a, b) <= 0 && LexCmp(b, c) <= 0
    ensures LexCmp(a, c) <= 0
    decreases |a|
  {
    if a != [] && a[0] == b[0] && c != [] && b[0] == c[0] {
      LexTransitive(a[1..], b[1..], c[1..]);
    }
  }

  /** The order of a dictionary: `a` is a proper prefix of `b`, or smaller where they first differ. */
  ghost predicate StrBefore(a: CString, b: CString) {
    a < b || exists i :: 0 <= i < |a| && i < |b| && a[..i] == b[..i] && a[i] < b[i]
  }

  /** The comparison, which goes through both strings in step, decides that order. */
  lemma {:induction false} LexIsStrcmp(a: CString, b: CString)
    ensures LexCmp(a, b) < 0 <==> StrBefore(a, b)
    ensures LexCmp(a, b) > 0 <==> StrBefore(b, a)
    ensures LexCmp(a, b) == 0 <==> a == b
    decreases |a|
  {
    if a != [] && b != [] && a[0] == b[0] {
      LexIsStrcmp(a[1..], b[1..]);
      BeforeTail(a, b);
      BeforeTail(b, a);
      assert a == [a[0]] + a[1..] && b == [b[0]] + b[1..];
    } else {
      BeforeAtOnce(a, b);
      BeforeAtOnce(b, a);
    }
  }

  /** A common first character does not matter. */
  lemma BeforeTail(a: CString, b: CString)
    requires a != [] && b != [] && a[0] == b[0]
    ensures StrBefore(a, b) <==> StrBefore(a[1..], b[1..])
  {
    var c, d := a[1..], b[1..];
    assert a == [a[0]] + c && b == [b[0]] + d;
    assert a < b <==> c < d;
    if i :| 0 <= i < |a| && i < |b| && a[..i] == b[..i] && a[i] < b[i] {
      assert c[..i - 1] == a[..i][1..] == b[..i][1..] == d[..i - 1] && c[i - 1] < d[i - 1];
    }
    if i :| 0 <= i < |c| && i < |d| && c[..i] == d[..i] && c[i] < d[i] {
      assert a[..i + 1] == [a[0]] + c[..i] == b[..i + 1] && a[i + 1] < b[i + 1];
    }
  }

  /** Without a common first character the first one decides, or that there is none. */
  lemma BeforeAtOnce(a: CString, b: CString)
    requires a == [] || b == [] || a[0] != b[0]
    ensures StrBefore(a, b) <==> b != [] && (a == [] || a[0] < b[0])
  {
    if a != [] && b != [] {
      assert a[..0] == b[..0];
      assert forall i :: 0 < i < |a| && i < |b| ==> a[..i][0] == a[0] && b[..i][0] == b[0];
    }
  }

  /** `strcmp` is a total order, and compares equal exactly on equal strings. */
  lemma LexIsTotal()
    ensures TotalOrder(LexCmp)
    ensures forall a, b :: LexCmp(a, b) == 0 <==> a == b
  {
    forall a, b ensures LexCmp(a, b) < 0 <==> LexCmp(b, a) > 0 {
      LexAntisymmetric(a, b);
    }
    forall a, b ensures LexCmp(a, b) == 0 <==> a == b {
      LexAntisymmetric(a, b);
    }
    forall a, b, c | LexCmp(a, b) <= 0 && LexCmp(b, c) <= 0 ensures LexCmp(a, c) <= 0 {
      LexTransitive(a, b, c);
    }
  }
}
