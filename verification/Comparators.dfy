/** The comparison functions that the group library passes to its sort, on the buffers that it
  compares, and the one order on items that they all stand for. */
module Comparators {
  import opened Lex
  import opened SplitModel

  /** Compare (colour, key, rank) triples of integers, first difference first. */
  function CmpThreeInts(a: seq<int>, b: seq<int>): int
    requires |a| == |b| == 3
  {
    if a[0] != b[0] then (if a[0] > b[0] then 1 else -1)
    else if a[1] != b[1] then (if a[1] > b[1] then 1 else -1)
    else if a[2] != b[2] then (if a[2] > b[2] then 1 else -1)
    else 0
  }

  /** Compare (string, rank) pairs. */
  function CmpStrInt(a: (CString, int), b: (CString, int)): int {
    var rc := LexCmp(a.0, b.0);
    if rc != 0 then (if rc > 0 then 1 else -1)
    else if a.1 != b.1 then (if a.1 > b.1 then 1 else -1)
    else 0
  }

  function CmpStr(a: CString, b: CString): int {
    var rc := LexCmp(a, b);
    if rc != 0 then (if rc > 0 then 1 else -1) else 0
  }

  lemma {:induction false} LexIsSign(a: CString, b: CString)
    ensures -1 <= LexCmp(a, b) <= 1
    decreases |a|
  {
    if a != [] && b != [] { LexIsSign(a[1..], b[1..]); }
  }

  lemma LexOfOne(c: int, d: int)
    ensures LexCmp([c], [d]) == CmpInt(c, d)
  {
    assert [c][1..] == [] && [d][1..] == [];
    assert LexCmp([], []) == 0;
  }

  /** Integer colours with keys and string colours without keys are both cases of the order on
      items that the split is proved for; and comparing colours alone tells whether two items
      belong to the same group. */
  lemma ComparatorsAgree(a: Item, b: Item, c: int, d: int)
    ensures a.color == [c] && b.color == [d] ==>
              && CmpThreeInts([c, a.key, a.rank], [d, b.key, b.rank]) == CmpItem(a, b)
              && (CmpInt(c, d) == 0 <==> a.color == b.color)
    ensures a.key == b.key ==> CmpStrInt((a.color, a.rank), (b.color, b.rank)) == CmpItem(a, b)
    ensures CmpStr(a.color, b.color) == 0 <==> a.color == b.color
    ensures CmpStr(a.color, b.color) == -1 <==> StrBefore(a.color, b.color)
    ensures CmpStr(a.color, b.color) == 1 <==> StrBefore(b.color, a.color)
  {
    hide StrBefore;
    LexIsStrcmp(a.color, b.color);
    LexOfOne(c, d);
    LexIsSign(a.color, b.color);
    LexAntisymmetric(a.color, b.color);
    hide LexCmp;
  }
}
