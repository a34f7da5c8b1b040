/** 16-bit sequence numbers.

  A packet's true number counts up without bound; only its last 16 bits travel.  The facts
  here say when the tests that the transport makes on those bits agree with the true
  numbers, and exactly when they do not. */
module Seqnum {
  const WRAP: nat := 65536
  const MAX_SEQ_NUM: nat := 65535

  type Seq16 = x: nat | x < WRAP

  /** The bits of a true number; -1 stands for "nothing yet" and is the largest one. */
  function Bits(u: int): Seq16
    requires u >= -1
  {
    if u == -1 then MAX_SEQ_NUM else u % WRAP
  }

  function Next(x: Seq16): Seq16 { if x == MAX_SEQ_NUM then 0 else x + 1 }

  /** How far ahead of `start` the number `x` is, going around. */
  function Ahead(x: Seq16, start: Seq16): Seq16 {
    if x >= start then x - start else x + WRAP - start
  }

  /** The test whether `val` is within [start, end]. */
  predicate InclBetween(val: Seq16, start: Seq16, end: Seq16) {
    || (start > end && (val >= start || val <= end))
    || (end > start && (val >= start && val <= end))
    || (end == start && end == val)
  }

  /** The test is a comparison of distances from `start`. */
  lemma BetweenIsDistance(val: Seq16, start: Seq16, end: Seq16)
    ensures InclBetween(val, start, end) <==> Ahead(val, start) <= Ahead(end, start)
  {
  }

  lemma NextBits(u: int)
    requires u >= -1
    ensures Next(Bits(u)) == Bits(u + 1)
  {
    if u >= 0 {
      assert u == (u / WRAP) * WRAP + u % WRAP;
      if u % WRAP == MAX_SEQ_NUM {
        assert u + 1 == (u / WRAP + 1) * WRAP;
      } else {
        assert u + 1 == (u / WRAP) * WRAP + (u % WRAP + 1);
      }
    }
  }

  /** A whole turn changes nothing. */
  lemma WholeTurn(u: int)
    requires u >= -1
    ensures Bits(u + WRAP) == Bits(u)
  {
    if u >= 0 {
      assert u + WRAP == (u / WRAP + 1) * WRAP + u % WRAP;
    }
  }

  /** Up to a whole turn ahead, distances between bits are true distances. */
  lemma AheadForward(u: int, v: int)
    requires v >= -1 && v <= u < v + WRAP
    ensures Ahead(Bits(u), Bits(v)) == u - v
  {
    if v == -1 {
      assert u == -1 || u % WRAP == u;
    } else {
      var p, q := u / WRAP, v / WRAP;
      assert u == WRAP * p + u % WRAP && v == WRAP * q + v % WRAP;
      assert p == q || p == q + 1;
    }
  }

  /** A number that is `b` behind looks as if it were WRAP - b ahead. */
  lemma AheadBehind(u: int, v: int)
    requires u >= -1 && v - WRAP < u < v
    ensures Ahead(Bits(u), Bits(v)) == WRAP - (v - u)
  {
    AheadForward(v, u);
  }
}
