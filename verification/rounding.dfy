/** `round` to a number of places, over exact reals: the nearest multiple of one unit, a half going to the even one. */
module Rounding {

  function Nearest(y: real): int
  {
    var n, part := y.Floor, y - y.Floor as real;
    if part < 0.5 || (part == 0.5 && n % 2 == 0) then n else n + 1
  }

  /** `scale` units make one: 100 for two places. */
  function Round(x: real, scale: real): real
    requires scale > 0.0
  {
    Nearest(x * scale) as real / scale
  }

  /** What any rounding to a unit gives: a whole number of units, at most half a unit away. */
  ghost predicate InUnits(r: real, x: real, scale: real)
  {
    var units := r * scale;
    units == units.Floor as real && -0.5 <= units - x * scale <= 0.5
  }

  ghost predicate RoundsTo(f: real -> real, scale: real)
  {
    forall x: real :: InUnits(f(x), x, scale)
  }

  lemma RoundInUnits(x: real, scale: real)
    requires scale > 0.0
    ensures Round(x, scale) * scale == Nearest(x * scale) as real
  {
  }

  lemma NearestIsNear(y: real)
    ensures -0.5 <= Nearest(y) as real - y <= 0.5
  {
  }

  lemma RoundIsNearest(x: real, scale: real)
    requires scale > 0.0
    ensures InUnits(Round(x, scale), x, scale)
  {
    RoundInUnits(x, scale);
    NearestIsNear(x * scale);
  }

  lemma RoundRounds(f: real -> real, scale: real)
    requires scale > 0.0 && forall x: real :: f(x) == Round(x, scale)
    ensures RoundsTo(f, scale)
  {
    forall x: real
      ensures InUnits(f(x), x, scale)
    {
      RoundIsNearest(x, scale);
    }
  }

  /** More than half a unit never rounds away, and a negative value never rounds up past zero. */
  lemma SignsKept(r: real, x: real, scale: real)
    requires scale > 0.0 && InUnits(r, x, scale)
    ensures x * scale > 0.5 ==> r * scale >= 1.0 && r > 0.0
    ensures x * scale < 0.5 ==> r * scale <= 0.0 && r <= 0.0
  {
    var n := (r * scale).Floor;
    SignOf(r, scale);
  }

  lemma SignOf(r: real, scale: real)
    requires scale > 0.0
    ensures r > 0.0 <==> r * scale > 0.0
  {
  }

  /** Up to and including half a unit, a positive value is lost. */
  lemma RoundPositiveIff(x: real, scale: real)
    requires scale > 0.0
    ensures Round(x, scale) > 0.0 <==> x * scale > 0.5
  {
    RoundInUnits(x, scale);
    var n := Nearest(x * scale);
    assert n > 0 <==> x * scale > 0.5;
    if n <= 0 {
      QuotientSign(-(n as real), scale);
      assert -(n as real) / scale == -(n as real / scale);
    } else {
      QuotientSign(n as real, scale);
    }
  }

  lemma QuotientSign(x: real, y: real)
    requires y > 0.0
    ensures x > 0.0 ==> x / y > 0.0
    ensures x >= 0.0 ==> x / y >= 0.0
    ensures x < 0.0 ==> x / y < 0.0
  {
  }

  /** A whole number of units is left alone. */
  lemma RoundKeepsUnits(x: real, scale: real, n: int)
    requires scale > 0.0 && x * scale == n as real
    ensures Round(x, scale) == x
  {
    assert Nearest(n as real) == n;
    assert x == n as real / scale;
  }

  /** Rounding never turns an order round. */
  lemma RoundMonotone(x: real, y: real, scale: real)
    requires scale > 0.0 && x <= y
    ensures Round(x, scale) <= Round(y, scale)
  {
    assert x * scale <= y * scale;
    NearestMonotone(x * scale, y * scale);
    QuotientMonotone(Nearest(x * scale) as real, Nearest(y * scale) as real, scale);
  }

  lemma NearestMonotone(x: real, y: real)
    requires x <= y
    ensures Nearest(x) <= Nearest(y)
  {
  }

  lemma QuotientMonotone(x: real, y: real, scale: real)
    requires scale > 0.0 && x <= y
    ensures x / scale <= y / scale
  {
  }

  /** The whole number nearest to a value; of two as near, the even one. */
  lemma NearestIs(y: real, n: int)
    ensures Nearest(y) == n <==> -0.5 <= n as real - y <= 0.5 && ((n as real - y == 0.5 || y - n as real == 0.5) ==> n % 2 == 0)
  {
    var m := y.Floor;
    if n != m && n != m + 1 {
      assert n as real - y < -0.5 || n as real - y > 0.5;
    }
  }

  /** Rounding gives the nearest whole number of units; of two as near, the even one. */
  lemma RoundIs(x: real, scale: real, n: int)
    requires scale > 0.0
    ensures Round(x, scale) * scale == n as real <==>
              && -0.5 <= n as real - x * scale <= 0.5
              && ((n as real - x * scale == 0.5 || x * scale - n as real == 0.5) ==> n % 2 == 0)
  {
    RoundInUnits(x, scale);
    NearestIs(x * scale, n);
  }
}
