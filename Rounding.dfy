/**
 * `Math.Round(x, decimals, MidpointRounding.AwayFromZero)`, the last step of
 * `GameplayMetricText.getValue`, over exact reals: scale by 10^decimals, round the
 * magnitude half-up, restore the sign.
 */
module Rounding {

  function Pow10(d: nat): (p: nat)
    ensures p >= 1
  {
    if d == 0 then 1 else 10 * Pow10(d - 1)
  }

  /** Half-up rounding of a non-negative real to an integer. */
  function RoundHalfUp(y: real): (k: int)
    requires y >= 0.0
    ensures k >= 0
    ensures y - 0.5 < k as real <= y + 0.5
  {
    (y + 0.5).Floor
  }

  /** How many units of `1/p` the rounded `x` is: the magnitude rounded half-up, with the sign of `x`. */
  function Units(x: real, p: real): (k: int)
    requires p > 0.0
  {
    if x >= 0.0 then RoundHalfUp(x * p) else -RoundHalfUp(-x * p)
  }

  function RoundAwayFromZero(x: real, decimals: nat): (r: real) {
    var p := Pow10(decimals) as real;
    Units(x, p) as real / p
  }

  /** Negating `x` negates its unit count. */
  lemma UnitsAreOdd(x: real, p: real)
    requires p > 0.0
    ensures Units(-x, p) == -Units(x, p)
  {
    if x == 0.0 {
      assert -x == 0.0;
    }
  }

  /** Rounding commutes with negation: midpoints go away from zero on both sides. */
  lemma RoundIsSymmetric(x: real, decimals: nat)
    ensures RoundAwayFromZero(-x, decimals) == -RoundAwayFromZero(x, decimals)
  {
    var p := Pow10(decimals) as real;
    UnitsAreOdd(x, p);
  }

  /** The unit count of a point of the grid is its own index. */
  lemma UnitsOfGridPoint(k: int, p: real)
    requires p > 0.0
    ensures Units(k as real / p, p) == k
  {
    var r := k as real / p;
    if k >= 0 {
      assert r * p == k as real;
    } else {
      assert -r * p == (-k) as real;
    }
  }

  /** The error is at most half a unit: `|Units(x, p) - x * p| <= 1/2`. */
  lemma UnitsErrorBound(x: real, p: real)
    requires p > 0.0
    ensures -0.5 <= Units(x, p) as real - x * p <= 0.5
  {
  }

  /** The result is a whole number of units of 10^-decimals. */
  lemma RoundIsOnGrid(x: real, decimals: nat)
    ensures var p := Pow10(decimals) as real;
      RoundAwayFromZero(x, decimals) * p == Units(x, p) as real
  {
  }

  /** The result is within half a unit of the last kept decimal of `x`. */
  lemma RoundErrorBound(x: real, decimals: nat)
    ensures var p := Pow10(decimals) as real;
      -0.5 <= (RoundAwayFromZero(x, decimals) - x) * p <= 0.5
  {
    var p := Pow10(decimals) as real;
    RoundIsOnGrid(x, decimals);
    UnitsErrorBound(x, p);
  }

  /** Rounding a rounded value changes nothing. */
  lemma RoundIsIdempotent(x: real, decimals: nat)
    ensures RoundAwayFromZero(RoundAwayFromZero(x, decimals), decimals) == RoundAwayFromZero(x, decimals)
  {
    var p := Pow10(decimals) as real;
    UnitsOfGridPoint(Units(x, p), p);
  }

  /** Midpoints: 2.345 to two places is 2.35, and 2.5 / -2.5 to none are 3 / -3 (not banker's 2 / -2). */
  lemma RoundMidpoints()
    ensures RoundAwayFromZero(2.345, 2) == 2.35
    ensures RoundAwayFromZero(2.5, 0) == 3.0
    ensures RoundAwayFromZero(-2.5, 0) == -3.0
  {
    assert Pow10(2) == 100;
    assert RoundHalfUp(234.5) == 235;
    assert RoundHalfUp(2.5) == 3;
  }
}
