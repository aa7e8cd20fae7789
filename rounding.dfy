/** The half-up rounding helper `RoundFloat64` (go_hds_restapi.go:2458-2485),
    on exact reals instead of IEEE-754 doubles. */
module Rounding {

  /** Fractions at or above this value are rounded up. */
  const RoundOn: real := 0.5

  /** 10^n on the naturals. */
  function Exp10(n: nat): (p: nat)
    ensures p >= 1
  {
    if n == 0 then 1 else 10 * Exp10(n - 1)
  }

  /** 10 raised to an integer power, as `math.Pow(10, float64(places))`. */
  function Pow10(places: int): (pow: real)
    ensures pow > 0.0
    ensures places >= 0 ==> pow >= 1.0
  {
    if places >= 0 then Exp10(places) as real else 1.0 / Exp10(-places) as real
  }

  function Floor(x: real): int {
    x.Floor
  }

  function Ceil(x: real): (c: int)
    ensures x <= c as real < x + 1.0
  {
    -((-x).Floor)
  }

  /** `math.Modf`: the integer part (truncated toward zero) and the
      fractional part, both with the sign of `x`. */
  function Modf(x: real): (parts: (real, real))
    ensures parts.0 + parts.1 == x
    ensures parts.0.Floor as real == parts.0
    ensures 0.0 <= x ==> 0.0 <= parts.1 < 1.0
    ensures x < 0.0 ==> -1.0 < parts.1 <= 0.0
  {
    var whole := if x >= 0.0 then Floor(x) as real else Ceil(x) as real;
    (whole, x - whole)
  }

  /** The integer chosen for a scaled value: the ceiling when the fractional
      part given by `math.Modf` is at least one half, the floor otherwise. */
  function RoundScaled(digit: real): int {
    var div := Modf(digit).1;
    if div >= RoundOn then Ceil(digit) else Floor(digit)
  }

  /** Scales by 10^places, rounds the scaled value with `RoundScaled` and
      scales back. */
  function RoundFloat64(val: real, places: int): (newVal: real)
  {
    var pow := Pow10(places);
    RoundScaled(pow * val) as real / pow
  }

  /** Dividing by a positive scale and multiplying back is the identity. */
  lemma DivideThenScale(k: int, pow: real)
    requires pow > 0.0
    ensures pow * (k as real / pow) == k as real
  {
  }

  /** Scaling the result back up gives the integer chosen by `RoundScaled`. */
  lemma RoundFloat64Scaled(val: real, places: int)
    ensures Pow10(places) * RoundFloat64(val, places) == RoundScaled(Pow10(places) * val) as real
  {
    DivideThenScale(RoundScaled(Pow10(places) * val), Pow10(places));
  }

  /** On non-negative scaled values the chosen integer is floor(x + 1/2). */
  lemma RoundScaledHalfUp(digit: real)
    requires digit >= 0.0
    ensures RoundScaled(digit) == (digit + 0.5).Floor
  {
    var frac := digit - Floor(digit) as real;
    assert Modf(digit).1 == frac;
    if frac >= RoundOn {
      assert Ceil(digit) == Floor(digit) + 1;
    }
  }

  /** The rounded value lies on the grid of multiples of 10^-places. */
  lemma RoundIsOnGrid(val: real, places: int)
    ensures var scaled := Pow10(places) * RoundFloat64(val, places);
            scaled.Floor as real == scaled
  {
    RoundFloat64Scaled(val, places);
  }

  /** A positive scale keeps the sign of the value it scales. */
  lemma ScaleKeepsSign(pow: real, val: real)
    requires pow > 0.0
    ensures val >= 0.0 ==> pow * val >= 0.0
    ensures val < 0.0 ==> pow * val < 0.0
  {
  }

  /** For a non-negative value the code agrees with the textbook half-up
      rule floor(x * 10^p + 1/2) / 10^p. */
  lemma RoundHalfUp(val: real, places: int)
    requires val >= 0.0
    ensures Pow10(places) * RoundFloat64(val, places) == (Pow10(places) * val + 0.5).Floor as real
  {
    ScaleKeepsSign(Pow10(places), val);
    RoundScaledHalfUp(Pow10(places) * val);
    RoundFloat64Scaled(val, places);
  }

  /** For a non-negative value the rounding error is at most half a unit in
      the last kept place, and a tie goes up. */
  lemma RoundErrorBound(val: real, places: int)
    requires val >= 0.0
    ensures -0.5 < Pow10(places) * RoundFloat64(val, places) - Pow10(places) * val <= 0.5
  {
    RoundHalfUp(val, places);
  }

  /** On negative scaled values `math.Modf` yields a fraction that is never
      at least one half, so the floor is taken. */
  lemma RoundScaledNegative(digit: real)
    requires digit < 0.0
    ensures RoundScaled(digit) == digit.Floor
  {
  }

  /** For a negative value the code always takes the floor. */
  lemma RoundNegativeFloors(val: real, places: int)
    requires val < 0.0
    ensures Pow10(places) * RoundFloat64(val, places) == (Pow10(places) * val).Floor as real
  {
    ScaleKeepsSign(Pow10(places), val);
    RoundScaledNegative(Pow10(places) * val);
    RoundFloat64Scaled(val, places);
  }

  /** An integral scaled value is kept as it is. */
  lemma RoundScaledIntegral(digit: real)
    requires digit.Floor as real == digit
    ensures RoundScaled(digit) == digit.Floor
  {
  }

  /** A positive scale can be cancelled from both sides of an equation. */
  lemma CancelScale(a: real, b: real, pow: real)
    requires pow > 0.0
    requires pow * a == pow * b
    ensures a == b
  {
  }

  /** A value already on the grid of multiples of 10^-places is kept. */
  lemma RoundKeepsGridValue(x: real, places: int)
    requires (Pow10(places) * x).Floor as real == Pow10(places) * x
    ensures RoundFloat64(x, places) == x
  {
    RoundScaledIntegral(Pow10(places) * x);
    RoundFloat64Scaled(x, places);
    CancelScale(RoundFloat64(x, places), x, Pow10(places));
  }

  /** Rounding a rounded value changes nothing. */
  lemma RoundIdempotent(val: real, places: int)
    ensures RoundFloat64(RoundFloat64(val, places), places) == RoundFloat64(val, places)
  {
    RoundIsOnGrid(val, places);
    RoundKeepsGridValue(RoundFloat64(val, places), places);
  }

  /** Rounding to two places, given the integer that half-up picks. */
  lemma RoundTwoPlaces(x: real, k: int)
    requires x >= 0.0
    requires (100.0 * x + 0.5).Floor == k
    ensures RoundFloat64(x, 2) == k as real / 100.0
  {
    assert Pow10(2) == 100.0 by { assert Exp10(2) == 100; }
    RoundHalfUp(x, 2);
    CancelScale(RoundFloat64(x, 2), k as real / 100.0, 100.0);
  }

  /** Ties at two places are rounded up, not to even. */
  lemma RoundTwoPlacesExamples()
    ensures RoundFloat64(3.005, 2) == 3.01
    ensures RoundFloat64(3.004, 2) == 3.0
    ensures RoundFloat64(9765.625, 2) == 9765.63
    ensures RoundFloat64(-3.005, 2) == -3.01
  {
    assert RoundFloat64(3.005, 2) == 3.01 by {
      RoundTwoPlaces(3.005, 301);
    }
    assert RoundFloat64(3.004, 2) == 3.0 by {
      RoundTwoPlaces(3.004, 300);
    }
    assert RoundFloat64(9765.625, 2) == 9765.63 by {
      RoundTwoPlaces(9765.625, 976563);
    }
    assert RoundFloat64(-3.005, 2) == -3.01 by {
      assert Pow10(2) == 100.0 by { assert Exp10(2) == 100; }
      RoundNegativeFloors(-3.005, 2);
      assert (100.0 * -3.005).Floor == -301;
      CancelScale(RoundFloat64(-3.005, 2), -3.01, 100.0);
    }
  }
}
