/**
 Rounding to two decimal places, as the evaluator applies to every numeric
 column of its result before the payback is computed. The rounding is to the
 nearest hundredth with ties going to the even hundredth, taken on exact
 rational values.
 */
module Rounding {

  /** True when x is a whole number of hundredths. */
  predicate IsHundredths(x: real) {
    (x * 100.0).Floor as real == x * 100.0
  }

  function Round2(x: real): (r: real)
    ensures IsHundredths(r)
    ensures x - 0.005 <= r <= x + 0.005
  {
    var scaled := x * 100.0;
    var n := scaled.Floor;
    var frac := scaled - n as real;
    var k := if frac > 0.5 then n + 1
             else if frac < 0.5 then n
             else if n % 2 == 0 then n
             else n + 1;
    assert (k as real / 100.0) * 100.0 == k as real;
    k as real / 100.0
  }

  /** Rounding never reverses the order of two values. */
  lemma Round2Monotone(x: real, y: real)
    requires x <= y
    ensures Round2(x) <= Round2(y)
  {
    var nx, ny := (x * 100.0).Floor, (y * 100.0).Floor;
    assert nx <= ny;
    var fx, fy := x * 100.0 - nx as real, y * 100.0 - ny as real;
    if nx == ny {
      assert fx <= fy;
    } else {
      assert nx + 1 <= ny;
    }
  }

  /** A value that is already a whole number of hundredths is left as it is. */
  lemma Round2Exact(x: real)
    requires IsHundredths(x)
    ensures Round2(x) == x
  {
    var n := (x * 100.0).Floor;
    assert x * 100.0 - n as real == 0.0;
  }

  /** Whole amounts, such as installation costs, survive the rounding. */
  lemma Round2Whole(k: int)
    ensures Round2(k as real) == k as real
  {
    assert ((k as real) * 100.0).Floor == k * 100;
    Round2Exact(k as real);
  }

  /** Rounding keeps the sign: a non-negative value rounds to a non-negative value. */
  lemma Round2NonNegative(x: real)
    requires 0.0 <= x
    ensures 0.0 <= Round2(x)
  {
    Round2Whole(0);
    Round2Monotone(0.0, x);
  }
}
