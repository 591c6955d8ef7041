/** Exact currency arithmetic. Amounts are exact rationals; the program's
    `Math.round(x * 100) / 100` becomes `Round2`, which rounds to the nearest
    cent with halves going toward positive infinity (as `Math.round` does). */
module Money {

  /** A whole number of cents (toea): `x * 100` has no fractional part. */
  predicate IsCents(x: real) {
    (x * 100.0).Floor as real == x * 100.0
  }

  /** `Math.round(x * 100)`: the whole number of cents nearest to `x`, halves rounded up. */
  function RoundCents(x: real): (k: int)
    ensures x * 100.0 - 0.5 < k as real <= x * 100.0 + 0.5
  {
    (x * 100.0 + 0.5).Floor
  }

  /** `Math.round(x * 100) / 100`: the nearest cent, halves rounded up. */
  function Round2(x: real): (r: real)
    ensures IsCents(r)
    ensures x - 0.005 < r <= x + 0.005
  {
    var k := RoundCents(x);
    assert (k as real / 100.0) * 100.0 == k as real;
    k as real / 100.0
  }

  /** The bound above pins the result down: the only cent value within
      (x - 0.005, x + 0.005] is `Round2(x)`. */
  lemma Round2Unique(x: real, c: real)
    requires IsCents(c)
    requires x - 0.005 < c <= x + 0.005
    ensures c == Round2(x)
  {
    var k := (c * 100.0).Floor;
    assert k as real <= x * 100.0 + 0.5 < k as real + 1.0;
    assert RoundCents(x) == k;
  }

  /** Rounding an amount that already is whole cents changes nothing. */
  lemma Round2OfCents(x: real)
    requires IsCents(x)
    ensures Round2(x) == x
  {
    Round2Unique(x, x);
  }

  /** Rounding preserves order. */
  lemma Round2Monotonic(x: real, y: real)
    requires x <= y
    ensures Round2(x) <= Round2(y)
  {
    var a := RoundCents(x);
    var b := RoundCents(y);
    assert a as real <= y * 100.0 + 0.5;
    assert a <= b;
  }

  /** Sums of whole-cent amounts are whole cents. */
  lemma CentsAdd(x: real, y: real)
    requires IsCents(x) && IsCents(y)
    ensures IsCents(x + y)
  {
    var a := (x * 100.0).Floor;
    var b := (y * 100.0).Floor;
    assert (x + y) * 100.0 == (a + b) as real;
  }
}
