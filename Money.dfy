/** Cent-precision money.
    Every amount is an exact decimal, modelled as a `real`.  The one rounding
    the engine performs is `quantize(Decimal('.01'))` under the default
    decimal context, whose rounding mode is round-half-to-even. */
module Money {

  /** Distance between two reals. */
  function Dist(a: real, b: real): real {
    if a <= b then b - a else a - b
  }

  /** Rounds `y` to an integer: the nearest one, and on a tie the even one. */
  function RoundHalfEven(y: real): (k: int)
    ensures Dist(k as real, y) <= 0.5
    ensures Dist(k as real, y) == 0.5 ==> k % 2 == 0
  {
    var f := y.Floor;
    var d := y - f as real;
    if d < 0.5 then f
    else if d > 0.5 then f + 1
    else if f % 2 == 0 then f
    else f + 1
  }

  /** The two properties in RoundHalfEven's contract pick out a single integer. */
  lemma RoundHalfEvenUnique(y: real, k: int)
    requires Dist(k as real, y) < 0.5 || (Dist(k as real, y) == 0.5 && k % 2 == 0)
    ensures k == RoundHalfEven(y)
  {
  }

  /** Rounding to an integer never reverses an ordering. */
  lemma RoundHalfEvenMonotone(x: real, y: real)
    requires x <= y
    ensures RoundHalfEven(x) <= RoundHalfEven(y)
  {
  }

  /** A whole number of cents. */
  ghost predicate IsCents(x: real) {
    (x * 100.0).Floor as real == x * 100.0
  }

  /** `Decimal.quantize(Decimal('.01'))` with half-even rounding: a whole
      number of cents, at most half a cent away from `x`, and on a tie the
      even number of cents. */
  function Round2(x: real): (c: real)
    ensures IsCents(c)
    ensures Dist(c, x) <= 0.005
    ensures Dist(c, x) == 0.005 ==> (c * 100.0).Floor % 2 == 0
  {
    var k := RoundHalfEven(x * 100.0);
    assert (k as real / 100.0) * 100.0 == k as real;
    assert Dist(k as real / 100.0, x) * 100.0 == Dist(k as real, x * 100.0);
    k as real / 100.0
  }

  /** An amount that is already whole cents is left as it is. */
  lemma Round2OfCents(x: real)
    requires IsCents(x)
    ensures Round2(x) == x
  {
    var k := (x * 100.0).Floor;
    assert Dist(k as real, x * 100.0) == 0.0;
    RoundHalfEvenUnique(x * 100.0, k);
    assert k as real / 100.0 == x;
  }

  /** Quantizing twice gives what quantizing once gives. */
  lemma Round2Idempotent(x: real)
    ensures Round2(Round2(x)) == Round2(x)
  {
    Round2OfCents(Round2(x));
  }

  /** Quantizing preserves order (not necessarily strictly). */
  lemma Round2Monotone(x: real, y: real)
    requires x <= y
    ensures Round2(x) <= Round2(y)
  {
    RoundHalfEvenMonotone(x * 100.0, y * 100.0);
  }

  /** No whole number of cents is strictly nearer to `x` than Round2(x). */
  lemma Round2Nearest(x: real, cents: int)
    ensures Dist(Round2(x), x) <= Dist(cents as real / 100.0, x)
  {
    var k := RoundHalfEven(x * 100.0);
    var y := x * 100.0;
    assert Dist(cents as real / 100.0, x) * 100.0 == Dist(cents as real, y);
    assert Dist(Round2(x), x) * 100.0 == Dist(k as real, y);
    if Dist(cents as real, y) < Dist(k as real, y) {
      assert Dist(cents as real, y) < 0.5;
      RoundHalfEvenUnique(y, cents);
      assert false;
    }
  }

  /** The monetize example: 123.1234567 quantizes to 123.12. */
  lemma Round2Sample()
    ensures Round2(123.1234567) == 123.12
  {
    assert 123.1234567 * 100.0 == 12312.34567;
    assert (12312.34567).Floor == 12312;
  }
}
