/** `Decimal.quantize(..., rounding=ROUND_DOWN)` on exact rationals: rounding
    toward zero to whole units or to cents. The bounds are stated as lemmas so
    that they enter a proof only where they are asked for. */
module Rounding {

  /** Quantize to `Decimal("1")` with ROUND_DOWN. */
  function TruncToUnit(x: real): int {
    if x >= 0.0 then x.Floor else -((-x).Floor)
  }

  /** Truncation moves toward zero by less than one unit. */
  lemma TruncToUnitBounds(x: real)
    ensures x >= 0.0 ==> 0 <= TruncToUnit(x) && TruncToUnit(x) as real <= x < TruncToUnit(x) as real + 1.0
    ensures x < 0.0 ==> TruncToUnit(x) <= 0 && TruncToUnit(x) as real - 1.0 < x <= TruncToUnit(x) as real
  {
  }

  predicate IsWholeCents(x: real) {
    (x * 100.0).Floor as real == x * 100.0
  }

  /** Quantize to `Decimal("0.01")` with ROUND_DOWN. */
  function TruncToCents(x: real): real {
    TruncToUnit(x * 100.0) as real / 100.0
  }

  /** The result is a whole number of cents, less than one cent closer to zero. */
  lemma TruncToCentsBounds(x: real)
    ensures IsWholeCents(TruncToCents(x))
    ensures x >= 0.0 ==> 0.0 <= TruncToCents(x) <= x < TruncToCents(x) + 0.01
    ensures x < 0.0 ==> TruncToCents(x) - 0.01 < x <= TruncToCents(x) <= 0.0
  {
    var y := x * 100.0;
    var cents := TruncToUnit(y);
    TruncToUnitBounds(y);
    assert TruncToCents(x) == cents as real / 100.0;
    assert (cents as real / 100.0) * 100.0 == cents as real;
  }

  /** Truncation to cents never reverses the order of two non-negative amounts. */
  lemma TruncToCentsMonotone(x: real, y: real)
    requires 0.0 <= x <= y
    ensures TruncToCents(x) <= TruncToCents(y)
  {
    var a := TruncToUnit(x * 100.0);
    var b := TruncToUnit(y * 100.0);
    TruncToUnitBounds(x * 100.0);
    TruncToUnitBounds(y * 100.0);
    assert a as real <= x * 100.0 <= y * 100.0 < b as real + 1.0;
    assert a <= b;
  }

  /** Two whole-cent amounts add up to a whole-cent amount. */
  lemma WholeCentsSum(x: real, y: real)
    requires IsWholeCents(x) && IsWholeCents(y)
    ensures IsWholeCents(x + y)
  {
    var a, b := (x * 100.0).Floor, (y * 100.0).Floor;
    assert (x + y) * 100.0 == (a + b) as real;
  }
}
