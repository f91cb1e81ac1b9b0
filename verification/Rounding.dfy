/** Rounding to a multiple of a unit, as `to_integral_value` does on a quotient. */
module Rounding {

  function Units(n: int, unit: real): real { n as real * unit }

  ghost predicate Multiple(x: real, unit: real) { exists n: int :: x == Units(n, unit) }

  /** ROUND_DOWN of a non-negative amount. */
  function RoundDown(x: real, unit: real): real
    requires unit > 0.0
  {
    Units((x / unit).Floor, unit)
  }

  function Ceiling(x: real): int { -((-x).Floor) }

  /** ROUND_UP of a non-negative amount. */
  function RoundUp(x: real, unit: real): real
    requires unit > 0.0
  {
    Units(Ceiling(x / unit), unit)
  }

  lemma ProductOrder(a: real, b: real, unit: real)
    requires unit >= 0.0 && a <= b
    ensures a * unit <= b * unit
  {
    assert b * unit - a * unit == (b - a) * unit;
  }

  lemma ProductStrict(a: real, b: real, unit: real)
    requires unit > 0.0 && a < b
    ensures a * unit < b * unit
  {
    assert b * unit - a * unit == (b - a) * unit;
  }

  lemma DivideBack(x: real, unit: real)
    requires unit > 0.0
    ensures (x / unit) * unit == x
  {
  }

  /** Order between a quotient and a number is order between the products. */
  lemma QuotientOrder(x: real, unit: real, y: real)
    requires unit > 0.0
    ensures x / unit <= y <==> x <= y * unit
    ensures x / unit >= y <==> x >= y * unit
    ensures x / unit < y <==> x < y * unit
  {
    var q := x / unit;
    DivideBack(x, unit);
    if q < y { ProductStrict(q, y, unit); } else if y < q { ProductStrict(y, q, unit); }
  }

  lemma OneMore(n: int, unit: real)
    ensures Units(n + 1, unit) == Units(n, unit) + unit
  {
    assert (n + 1) as real == n as real + 1.0;
  }

  /** Rounding down gives the one multiple within a unit below. */
  lemma RoundDownBounds(x: real, unit: real)
    requires unit > 0.0
    ensures Multiple(RoundDown(x, unit), unit)
    ensures RoundDown(x, unit) <= x < RoundDown(x, unit) + unit
    ensures x >= 0.0 ==> RoundDown(x, unit) >= 0.0
    ensures 0.0 <= x < unit ==> RoundDown(x, unit) == 0.0
  {
    var q := x / unit;
    var n := q.Floor;
    QuotientOrder(x, unit, n as real);
    QuotientOrder(x, unit, (n + 1) as real);
    OneMore(n, unit);
    QuotientOrder(x, unit, 0.0);
    QuotientOrder(x, unit, 1.0);
    if n >= 0 { ProductOrder(0.0, n as real, unit); }
  }

  lemma RoundUpBounds(x: real, unit: real)
    requires unit > 0.0
    ensures Multiple(RoundUp(x, unit), unit)
    ensures x <= RoundUp(x, unit) < x + unit
    ensures x >= 0.0 ==> RoundUp(x, unit) >= 0.0
  {
    var q := x / unit;
    var n := Ceiling(q);
    QuotientOrder(x, unit, n as real);
    QuotientOrder(x, unit, (n - 1) as real);
    OneMore(n - 1, unit);
    QuotientOrder(x, unit, 0.0);
    if n >= 0 { ProductOrder(0.0, n as real, unit); }
  }
}
