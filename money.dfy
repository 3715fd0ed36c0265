/** Rounding of amounts to cents, as `Math.round(x * 100) / 100` does it,
    on exact reals. */
module Money {
  /** `Math.round(x)`: the nearest integer, a half rounded up. */
  function MathRound(x: real): (r: int)
    ensures x - 0.5 < r as real <= x + 0.5
    ensures x == x.Floor as real ==> r == x.Floor
  {
    (x + 0.5).Floor
  }

  /** `Math.round(x * 100) / 100`: the whole number of cents nearest `x`. */
  function RoundCents(x: real): (r: real)
    ensures (r * 100.0).Floor as real == r * 100.0
    ensures x - 0.005 < r <= x + 0.005
  {
    MathRound(x * 100.0) as real / 100.0
  }

  /** An amount already in whole cents is left as it is. */
  lemma RoundCentsOfCents(n: int)
    ensures RoundCents(n as real / 100.0) == n as real / 100.0
  {
    assert (n as real / 100.0) * 100.0 == n as real;
  }

  /** Rounding twice is rounding once. */
  lemma RoundCentsIdempotent(x: real)
    ensures RoundCents(RoundCents(x)) == RoundCents(x)
  {
    var n := MathRound(x * 100.0);
    RoundCentsOfCents(n);
  }

  /** Rounding keeps the order of amounts. */
  lemma RoundCentsMonotone(x: real, y: real)
    requires x <= y
    ensures RoundCents(x) <= RoundCents(y)
  {
    var a, b := x * 100.0 + 0.5, y * 100.0 + 0.5;
    assert a <= b;
    FloorMonotone(a, b);
  }

  lemma FloorMonotone(a: real, b: real)
    requires a <= b
    ensures a.Floor <= b.Floor
  {
  }
}
