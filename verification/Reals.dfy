/** Real arithmetic that the solver should be handed one step at a time, and the bridge from floored
    integer quotients to exact ones. */
module Reals {
  /** An 18-digit fixed-point number as a real. */
  function Fraction(factor: nat): real {
    factor as real / 1_000_000_000_000_000_000.0
  }

  lemma FractionNonNegative(x: nat)
    ensures Fraction(x) >= 0.0
  {
  }

  /** A product, by name, for proofs that need not see inside it. */
  function Times(x: real, y: real): real {
    x * y
  }

  lemma MulMono(x: real, y: real, m: real)
    requires x <= y && m >= 0.0
    ensures m * x <= m * y
  {
  }

  lemma MulNonNegative(x: real, y: real)
    requires x >= 0.0 && y >= 0.0
    ensures x * y >= 0.0
  {
  }

  lemma Cancel(x: real, y: real, b: real)
    requires b > 0.0
    ensures b * x >= b * y ==> x >= y
    ensures b * x > b * y ==> x > y
  {
  }

  lemma RealOfProduct(a: nat, b: nat)
    ensures (a * b) as real == a as real * b as real
  {
  }

  lemma FloorBounds(n: nat, d: nat)
    requires d > 0
    ensures (n / d) as real <= n as real / d as real < (n / d) as real + 1.0
  {
    var q := n / d;
    assert n == q * d + n % d;
    RealOfProduct(q, d);
    QuotientBounds(n as real, d as real, q as real);
  }

  lemma QuotientBounds(n: real, d: real, q: real)
    requires d > 0.0 && q * d <= n < q * d + d
    ensures q <= n / d < q + 1.0
  {
    var x := n / d;
    assert d * x == n;
    assert d * (q + 1.0) == q * d + d;
    Cancel(x, q, d);
    Cancel(q + 1.0, x, d);
  }
}
