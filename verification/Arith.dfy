/** Integer facts that the solver should not have to rediscover. */
module Arith {
  lemma MulMonoNat(a: nat, b: nat, c: nat)
    requires a <= b
    ensures a * c <= b * c && c * a <= c * b
  {
    assert b * c == a * c + (b - a) * c;
  }

  lemma MulBoundNat(a: nat, b: nat, x: nat, y: nat)
    requires a <= x && b <= y
    ensures a * b <= x * y
  {
    MulMonoNat(a, x, b);
    MulMonoNat(b, y, x);
  }

  lemma DivBounds(n: nat, d: nat)
    requires d > 0
    ensures n / d * d <= n < n / d * d + d
    ensures n == n / d * d + n % d
  {
  }

  /** The quotient is the only number with the quotient's bounds. */
  lemma DivUnique(n: nat, d: nat, q: nat)
    requires d > 0 && q * d <= n < q * d + d
    ensures n / d == q && n % d == n - q * d
  {
    var r := n / d;
    DivBounds(n, d);
    if r < q {
      MulMonoNat(r + 1, q, d);
    } else if q < r {
      MulMonoNat(q + 1, r, d);
    }
  }

  /** `n <= k * d` caps the quotient. */
  lemma DivAtMost(n: nat, d: nat, k: nat)
    requires d > 0 && n < k * d + d
    ensures n / d <= k
  {
    DivBounds(n, d);
    if n / d > k {
      MulMonoNat(k + 1, n / d, d);
    }
  }

  lemma DivAtLeast(n: nat, d: nat, k: nat)
    requires d > 0 && k * d <= n
    ensures k <= n / d
  {
    DivBounds(n, d);
    if n / d < k {
      MulMonoNat(n / d + 1, k, d);
    }
  }

  lemma DivMonoNat(a: nat, b: nat, d: nat)
    requires d > 0 && a <= b
    ensures a / d <= b / d
  {
    DivBounds(b, d);
    DivAtMost(a, d, b / d);
  }

  /** Flooring twice is flooring once. */
  lemma DivDiv(n: nat, a: nat, b: nat)
    requires a > 0 && b > 0
    ensures a * b > 0 && n / a / b == n / (a * b)
  {
    var p, q := n / a, n / a / b;
    MulMonoNat(1, a, b);
    DivBounds(n, a);
    DivBounds(p, b);
    MulMonoNat(q * b, p, a);
    MulMonoNat(p + 1, q * b + b, a);
    Regroup(q, a, b);
    Between(n, p, q * b, a, b);
    DivUnique(n, a * b, q);
  }

  lemma Regroup(q: nat, a: nat, b: nat)
    ensures q * b * a == q * (a * b) && (q * b + b) * a == q * (a * b) + a * b
  {
  }

  lemma Between(n: nat, p: nat, low: nat, a: nat, b: nat)
    requires p * a <= n < p * a + a && low * a <= p * a && (p + 1) * a <= (low + b) * a
    ensures low * a <= n < (low + b) * a
  {
  }
}
