/** Powers in RAY fixed point by repeated squaring, every product floored. */
module RayMath {
  import opened Arith
  import opened FixedPoint
  import opened Reals

  function RayMul(a: nat, b: nat): Option<nat> {
    MulDivFloor(a, b, RAY)
  }

  /** The squaring loop from `z` accumulated, `b` the current square and `e` bits to go. */
  function PowFrom(z: nat, b: nat, e: nat): (r: Option<nat>)
    decreases e
  {
    if e == 0 then Some(z)
    else
      match RayMul(b, b)
      case None => None
      case Some(b') =>
        if e % 2 == 1 then
          match RayMul(z, b')
          case None => None
          case Some(z') => PowFrom(z', b', e / 2)
        else PowFrom(z, b', e / 2)
  }

  function RayPow(base: nat, exp: nat): (r: Option<nat>) {
    PowFrom(if exp % 2 == 1 then base else RAY, base, exp / 2)
  }

  /** The program's loop. */
  method RayPowLoop(base: nat, exp: nat) returns (r: Option<nat>)
    ensures r == RayPow(base, exp)
  {
    var z: nat := if exp % 2 == 1 then base else RAY;
    var b: nat, e: nat := base, exp / 2;
    while e > 0
      invariant PowFrom(z, b, e) == RayPow(base, exp)
    {
      var square := RayMul(b, b);
      if square.None? {
        return None;
      }
      b := square.value;
      if e % 2 == 1 {
        var product := RayMul(z, b);
        if product.None? {
          return None;
        }
        z := product.value;
      }
      e := e / 2;
    }
    return Some(z);
  }

  function Pow(x: real, n: nat): real {
    if n == 0 then 1.0 else x * Pow(x, n - 1)
  }

  lemma {:induction false} PowAdd(x: real, m: nat, n: nat)
    ensures Pow(x, m + n) == Pow(x, m) * Pow(x, n)
  {
    if m > 0 {
      PowAdd(x, m - 1, n);
      Associate(x, Pow(x, m - 1), Pow(x, n));
    }
  }

  lemma Associate(a: real, b: real, c: real)
    ensures a * (b * c) == a * b * c
  {
  }

  lemma {:induction false} PowRange(x: real, n: nat)
    requires x >= 0.0
    ensures Pow(x, n) >= 0.0
    ensures x <= 1.0 ==> Pow(x, n) <= 1.0
  {
    if n > 0 {
      PowRange(x, n - 1);
      if x <= 1.0 {
        UnitProduct(x, Pow(x, n - 1));
      } else {
        MulNonNegative(x, Pow(x, n - 1));
      }
    }
  }

  lemma UnitProduct(a: real, b: real)
    requires 0.0 <= a <= 1.0 && 0.0 <= b <= 1.0
    ensures 0.0 <= a * b <= 1.0
  {
    MulNonNegative(a, b);
    MulNonNegative(a, 1.0 - b);
    assert a * (1.0 - b) == a - a * b;
  }

  /** A fixed-point value as the number it stands for. */
  function Unit(v: nat): real {
    v as real / 1_000_000_000_000_000_000_000_000_000.0
  }

  /** `v` is at most `x`, and below it by at most `ulps` units in the last place. */
  ghost predicate Approximates(v: nat, x: real, ulps: nat) {
    x - Unit(ulps) <= Unit(v) <= x
  }

  /** A floored product is below the true one by less than one unit. */
  lemma RayMulUnit(a: nat, b: nat)
    requires RayMul(a, b).Some?
    ensures Unit(a) * Unit(b) - Unit(1) <= Unit(RayMul(a, b).value) <= Unit(a) * Unit(b)
  {
    var r := RayMul(a, b).value;
    assert r * 1_000_000_000_000_000_000_000_000_000 <= a * b
        <= (r + 1) * 1_000_000_000_000_000_000_000_000_000;
    RealOfProduct(a, b);
    UnitSquared(a as real, b as real);
  }

  lemma UnitSquared(a: real, b: real)
    ensures a / 1_000_000_000_000_000_000_000_000_000.0 * (b / 1_000_000_000_000_000_000_000_000_000.0)
         == a * b / 1_000_000_000_000_000_000_000_000_000.0 / 1_000_000_000_000_000_000_000_000_000.0
  {
  }

  /** Products of lower approximations: the shortfalls add, and flooring costs one more unit. */
  lemma ProductShortfall(u: real, w: real, x: real, y: real, d: real, e: real)
    requires 0.0 <= u <= x <= 1.0 && 0.0 <= w <= y <= 1.0
    requires x - d <= u && y - e <= w
    ensures x * y - d - e <= u * w
  {
    var (p, q) := (x - u, y - w);
    assert x * y - u * w == p * y + u * q;
    MulNonNegative(p, 1.0 - y);
    MulNonNegative(1.0 - u, q);
    assert p * (1.0 - y) == p - p * y && (1.0 - u) * q == q - u * q;
  }

  lemma MulBelow(u: real, w: real, x: real, y: real)
    requires 0.0 <= u <= x && 0.0 <= w <= y
    ensures u * w <= x * y
  {
    MulMono(w, y, u);
    MulMono(u, x, y);
  }

  lemma UnitNonNegative(v: nat)
    ensures Unit(v) >= 0.0
  {
  }

  /** One floored product of approximated powers. */
  lemma ProductAbove(v: nat, w: nat, x: real, m: nat, n: nat)
    requires x >= 0.0 && RayMul(v, w).Some?
    requires Unit(v) <= Pow(x, m) && Unit(w) <= Pow(x, n)
    ensures Unit(RayMul(v, w).value) <= Pow(x, m + n)
  {
    hide Unit, Pow, RayMul;
    PowAdd(x, m, n);
    UnitNonNegative(v);
    UnitNonNegative(w);
    RayMulUnit(v, w);
    MulBelow(Unit(v), Unit(w), Pow(x, m), Pow(x, n));
  }

  lemma ProductApproximates(v: nat, w: nat, x: real, m: nat, n: nat, i: nat, j: nat)
    requires 0.0 <= x <= 1.0 && RayMul(v, w).Some?
    requires Approximates(v, Pow(x, m), i) && Approximates(w, Pow(x, n), j)
    ensures Approximates(RayMul(v, w).value, Pow(x, m + n), i + j + 1)
  {
    hide Unit, Pow, RayMul;
    PowAdd(x, m, n);
    PowRange(x, m);
    PowRange(x, n);
    UnitNonNegative(v);
    UnitNonNegative(w);
    RayMulUnit(v, w);
    MulBelow(Unit(v), Unit(w), Pow(x, m), Pow(x, n));
    ProductShortfall(Unit(v), Unit(w), Pow(x, m), Pow(x, n), Unit(i), Unit(j));
    UnitAdds(i, j);
  }

  lemma UnitAdds(i: nat, j: nat)
    ensures Unit(i + j + 1) == Unit(i) + Unit(j) + Unit(1)
  {
  }

  /** The exponent the loop ends with when `z` stands for power `m` and `b` for power `k`. */
  function FinalExponent(m: nat, k: nat, e: nat): nat
    decreases e
  {
    if e == 0 then m else FinalExponent(if e % 2 == 1 then m + 2 * k else m, 2 * k, e / 2)
  }

  lemma {:induction false} FinalExponentIs(m: nat, k: nat, e: nat)
    ensures FinalExponent(m, k, e) == m + 2 * k * e
    decreases e
  {
    if e > 0 {
      var h := e / 2;
      FinalExponentIs(if e % 2 == 1 then m + 2 * k else m, 2 * k, h);
      assert 2 * k * e == 2 * (2 * k) * h + (if e % 2 == 1 then 2 * k else 0) by {
        SplitExponent(k, h);
      }
    }
  }

  lemma SplitExponent(k: nat, h: nat)
    ensures 2 * k * (2 * h) == 2 * (2 * k) * h
    ensures 2 * k * (2 * h + 1) == 2 * (2 * k) * h + 2 * k
  {
  }

  /** Whatever the base, the loop never exceeds the true power. */
  lemma {:induction false} PowFromBelow(z: nat, b: nat, e: nat, x: real, m: nat, k: nat)
    requires x >= 0.0 && PowFrom(z, b, e).Some?
    requires Unit(z) <= Pow(x, m) && Unit(b) <= Pow(x, k)
    ensures Unit(PowFrom(z, b, e).value) <= Pow(x, FinalExponent(m, k, e))
    decreases e
  {
    hide Unit, Pow, RayMul;
    if e > 0 {
      var b' := RayMul(b, b).value;
      ProductAbove(b, b, x, k, k);
      if e % 2 == 1 {
        ProductAbove(z, b', x, m, 2 * k);
        PowFromBelow(RayMul(z, b').value, b', e / 2, x, m + 2 * k, 2 * k);
      } else {
        PowFromBelow(z, b', e / 2, x, m, 2 * k);
      }
    }
  }

  /** The shortfall allowed for a power: one unit per multiplication after the first factor. */
  function Allowance(m: nat): nat {
    if m == 0 then 0 else m - 1
  }

  lemma RayMulWithin(a: nat, b: nat)
    requires a <= RAY && b <= RAY
    ensures RayMul(a, b).Some? && RayMul(a, b).value <= Min(a, b)
    ensures a == RAY ==> RayMul(a, b) == Some(b)
  {
    MulMonoNat(a, RAY, b);
    MulMonoNat(b, RAY, a);
    DivAtMost(a * b, RAY, a);
    DivAtMost(a * b, RAY, b);
  }

  /** For a base of at most one the loop never fails and stays within the allowance. */
  lemma {:induction false} PowFromApproximates(z: nat, b: nat, e: nat, x: real, m: nat, k: nat)
    requires 0.0 <= x <= 1.0 && z <= RAY && b <= RAY && k > 0
    requires Approximates(z, Pow(x, m), Allowance(m)) && Approximates(b, Pow(x, k), k - 1)
    requires m == 0 ==> z == RAY
    ensures PowFrom(z, b, e).Some? && PowFrom(z, b, e).value <= RAY
    ensures Approximates(PowFrom(z, b, e).value, Pow(x, FinalExponent(m, k, e)), Allowance(FinalExponent(m, k, e)))
    decreases e
  {
    hide Unit, Pow, RayMul, Approximates;
    if e > 0 {
      RayMulWithin(b, b);
      var b' := RayMul(b, b).value;
      ProductApproximates(b, b, x, k, k, k - 1, k - 1);
      if e % 2 == 1 {
        RayMulWithin(z, b');
        var z' := RayMul(z, b').value;
        if m > 0 {
          ProductApproximates(z, b', x, m, 2 * k, m - 1, 2 * k - 1);
        }
        PowFromApproximates(z', b', e / 2, x, m + 2 * k, 2 * k);
      } else {
        PowFromApproximates(z, b', e / 2, x, m, 2 * k);
      }
    }
  }

  lemma PowSmall(x: real)
    ensures Pow(x, 0) == 1.0 && Pow(x, 1) == x
  {
  }

  lemma StartExponent(exp: nat)
    ensures FinalExponent(exp % 2, 1, exp / 2) == exp
  {
    FinalExponentIs(exp % 2, 1, exp / 2);
  }

  /** The computed power is never above the true one. */
  lemma NeverAboveTruePower(base: nat, exp: nat)
    requires RayPow(base, exp).Some?
    ensures Unit(RayPow(base, exp).value) <= Pow(Unit(base), exp)
  {
    hide Pow, PowFrom, FinalExponent;
    PowSmall(Unit(base));
    StartExponent(exp);
    PowFromBelow(if exp % 2 == 1 then base else RAY, base, exp / 2, Unit(base), exp % 2, 1);
  }

  /** For a base of at most one it never fails, stays at most one, and is below the true power by at
      most one unit per multiplication: `exp - 1` of them. */
  lemma WithinTruePower(base: nat, exp: nat)
    requires base <= RAY
    ensures RayPow(base, exp).Some? && RayPow(base, exp).value <= RAY
    ensures Pow(Unit(base), exp) - Unit(Allowance(exp)) <= Unit(RayPow(base, exp).value) <= Pow(Unit(base), exp)
  {
    hide Pow, PowFrom, FinalExponent;
    PowSmall(Unit(base));
    StartExponent(exp);
    PowFromApproximates(if exp % 2 == 1 then base else RAY, base, exp / 2, Unit(base), exp % 2, 1);
  }

  // ----- bases above one ---------------------------------------------------------------------------

  /** What one floor leaves of a number of at least one. */
  function KeptByFloor(): real {
    1.0 - Unit(1)
  }

  /** `v` is at least one, and at least `x` less the relative loss of `floors` floors. */
  ghost predicate NearPower(v: nat, x: real, floors: nat) {
    v >= RAY && Unit(v) >= x * Pow(KeptByFloor(), floors)
  }

  lemma RayMulFits(a: nat, b: nat)
    requires Unit(a) * Unit(b) <= Unit(U128_MAX)
    ensures RayMul(a, b).Some?
  {
    RealOfProduct(a, b);
    UnitSquared(a as real, b as real);
  }

  lemma AtLeastOne(v: nat)
    ensures v >= RAY <==> Unit(v) >= 1.0
  {
  }

  lemma KeptRange()
    ensures 0.0 <= KeptByFloor() <= 1.0
  {
  }

  /** A floored product of numbers of at least one loses at most that fraction more. */
  lemma ProductNear(v: nat, w: nat, x: real, y: real, i: nat, j: nat, xy: real, floors: nat)
    requires x >= 0.0 && y >= 0.0 && RayMul(v, w).Some?
    requires NearPower(v, x, i) && NearPower(w, y, j) && xy == x * y && floors == i + j + 1
    ensures NearPower(RayMul(v, w).value, xy, floors)
  {
    hide Unit, Pow, RayMul, KeptByFloor;
    var (q, r) := (KeptByFloor(), RayMul(v, w).value);
    KeptRange();
    PowRange(q, i);
    PowRange(q, j);
    MulNonNegative(x, Pow(q, i));
    MulNonNegative(y, Pow(q, j));
    RayMulUnit(v, w);
    FlooredAtLeastOne(v, w);
    OneFloor(Unit(v) * Unit(w), Unit(r));
    FlooredProduct(Unit(v), Unit(w), x * Pow(q, i), y * Pow(q, j), q, Unit(r));
    PowerOfProduct(x, y, q, i, j);
  }

  lemma FlooredProduct(u: real, w: real, a: real, b: real, q: real, r: real)
    requires 0.0 <= a <= u && 0.0 <= b <= w && q >= 0.0 && r >= u * w * q
    ensures r >= q * (a * b)
  {
    MulBelow(a, b, u, w);
    MulMono(a * b, u * w, q);
  }

  lemma PowerOfProduct(x: real, y: real, q: real, i: nat, j: nat)
    ensures x * y * Pow(q, i + j + 1) == q * ((x * Pow(q, i)) * (y * Pow(q, j)))
  {
    hide Pow;
    PowStepUp(q, i, j);
    Regroup(x, y, Pow(q, i), Pow(q, j), q);
  }

  lemma FlooredAtLeastOne(v: nat, w: nat)
    requires v >= RAY && w >= RAY && RayMul(v, w).Some?
    ensures RayMul(v, w).value >= RAY && Unit(v) * Unit(w) >= 1.0
  {
    MulMonoNat(RAY, v, RAY);
    MulMonoNat(RAY, w, v);
    DivAtLeast(v * w, RAY, RAY);
    RealOfProduct(v, w);
    UnitSquared(v as real, w as real);
  }

  lemma OneFloor(t: real, u: real)
    requires t >= 1.0 && u >= t - Unit(1)
    ensures u >= t * KeptByFloor()
  {
    MulNonNegative(t - 1.0, Unit(1));
    assert (t - 1.0) * Unit(1) == t * Unit(1) - Unit(1);
    assert t * KeptByFloor() == t - t * Unit(1);
  }

  lemma PowStepUp(q: real, i: nat, j: nat)
    ensures Pow(q, i + j + 1) == q * (Pow(q, i) * Pow(q, j))
  {
    PowAdd(q, i, j);
  }

  lemma Regroup(x: real, y: real, a: real, b: real, q: real)
    ensures x * y * (q * (a * b)) == q * ((x * a) * (y * b))
  {
    assert (x * a) * (y * b) == (x * y) * (a * b);
  }

  lemma {:induction false} PowGrows(x: real, m: nat, n: nat)
    requires x >= 1.0 && m <= n
    ensures 1.0 <= Pow(x, m) <= Pow(x, n)
  {
    if n > 0 {
      if m < n {
        PowGrows(x, m, n - 1);
      } else {
        PowGrows(x, m - 1, n - 1);
      }
      PowGrows(x, 0, n - 1);
      MulNonNegative(x - 1.0, Pow(x, n - 1));
      assert (x - 1.0) * Pow(x, n - 1) == Pow(x, n) - Pow(x, n - 1);
    }
  }

  lemma {:induction false} PowFromNear(z: nat, b: nat, e: nat, x: real, m: nat, k: nat)
    requires x >= 1.0 && k > 0
    requires NearPower(z, Pow(x, m), Allowance(m)) && NearPower(b, Pow(x, k), k - 1)
    requires Unit(z) <= Pow(x, m) && Unit(b) <= Pow(x, k)
    requires m == 0 ==> z == RAY
    requires Pow(x, FinalExponent(m, k, e)) <= Unit(U128_MAX)
    ensures PowFrom(z, b, e).Some?
    ensures NearPower(PowFrom(z, b, e).value, Pow(x, FinalExponent(m, k, e)), Allowance(FinalExponent(m, k, e)))
    decreases e
  {
    hide Unit, Pow, RayMul, NearPower, Allowance;
    if e > 0 {
      LoopExponents(m, k, e);
      PowGrows(x, 2 * k, FinalExponent(m, k, e));
      SquareNear(b, x, k);
      var b' := RayMul(b, b).value;
      if e % 2 == 1 {
        PowGrows(x, m + 2 * k, FinalExponent(m, k, e));
        TimesNear(z, b', x, m, 2 * k);
        PowFromNear(RayMul(z, b').value, b', e / 2, x, m + 2 * k, 2 * k);
      } else {
        PowFromNear(z, b', e / 2, x, m, 2 * k);
      }
    }
  }

  lemma SquareNear(b: nat, x: real, k: nat)
    requires x >= 1.0 && k > 0 && NearPower(b, Pow(x, k), k - 1) && Unit(b) <= Pow(x, k)
    requires Pow(x, 2 * k) <= Unit(U128_MAX)
    ensures RayMul(b, b).Some?
    ensures NearPower(RayMul(b, b).value, Pow(x, 2 * k), 2 * k - 1) && Unit(RayMul(b, b).value) <= Pow(x, 2 * k)
  {
    hide Unit, Pow, RayMul, NearPower;
    ProductFits(b, b, x, k, k);
    PowAdd(x, k, k);
    PowRange(x, k);
    ProductNear(b, b, Pow(x, k), Pow(x, k), k - 1, k - 1, Pow(x, 2 * k), 2 * k - 1);
    ProductAbove(b, b, x, k, k);
  }

  lemma TimesNear(z: nat, b: nat, x: real, m: nat, k: nat)
    requires x >= 1.0 && k > 0 && NearPower(z, Pow(x, m), Allowance(m)) && NearPower(b, Pow(x, k), k - 1)
    requires Unit(z) <= Pow(x, m) && Unit(b) <= Pow(x, k) && (m == 0 ==> z == RAY)
    requires Pow(x, m + k) <= Unit(U128_MAX)
    ensures RayMul(z, b).Some?
    ensures NearPower(RayMul(z, b).value, Pow(x, m + k), Allowance(m + k)) && Unit(RayMul(z, b).value) <= Pow(x, m + k)
  {
    hide Unit, Pow, RayMul, NearPower;
    ProductFits(z, b, x, m, k);
    ProductAbove(z, b, x, m, k);
    if m == 0 {
      OneTimes(b);
    } else {
      PowAdd(x, m, k);
      PowRange(x, m);
      PowRange(x, k);
      ProductNear(z, b, Pow(x, m), Pow(x, k), m - 1, k - 1, Pow(x, m + k), Allowance(m + k));
    }
  }

  lemma OneTimes(b: nat)
    requires RayMul(RAY, b).Some?
    ensures RayMul(RAY, b).value == b
  {
  }

  lemma LoopExponents(m: nat, k: nat, e: nat)
    requires e > 0
    ensures 2 * k <= FinalExponent(m, k, e)
    ensures e % 2 == 1 ==> m + 2 * k <= FinalExponent(m, k, e)
  {
    FinalExponentIs(m, k, e);
    MulMonoNat(1, e, 2 * k);
  }

  lemma ProductFits(v: nat, w: nat, x: real, m: nat, n: nat)
    requires x >= 1.0 && Unit(v) <= Pow(x, m) && Unit(w) <= Pow(x, n)
    requires Pow(x, m + n) <= Unit(U128_MAX)
    ensures RayMul(v, w).Some?
  {
    hide Unit, Pow, RayMul;
    PowAdd(x, m, n);
    UnitNonNegative(v);
    UnitNonNegative(w);
    MulBelow(Unit(v), Unit(w), Pow(x, m), Pow(x, n));
    RayMulFits(v, w);
  }

  /** For a base of at least one it succeeds whenever the true power fits, and loses at most a fraction of
      10^-27 per multiplication. */
  lemma WithinTruePowerAboveOne(base: nat, exp: nat)
    requires base >= RAY && Pow(Unit(base), exp) <= Unit(U128_MAX)
    ensures RayPow(base, exp).Some?
    ensures Unit(RayPow(base, exp).value) >= Pow(Unit(base), exp) * Pow(KeptByFloor(), Allowance(exp))
  {
    hide Pow, PowFrom, FinalExponent, KeptByFloor;
    AtLeastOne(base);
    PowSmall(Unit(base));
    PowSmall(KeptByFloor());
    StartExponent(exp);
    PowFromNear(if exp % 2 == 1 then base else RAY, base, exp / 2, Unit(base), exp % 2, 1);
  }
}
