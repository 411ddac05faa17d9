/** Real-valued readings of the product-sum: the claim a snapshot stands for, the gain its two
    grid cells stand for, and how one offset moves them. The integer results of the pool are
    squeezed between these. */
module ReactorClaims {
  import opened Arith
  import opened FixedPoint
  import opened ReactorMath
  import opened Reals

  /** The relative error of one floored product update, as the product never falls below 1e9. */
  const EPS: real := 1.0 / 1_000_000_000.0

  /** `x / 1e9^k`. */
  ghost function Scaled(x: real, k: nat): real
    decreases k
  {
    if k == 0 then x else Scaled(x, k - 1) / 1_000_000_000.0
  }

  ghost predicate SnapshotOk(st: PoolState, snap: Snapshot, stride: nat) {
    && SCALE_FACTOR <= snap.p <= WAD
    && snap.scale < stride
    && snap.epoch <= st.epoch
    && (snap.epoch == st.epoch ==> snap.scale <= st.scale)
  }

  /** Deposit per unit of product, fixed between two touches. */
  ghost function Unit(deposit: nat, snap: Snapshot): (u: real)
    requires snap.p > 0
  {
    deposit as real / snap.p as real
  }

  /** The unrounded value of a deposit: `deposit * V / V_snap` with `V = p / 1e9^scale`. */
  ghost function Claim(st: PoolState, deposit: nat, snap: Snapshot, stride: nat): (c: real)
    requires SnapshotOk(st, snap, stride)
  {
    if snap.epoch < st.epoch then 0.0
    else Unit(deposit, snap) * Scaled(st.p as real, st.scale - snap.scale)
  }

  /** Collateral per unit of product that the two cells visible to a snapshot stand for. */
  ghost function VisibleSum(grid: seq<nat>, stride: nat, snap: Snapshot): real {
    (CellAt(grid, snap.epoch, snap.scale, stride) - snap.s) as real
    + CellAt(grid, snap.epoch, snap.scale + 1, stride) as real / 1_000_000_000.0
  }

  /** The unrounded collateral gain that those cells stand for. */
  ghost function CellGain(grid: seq<nat>, stride: nat, deposit: nat, snap: Snapshot): (g: real)
    requires snap.p > 0
  {
    Unit(deposit, snap) * VisibleSum(grid, stride, snap) / 1_000_000_000_000_000_000.0
  }

  // ----- scaling by powers of 1e9 --------------------------------------------------------------

  lemma {:induction false} ScaledAdd(x: real, a: nat, b: nat)
    ensures Scaled(x, a + b) == Scaled(Scaled(x, b), a)
    decreases a
  {
    if a > 0 { ScaledAdd(x, a - 1, b); }
  }

  lemma {:induction false} ScaledTimes(x: real, c: real, k: nat)
    ensures Scaled(x * c, k) == Scaled(x, k) * c
    decreases k
  {
    if k > 0 { ScaledTimes(x, c, k - 1); }
  }

  lemma {:induction false} ScaledMono(x: real, y: real, k: nat)
    requires x <= y
    ensures Scaled(x, k) <= Scaled(y, k)
    decreases k
  {
    if k > 0 { ScaledMono(x, y, k - 1); }
  }

  lemma {:induction false} ScaledPow(n: nat, k: nat)
    ensures Scaled((n * PowSF(k)) as real, k) == n as real
    decreases k
  {
    if k > 0 {
      ScaledPow(SCALE_FACTOR * n, k - 1);
      assert n * PowSF(k) == SCALE_FACTOR * n * PowSF(k - 1);
    } else {
      assert PowSF(0) == 1;
      assert n * PowSF(0) == n;
    }
  }

  lemma {:induction false} ScaledShrinks(x: real, k: nat)
    requires x >= 0.0
    ensures 0.0 <= Scaled(x, k) <= x
    ensures k >= 2 ==> Scaled(x, k) <= x / 1_000_000_000_000_000_000.0
    decreases k
  {
    if k > 0 { ScaledShrinks(x, k - 1); }
  }

  // ----- one offset ----------------------------------------------------------------------------

  lemma FloorRelative(q: real, x: real)
    requires q <= x < q + 1.0 && q >= 1_000_000_000.0
    ensures x * (1.0 - EPS) <= q
  {
    assert x * EPS == x / 1_000_000_000.0 >= 1.0;
  }

  /** One product update, divided back by the rescale it applied, is the exact product up to a
      relative error of one billionth, and never above it. */
  lemma ProductStep(p: nat, factor: nat, newP: nat, bumps: nat)
    requires newP == p * factor * PowSF(bumps) / WAD && newP >= SCALE_FACTOR
    ensures p as real * Fraction(factor) * (1.0 - EPS) <= Scaled(newP as real, bumps) <= p as real * Fraction(factor)
  {
    var n := p * factor * PowSF(bumps);
    FloorBounds(n, WAD);
    ScaledPow(p * factor, bumps);
    RealOfProduct(p, factor);
    ProductStepReal(n as real, newP as real, bumps, p as real * factor as real);
    assert p as real * Fraction(factor) == p as real * factor as real * INV_WAD;
  }

  const INV_WAD: real := 1.0 / 1_000_000_000_000_000_000.0

  lemma ProductStepReal(n: real, q: real, bumps: nat, pf: real)
    requires q <= n * INV_WAD < q + 1.0 && q >= 1_000_000_000.0
    requires Scaled(n, bumps) == pf
    ensures pf * INV_WAD * (1.0 - EPS) <= Scaled(q, bumps) <= pf * INV_WAD
  {
    hide Scaled;
    var x := n * INV_WAD;
    FloorRelative(q, x);
    ScaledTimes(n, INV_WAD, bumps);
    ScaledMono(q, x, bumps);
    ScaledTimes(x, 1.0 - EPS, bumps);
    ScaledMono(x * (1.0 - EPS), q, bumps);
  }

  /** A claim scales by the loss factor of each partial offset, through any number of rescales. */
  lemma ClaimStep(st: PoolState, st': PoolState, deposit: nat, snap: Snapshot, stride: nat, factor: nat, bumps: nat)
    requires SnapshotOk(st, snap, stride) && snap.epoch == st.epoch
    requires st'.epoch == st.epoch && st'.scale == st.scale + bumps
    requires st.p as real * Fraction(factor) * (1.0 - EPS) <= Scaled(st'.p as real, bumps)
    requires Scaled(st'.p as real, bumps) <= st.p as real * Fraction(factor)
    ensures SnapshotOk(st', snap, stride)
    ensures Claim(st, deposit, snap, stride) * Fraction(factor) * (1.0 - EPS) <= Claim(st', deposit, snap, stride)
    ensures Claim(st', deposit, snap, stride) <= Claim(st, deposit, snap, stride) * Fraction(factor)
  {
    hide Unit, Scaled, Fraction;
    var k := st.scale - snap.scale;
    UnitNonNegative(deposit, snap);
    ClaimStepReal(Unit(deposit, snap), st.p as real, Fraction(factor), st'.p as real, k, bumps,
                  Claim(st, deposit, snap, stride), Claim(st', deposit, snap, stride));
  }

  lemma ClaimStepReal(u: real, p: real, f: real, q: real, k: nat, bumps: nat, c: real, c': real)
    requires u >= 0.0
    requires p * f * (1.0 - EPS) <= Scaled(q, bumps) <= p * f
    requires c == u * Scaled(p, k) && c' == u * Scaled(q, k + bumps)
    ensures c * f * (1.0 - EPS) <= c' <= c * f
  {
    hide Scaled;
    ScaledAdd(q, k, bumps);
    var x, e, y := p * f, 1.0 - EPS, Scaled(q, bumps);
    ScaledTimes(p, f, k);
    ScaledTimes(x, e, k);
    ScaledMono(y, x, k);
    ScaledMono(x * e, y, k);
    ScaleBounds(u, Scaled(p, k), f, Scaled(q, k + bumps), e);
  }

  lemma UnitNonNegative(deposit: nat, snap: Snapshot)
    requires snap.p > 0
    ensures Unit(deposit, snap) >= 0.0
    ensures Unit(deposit, snap) * snap.p as real == deposit as real
  {
  }

  lemma ScaleBounds(u: real, v: real, f: real, got: real, e: real)
    requires u >= 0.0
    requires v * f * e <= got <= v * f
    ensures u * v * f * e <= u * got <= u * v * f
  {
    MulMono(got, v * f, u);
    MulMono(v * f * e, got, u);
    assert u * (v * f) == u * v * f;
    assert u * (v * f * e) == u * v * f * e;
  }

  // ----- from claims to what the pool pays -----------------------------------------------------

  lemma AtLeast(a: nat, b: nat)
    requires b >= 1
    ensures a * b >= a
  {
  }

  lemma QuotientAtMost(n: nat, d: nat)
    requires d > 0
    ensures n / d <= n
  {
    AtLeast(n / d, d);
  }

  lemma RawFits(deposit: nat, p: nat, snapP: nat)
    requires deposit <= U64_MAX && p <= WAD && 0 < snapP
    ensures deposit * p / snapP <= U128_MAX
  {
    MulBoundNat(deposit, p, U64_MAX, WAD);
    QuotientAtMost(deposit * p, snapP);
  }

  /** `deposit * x / snap.p`, floored. */
  ghost function Raw(deposit: nat, x: nat, snap: Snapshot): nat
    requires snap.p > 0
  {
    deposit * x / snap.p
  }

  lemma RawBounds(deposit: nat, x: nat, snap: Snapshot)
    requires snap.p > 0
    ensures var raw := Raw(deposit, x, snap) as real; raw <= Unit(deposit, snap) * x as real < raw + 1.0
  {
    FloorBounds(deposit * x, snap.p);
    RealOfProduct(deposit, x);
    QuotientOfProduct(deposit as real, x as real, snap.p as real);
    assert (deposit * x) as real / snap.p as real == Unit(deposit, snap) * x as real;
  }

  lemma QuotientOfProduct(a: real, b: real, d: real)
    requires d > 0.0
    ensures a * b / d == a / d * b
  {
    var q := a / d;
    assert q * d == a;
    assert q * b * d == a * b;
  }

  /** Two rescales away a deposit is worth at most a billionth of itself, which is why the pool
      may drop it. */
  lemma DeepClaim(st: PoolState, deposit: nat, snap: Snapshot, stride: nat)
    requires SnapshotOk(st, snap, stride) && snap.epoch == st.epoch && st.p <= WAD
    requires st.scale >= snap.scale + 2
    ensures 0.0 <= Claim(st, deposit, snap, stride) <= deposit as real * EPS
  {
    var k := st.scale - snap.scale;
    ScaledShrinks(st.p as real, k);
    UnitNonNegative(deposit, snap);
    UnitBound(Unit(deposit, snap), deposit as real, snap.p as real, Scaled(st.p as real, k));
  }

  lemma UnitBound(u: real, d: real, ps: real, v: real)
    requires u >= 0.0 && u * ps == d && ps >= 1_000_000_000.0 && 0.0 <= v <= 1.0
    ensures 0.0 <= u * v <= d * EPS
  {
    MulMono(v, 1.0, u);
    MulMono(0.0, v, u);
    MulMono(1_000_000_000.0, ps, u);
    assert u * 1_000_000_000.0 <= d;
    assert u * v <= u <= d / 1_000_000_000.0 == d * EPS;
  }

  /** What the pool pays out for a deposit is its claim, short of at most two units and a
      billionth of the recorded deposit, and never above it. */
  lemma CompoundedBounds(st: PoolState, deposit: nat, snap: Snapshot, stride: nat)
    requires SnapshotOk(st, snap, stride) && st.p <= WAD && deposit <= U64_MAX
    ensures CompoundedDeposit(st, deposit, snap).Some?
    ensures var c := CompoundedDeposit(st, deposit, snap).value as real;
            Claim(st, deposit, snap, stride) - deposit as real * EPS - 2.0 < c <= Claim(st, deposit, snap, stride)
  {
    UnitNonNegative(deposit, snap);
    if deposit > 0 && snap.epoch == st.epoch {
      var raw := deposit * st.p / snap.p;
      RawFits(deposit, st.p, snap.p);
      RawBounds(deposit, st.p, snap);
      CompoundedBoundsLive(st, deposit, snap, stride, raw);
    } else if deposit == 0 {
      assert Unit(deposit, snap) == 0.0;
    }
  }

  lemma CompoundedBoundsLive(st: PoolState, deposit: nat, snap: Snapshot, stride: nat, raw: nat)
    requires SnapshotOk(st, snap, stride) && st.p <= WAD && 0 < deposit && snap.epoch == st.epoch
    requires MulDivFloor(deposit, st.p, snap.p) == Some(raw)
    requires raw as real <= Unit(deposit, snap) * st.p as real < raw as real + 1.0
    ensures CompoundedDeposit(st, deposit, snap).Some?
    ensures var c := CompoundedDeposit(st, deposit, snap).value as real;
            Claim(st, deposit, snap, stride) - deposit as real * EPS - 2.0 < c <= Claim(st, deposit, snap, stride)
  {
    hide Unit, Claim, Scaled;
    var k := st.scale - snap.scale;
    var value := if k == 0 then raw else if k == 1 then raw / SCALE_FACTOR else 0;
    assert CompoundedDeposit(st, deposit, snap) == Some(if value < deposit / SCALE_FACTOR then 0 else value);
    ClaimByScale(st, deposit, snap, stride);
    if k >= 2 {
      DeepClaim(st, deposit, snap, stride);
    }
    DustGuard(Claim(st, deposit, snap, stride), Unit(deposit, snap) * st.p as real, deposit, k, raw, value);
  }

  /** What a claim is when it is not more than one rescale behind. */
  lemma ClaimByScale(st: PoolState, deposit: nat, snap: Snapshot, stride: nat)
    requires SnapshotOk(st, snap, stride) && snap.epoch == st.epoch
    ensures st.scale == snap.scale ==> Claim(st, deposit, snap, stride) == Unit(deposit, snap) * st.p as real
    ensures st.scale == snap.scale + 1
            ==> Claim(st, deposit, snap, stride) == Unit(deposit, snap) * st.p as real / 1_000_000_000.0
  {
    hide Unit;
    assert Scaled(st.p as real, 0) == st.p as real;
    assert Scaled(st.p as real, 1) == st.p as real / 1_000_000_000.0;
    OverBillion(Unit(deposit, snap), st.p as real);
  }

  lemma OverBillion(u: real, p: real)
    ensures u * (p / 1_000_000_000.0) == u * p / 1_000_000_000.0
  {
  }

  /** Flooring, and dropping what shrank below a billionth, in numbers. */
  lemma DustGuard(claim: real, exact: real, deposit: nat, k: nat, raw: nat, value: nat)
    requires raw as real <= exact < raw as real + 1.0
    requires value == (if k == 0 then raw else if k == 1 then raw / SCALE_FACTOR else 0)
    requires k == 0 ==> claim == exact
    requires k == 1 ==> claim == exact / 1_000_000_000.0
    requires k >= 2 ==> 0.0 <= claim <= deposit as real * EPS
    ensures var c := if value < deposit / SCALE_FACTOR then 0 else value;
            claim - deposit as real * EPS - 2.0 < c as real <= claim
  {
    FloorBounds(deposit, SCALE_FACTOR);
    FloorBounds(raw, SCALE_FACTOR);
    assert deposit as real * EPS == deposit as real / 1_000_000_000.0;
  }

  /** What the pool credits as collateral is the gain its two cells stand for, short of less than
      three units, and never above it. */
  lemma CollateralGainBounds(grid: seq<nat>, stride: nat, deposit: nat, snap: Snapshot)
    requires snap.p >= SCALE_FACTOR && 0 < deposit <= U64_MAX
    requires snap.s <= CellAt(grid, snap.epoch, snap.scale, stride)
    requires CollateralGain(grid, stride, deposit, snap).Ok?
    ensures var g := CollateralGain(grid, stride, deposit, snap).value as real;
            CellGain(grid, stride, deposit, snap) - 3.0 < g <= CellGain(grid, stride, deposit, snap)
  {
    hide Unit, CellAt;
    var first := CellAt(grid, snap.epoch, snap.scale, stride) - snap.s;
    var cell := CellAt(grid, snap.epoch, snap.scale + 1, stride);
    CollateralGainReal(first, cell, deposit, snap, VisibleSum(grid, stride, snap));
    assert CollateralGain(grid, stride, deposit, snap).value == Raw(deposit, first + cell / SCALE_FACTOR, snap) / WAD;
  }

  lemma CollateralGainReal(first: nat, cell: nat, deposit: nat, snap: Snapshot, y: real)
    requires snap.p >= SCALE_FACTOR && deposit <= U64_MAX
    requires y == first as real + cell as real / 1_000_000_000.0
    ensures var g := (Raw(deposit, first + cell / SCALE_FACTOR, snap) / WAD) as real;
            var exact := Unit(deposit, snap) * y / 1_000_000_000_000_000_000.0;
            exact - 3.0 < g <= exact
  {
    hide Unit, Raw;
    var sum := first + cell / SCALE_FACTOR;
    var t := Raw(deposit, sum, snap);
    FloorBounds(cell, SCALE_FACTOR);
    RawBounds(deposit, sum, snap);
    FloorBounds(t, WAD);
    UnitNonNegative(deposit, snap);
    GainSandwich(Unit(deposit, snap), deposit as real, snap.p as real, sum as real, y, t as real, (t / WAD) as real);
  }

  lemma GainSandwich(u: real, d: real, ps: real, sum: real, y: real, t: real, g: real)
    requires u >= 0.0 && u * ps == d && d <= 18_446_744_073_709_551_616.0 && ps >= 1_000_000_000.0
    requires sum <= y < sum + 1.0
    requires t <= u * sum < t + 1.0
    requires g <= t / 1_000_000_000_000_000_000.0 < g + 1.0
    ensures u * y / 1_000_000_000_000_000_000.0 - 3.0 < g <= u * y / 1_000_000_000_000_000_000.0
  {
    MulMono(sum, y, u);
    MulMono(y, sum + 1.0, u);
    MulMono(1_000_000_000.0, ps, u);
    assert u * (sum + 1.0) == u * sum + u;
  }

  /** One offset adds to the cell gain of a snapshot exactly its per-unit gain times its claim,
      as long as the snapshot is at most one rescale behind, and nothing after that. */
  lemma CellGainStep(st: PoolState, grid: seq<nat>, stride: nat, gain: nat, deposit: nat, snap: Snapshot)
    requires SnapshotOk(st, snap, stride)
    requires SIdx(st.epoch, st.scale, stride, |grid|).Some?
    ensures var i := st.epoch * stride + st.scale;
            var grid' := grid[i := grid[i] + gain * st.p];
            var near := snap.epoch == st.epoch && st.scale <= snap.scale + 1;
            && CellAt(grid', snap.epoch, snap.scale, stride) >= CellAt(grid, snap.epoch, snap.scale, stride)
            && CellGain(grid', stride, deposit, snap)
               == CellGain(grid, stride, deposit, snap)
                  + (if near then gain as real * Claim(st, deposit, snap, stride) / 1_000_000_000_000_000_000.0
                     else 0.0)
  {
    hide Unit, CellAt, Scaled, VisibleSum;
    var i := st.epoch * stride + st.scale;
    var grid' := grid[i := grid[i] + gain * st.p];
    VisibleSumStep(st, grid, stride, gain * st.p, snap);
    RealOfProduct(gain, st.p);
    NearClaim(st, deposit, snap, stride);
    var y := VisibleSum(grid, stride, snap);
    if snap.epoch == st.epoch && st.scale == snap.scale {
      GainAdds(Unit(deposit, snap), y, gain as real, st.p as real);
    } else if snap.epoch == st.epoch && st.scale == snap.scale + 1 {
      GainAdds(Unit(deposit, snap), y, gain as real, st.p as real / 1_000_000_000.0);
      assert (gain * st.p) as real / 1_000_000_000.0 == gain as real * (st.p as real / 1_000_000_000.0);
    }
  }

  lemma VisibleSumStep(st: PoolState, grid: seq<nat>, stride: nat, m: nat, snap: Snapshot)
    requires SnapshotOk(st, snap, stride)
    requires SIdx(st.epoch, st.scale, stride, |grid|).Some?
    ensures var i := st.epoch * stride + st.scale;
            var grid' := grid[i := grid[i] + m];
            && CellAt(grid', snap.epoch, snap.scale, stride) >= CellAt(grid, snap.epoch, snap.scale, stride)
            && VisibleSum(grid', stride, snap)
               == VisibleSum(grid, stride, snap)
                  + (if snap.epoch == st.epoch && st.scale == snap.scale then m as real
                     else if snap.epoch == st.epoch && st.scale == snap.scale + 1 then m as real / 1_000_000_000.0
                     else 0.0)
  {
    CellsDiffer(st, snap, stride);
  }

  lemma NearClaim(st: PoolState, deposit: nat, snap: Snapshot, stride: nat)
    requires SnapshotOk(st, snap, stride)
    ensures snap.epoch == st.epoch && st.scale == snap.scale
            ==> Claim(st, deposit, snap, stride) == Unit(deposit, snap) * st.p as real
    ensures snap.epoch == st.epoch && st.scale == snap.scale + 1
            ==> Claim(st, deposit, snap, stride) == Unit(deposit, snap) * (st.p as real / 1_000_000_000.0)
  {
    hide Unit;
    assert Scaled(st.p as real, 1) == Scaled(st.p as real, 0) / 1_000_000_000.0;
  }

  lemma CellsDiffer(st: PoolState, snap: Snapshot, stride: nat)
    requires SnapshotOk(st, snap, stride) && st.scale < stride
    ensures snap.epoch * stride + snap.scale == st.epoch * stride + st.scale
            <==> snap.epoch == st.epoch && snap.scale == st.scale
    ensures snap.scale + 1 < stride ==>
              (snap.epoch * stride + snap.scale + 1 == st.epoch * stride + st.scale
               <==> snap.epoch == st.epoch && snap.scale + 1 == st.scale)
  {
    if snap.epoch < st.epoch {
      RowGap(snap.epoch, st.epoch, stride);
    }
  }

  lemma RowGap(a: nat, b: nat, stride: nat)
    requires a < b
    ensures a * stride + stride <= b * stride
  {
    AtLeast(stride, b - a);
    assert stride * (b - a) == b * stride - a * stride;
  }

  lemma GainAdds(u: real, y: real, g: real, v: real)
    ensures u * (y + g * v) / 1_000_000_000_000_000_000.0
            == u * y / 1_000_000_000_000_000_000.0 + g * (u * v) / 1_000_000_000_000_000_000.0
  {
    assert u * (y + g * v) == u * y + g * (u * v);
  }

  // ----- what a touch computes, in one quotient ------------------------------------------------

  /** What a deposit is worth `scales` rescales after its snapshot, as one exact quotient. */
  function Worth(deposit: nat, p: nat, snapP: nat, scales: nat): nat
    requires snapP > 0
  {
    AtLeast(snapP, PowSF(scales));
    deposit * p / (snapP * PowSF(scales))
  }

  lemma WorthIs(deposit: nat, p: nat, snapP: nat)
    requires snapP > 0
    ensures Worth(deposit, p, snapP, 0) == deposit * p / snapP
    ensures Worth(deposit, p, snapP, 1) == deposit * p / snapP / SCALE_FACTOR
  {
    PowSFSmall();
    DivDiv(deposit * p, snapP, SCALE_FACTOR);
    TimesOne(snapP);
  }

  /** A deposit recorded in this epoch at most one rescale ago is worth the floor of one exact quotient, or
      nothing if that is below a billionth of it; and nothing if it was recorded earlier. */
  lemma CompoundedExact(st: PoolState, deposit: nat, snap: Snapshot)
    requires deposit <= U64_MAX && st.p <= WAD && snap.p > 0
    ensures snap.epoch == st.epoch && snap.scale <= st.scale <= snap.scale + 1 ==>
              var worth := Worth(deposit, st.p, snap.p, st.scale - snap.scale);
              CompoundedDeposit(st, deposit, snap) == Some(if worth < deposit / SCALE_FACTOR then 0 else worth)
    ensures snap.epoch < st.epoch || snap.scale + 1 < st.scale ==> CompoundedDeposit(st, deposit, snap) == Some(0)
  {
    hide CompoundedDeposit, Worth;
    WorthBySteps(st, deposit, snap);
    WorthIs(deposit, st.p, snap.p);
  }

  /** The same in the steps the program takes. */
  lemma WorthBySteps(st: PoolState, deposit: nat, snap: Snapshot)
    requires deposit <= U64_MAX && st.p <= WAD && snap.p > 0
    ensures snap.epoch == st.epoch && snap.scale <= st.scale <= snap.scale + 1 ==>
              var raw := deposit * st.p / snap.p;
              var worth := if st.scale == snap.scale then raw else raw / SCALE_FACTOR;
              CompoundedDeposit(st, deposit, snap) == Some(if worth < deposit / SCALE_FACTOR then 0 else worth)
    ensures snap.epoch < st.epoch || snap.scale + 1 < st.scale ==> CompoundedDeposit(st, deposit, snap) == Some(0)
  {
    RawFits(deposit, st.p, snap.p);
    if deposit == 0 {
      assert 0 * st.p / snap.p == 0;
    }
  }

  lemma TimesOne(x: nat)
    ensures x * 1 == x
  {
  }

  lemma PowSFSmall()
    ensures PowSF(0) == 1 && PowSF(1) == SCALE_FACTOR
  {
  }

  /** The collateral in sight of a snapshot: what its own cell has grown by, and a billionth of the next. */
  function InSight(grid: seq<nat>, stride: nat, snap: Snapshot): nat {
    SatSub(CellAt(grid, snap.epoch, snap.scale, stride), snap.s)
    + CellAt(grid, snap.epoch, snap.scale + 1, stride) / SCALE_FACTOR
  }

  /** A gain is the floor of one exact quotient, and is refused exactly if what is in sight, or the gain at
      18 decimals, passes 128 bits. */
  lemma GainExact(grid: seq<nat>, stride: nat, deposit: nat, snap: Snapshot)
    requires snap.p > 0
    ensures var sum := InSight(grid, stride, snap);
            CollateralGain(grid, stride, deposit, snap)
            == if deposit > 0 && (sum > U128_MAX || deposit * sum >= (U128_MAX + 1) * snap.p) then Err(Math)
               else Ok(deposit * sum / (snap.p * WAD))
  {
    hide CollateralGain, InSight;
    var sum := InSight(grid, stride, snap);
    GainBySteps(grid, stride, deposit, snap);
    if deposit == 0 {
      NoneOf(sum, snap.p);
    } else {
      DivDiv(deposit * sum, snap.p, WAD);
      FitsIff(deposit * sum, snap.p);
    }
  }

  lemma GainBySteps(grid: seq<nat>, stride: nat, deposit: nat, snap: Snapshot)
    requires snap.p > 0
    ensures var sum := InSight(grid, stride, snap);
            CollateralGain(grid, stride, deposit, snap)
            == if deposit == 0 then Ok(0)
               else if sum > U128_MAX || deposit * sum / snap.p > U128_MAX then Err(Math)
               else Ok(deposit * sum / snap.p / WAD)
  {
    hide CellAt;
  }

  lemma NoneOf(sum: nat, p: nat)
    requires p > 0
    ensures p * WAD > 0 && 0 * sum / (p * WAD) == 0
  {
  }

  lemma FitsIff(n: nat, d: nat)
    requires d > 0
    ensures n / d > U128_MAX <==> n >= (U128_MAX + 1) * d
  {
    if n >= (U128_MAX + 1) * d {
      DivAtLeast(n, d, U128_MAX + 1);
    } else {
      DivAtMost(n, d, U128_MAX);
    }
  }
}
