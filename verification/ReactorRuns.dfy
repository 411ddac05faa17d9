/** Every operation keeps the invariant, hence every run does; and what the invariant means for
    depositors. */
module ReactorRuns {
  import opened Arith
  import opened FixedPoint
  import opened ReactorMath
  import opened Reals
  import opened ReactorClaims
  import opened ReactorLedger
  import opened ReactorSolvency

  // ----- touches -------------------------------------------------------------------------------

  /** Claims read neither the deposit total nor the carried residuals. */
  lemma RefinesFrame(w: Reactor, w': Reactor, d: ReactorDeposit, a: Account)
    requires Refines(w, d, a)
    requires w'.st.p == w.st.p && w'.st.epoch == w.st.epoch && w'.st.scale == w.st.scale
    requires w'.grid == w.grid && w'.stride == w.stride
    ensures Refines(w', d, a)
  {
    assert Claim(w'.st, d.deposited, d.snap, w.stride) == Claim(w.st, d.deposited, d.snap, w.stride);
  }

  /** A deposit re-recorded now is worth exactly itself and has earned nothing yet. */
  lemma RerecordRefines(w: Reactor, deposited: nat, pending: nat)
    requires PoolOk(w) && deposited <= U64_MAX
    ensures Refines(w, Rerecord(w, deposited, pending), Account(deposited, deposited as real, 0.0, 0.0, 0))
  {
    var d := Rerecord(w, deposited, pending);
    var a := Account(deposited, deposited as real, 0.0, 0.0, 0);
    UnitNonNegative(deposited, d.snap);
    assert Claim(w.st, deposited, d.snap, w.stride) == deposited as real;
    assert CellAt(w.grid, d.snap.epoch, d.snap.scale + 1, w.stride) == 0;
    assert VisibleSum(w.grid, w.stride, d.snap) == 0.0;
    assert Unit(deposited, d.snap) * 0.0 == 0.0;
    assert a.balance * Discount(0) == a.balance;
  }

  lemma OpenRefines(w: Reactor)
    requires PoolOk(w)
    ensures Refines(w, ReactorDeposit(0, Snapshot(w.st.p, 0, w.st.scale, w.st.epoch), 0), Account(0, 0.0, 0.0, 0.0, 0))
  {
    var snap := Snapshot(w.st.p, 0, w.st.scale, w.st.epoch);
    assert Unit(0, snap) == 0.0;
    assert 0.0 * Scaled(w.st.p as real, 0) == 0.0;
    assert 0.0 * VisibleSum(w.grid, w.stride, snap) == 0.0;
  }

  /** What a touch pays or credits is within the naive account, short of it only by rounding. */
  lemma RealizeBounds(w: Reactor, d: ReactorDeposit, a: Account)
    requires PoolOk(w) && Refines(w, d, a) && Realize(w, d).Ok?
    ensures var z := Realize(w, d).value;
            && a.balance * Discount(a.offsets) - a.principal as real * EPS - 2.0 < z.compounded as real <= a.balance
            && a.sure - 3.0 < z.gain as real <= a.gain
  {
    CompoundedBounds(w.st, d.deposited, d.snap, w.stride);
    if d.deposited > 0 {
      CollateralGainBounds(w.grid, w.stride, d.deposited, d.snap);
    } else {
      assert Unit(0, d.snap) == 0.0;
      assert 0.0 * VisibleSum(w.grid, w.stride, d.snap) == 0.0;
    }
  }

  /** The pool after a touch of `who` that leaves `deposited` on record and moves `total`. */
  function AfterTouch(w: Reactor, who: nat, total: nat, deposited: nat, pending: nat): Reactor
    requires who < |w.deps|
  {
    w.(st := w.st.(totalDeposits := total), deps := w.deps[who := Rerecord(w, deposited, pending)])
  }

  lemma TouchKeepsRefines(w: Reactor, l: Ledger, who: nat, total: nat, z: Realized, deposited: nat, pending: nat,
                          limit: nat)
    requires Inv(w, l, limit) && who < |w.deps| && deposited <= U64_MAX
    ensures var w', l' := AfterTouch(w, who, total, deposited, pending), Touched(l, who, z, deposited);
            && PoolOk(w') && |l'.accounts| == |w'.deps|
            && (forall i :: 0 <= i < |w'.deps| ==> Refines(w', w'.deps[i], l'.accounts[i]))
            && (forall i :: 0 <= i < |w'.deps| ==> Measured(w', w'.deps[i], l'.accounts[i], l'.gauge.unitShares))
  {
    hide Refines, Measured, TouchAllowance, GainAllowance;
    var w', l' := AfterTouch(w, who, total, deposited, pending), Touched(l, who, z, deposited);
    forall i | 0 <= i < |w'.deps|
      ensures Refines(w', w'.deps[i], l'.accounts[i])
      ensures Measured(w', w'.deps[i], l'.accounts[i], l'.gauge.unitShares)
    {
      if i == who {
        RerecordRefines(w, deposited, pending);
        RerecordMeasured(w, deposited, pending, l.gauge.unitShares);
      }
      RefinesFrame(w, w', w'.deps[i], l'.accounts[i]);
      MeasuredFrame(w, w', w'.deps[i], l'.accounts[i], l.gauge.unitShares);
    }
  }

  lemma RerecordMeasured(w: Reactor, deposited: nat, pending: nat, unitShares: real)
    ensures Measured(w, Rerecord(w, deposited, pending), Account(deposited, deposited as real, 0.0, 0.0, 0), unitShares)
  {
    NoExposure(Account(deposited, deposited as real, 0.0, 0.0, 0), unitShares);
  }

  lemma NoExposure(a: Account, unitShares: real)
    requires a.offsets == 0
    ensures Unsure(a, unitShares) == 0.0
  {
    assert a.principal * a.offsets == 0;
    assert 0.0 * unitShares == 0.0;
  }

  lemma MeasuredFrame(w: Reactor, w': Reactor, d: ReactorDeposit, a: Account, unitShares: real)
    requires Measured(w, d, a, unitShares)
    requires w'.st.p == w.st.p && w'.st.epoch == w.st.epoch && w'.st.scale == w.st.scale
    ensures Measured(w', d, a, unitShares)
  {
  }

  /** What a touch does not pay is within its allowance. */
  lemma CompoundedLoss(w: Reactor, d: ReactorDeposit, a: Account, unitShares: real)
    requires PoolOk(w) && Refines(w, d, a) && Measured(w, d, a, unitShares)
    ensures CompoundedDeposit(w.st, d.deposited, d.snap).Some?
    ensures 0.0 <= a.balance - CompoundedDeposit(w.st, d.deposited, d.snap).value as real <= TouchAllowance(a)
  {
    hide CellGain, CellAt, Claim, Exposure, Discount, CompoundedDeposit;
    CompoundedBounds(w.st, d.deposited, d.snap, w.stride);
    if a.offsets == 0 {
      UntouchedPays(w, d);
    } else {
      DiscountedBalance(a);
      EpsOf(a.principal);
    }
  }

  lemma EpsOf(n: nat)
    ensures n as real * EPS == n as real / 1_000_000_000.0
  {
  }

  /** What a touch does not pay or credit is within its allowances. */
  lemma TouchLoss(w: Reactor, d: ReactorDeposit, a: Account, unitShares: real)
    requires PoolOk(w) && Refines(w, d, a) && Measured(w, d, a, unitShares) && Realize(w, d).Ok?
    ensures var z := Realize(w, d).value;
            && 0.0 <= a.balance - z.compounded as real <= TouchAllowance(a)
            && 0.0 <= a.gain - z.gain as real <= GainAllowance(a, unitShares)
  {
    hide Refines, CompoundedDeposit, CollateralGain, TouchAllowance, Exposure, Discount;
    CompoundedLoss(w, d, a, unitShares);
    RealizeBounds(w, d, a);
  }

  lemma PrincipalIsDeposit(w: Reactor, d: ReactorDeposit, a: Account)
    requires Refines(w, d, a)
    ensures a.principal == d.deposited <= U64_MAX && a.balance >= 0.0
  {
  }

  /** An account no offset has reached is paid in full. */
  lemma UntouchedPays(w: Reactor, d: ReactorDeposit)
    requires PoolOk(w) && d.deposited <= U64_MAX
    requires d.snap.p == w.st.p && d.snap.scale == w.st.scale && d.snap.epoch == w.st.epoch
    ensures CompoundedDeposit(w.st, d.deposited, d.snap) == Some(d.deposited)
  {
    ExactQuotient(d.deposited, w.st.p);
  }

  lemma ExactQuotient(d: nat, p: nat)
    requires p > 0
    ensures d * p / p == d
  {
    DivUnique(d * p, p, d);
  }

  lemma DiscountedBalance(a: Account)
    requires 0.0 <= a.balance <= a.principal as real
    ensures a.balance - a.balance * Discount(a.offsets) <= Exposure(a)
  {
    var n := a.offsets as real / 1_000_000_000.0;
    assert a.balance * (1.0 - n) == a.balance - a.balance * n;
    MulMono(a.balance, a.principal as real, n);
    RealOfProduct(a.principal, a.offsets);
    assert a.principal as real * n == a.principal as real * a.offsets as real / 1_000_000_000.0;
  }

  lemma TouchKeepsInv(w: Reactor, l: Ledger, who: nat, total: nat, z: Realized, deposited: nat, pending: nat,
                      limit: nat)
    requires Inv(w, l, limit) && who < |w.deps| && deposited <= U64_MAX
    requires Realize(w, w.deps[who]) == Ok(z)
    requires deposited as real - z.compounded as real == total as real - w.st.totalDeposits as real
    ensures Inv(AfterTouch(w, who, total, deposited, pending), Touched(l, who, z, deposited), limit)
  {
    hide Refines, Measured, PoolOk, Rerecord, Realize, TouchAllowance, GainAllowance, Fraction;
    TouchKeepsRefines(w, l, who, total, z, deposited, pending, limit);
    TouchLoss(w, w.deps[who], l.accounts[who], l.gauge.unitShares);
    SumsOfUpdate(l.accounts, who, Account(deposited, deposited as real, 0.0, 0.0, 0));
  }

  // ----- offsets -------------------------------------------------------------------------------

  lemma DiscountStep(n: nat)
    ensures Discount(n) * (1.0 - EPS) >= Discount(n + 1)
  {
    var x := n as real / 1_000_000_000.0;
    assert (1.0 - x) * (1.0 - EPS) == 1.0 - x - EPS + x * EPS;
    assert x * EPS == x / 1_000_000_000.0;
  }

  /** The lower bound on a claim through one floored product update. */
  lemma LowerStep(b: real, n: nat, c: real, c': real, f: real)
    requires b >= 0.0 && f >= 0.0
    requires b * Discount(n) <= c && c * f * (1.0 - EPS) <= c'
    ensures b * f * Discount(n + 1) <= c'
  {
    var t, t', e := Discount(n), Discount(n + 1), 1.0 - EPS;
    DiscountStep(n);
    calc {
      b * f * t';
      <= { MulNonNegative(b, f); MulMono(t', t * e, b * f); }
      b * f * (t * e);
      == (f * e) * (b * t);
      <= { MulNonNegative(f, e); MulMono(b * t, c, f * e); }
      (f * e) * c;
      == c * f * e;
      <= c';
    }
  }

  lemma BalanceStepReal(b: real, n: nat, c: real, c': real, f: real)
    requires b >= 0.0 && f >= 0.0
    requires b * Discount(n) <= c <= b && c * f * (1.0 - EPS) <= c' <= c * f
    ensures b * f >= 0.0
    ensures b * f * Discount(n + 1) <= c' <= b * f
  {
    MulNonNegative(b, f);
    LowerStep(b, n, c, c', f);
    MulMono(c, b, f);
  }

  /** One depositor through one partial offset: the balance. */
  lemma OffsetKeepsBalance(st: PoolState, st': PoolState, stride: nat, d: ReactorDeposit, a: Account, u: PerUnit,
                           bumps: nat)
    requires SnapshotOk(st, d.snap, stride) && a.balance >= 0.0
    requires a.balance * Discount(a.offsets) <= Claim(st, d.deposited, d.snap, stride) <= a.balance
    requires st'.epoch == st.epoch && st'.scale == st.scale + bumps
    requires FlooredProduct(st.p, u.factor, st'.p, bumps)
    ensures SnapshotOk(st', d.snap, stride)
    ensures var a' := OffsetAccount(a, u);
            && a'.balance >= 0.0
            && a'.balance * Discount(a'.offsets) <= Claim(st', d.deposited, d.snap, stride) <= a'.balance
  {
    hide Unit, Discount, Fraction, Scaled;
    FractionNonNegative(u.factor);
    if d.snap.epoch == st.epoch {
      ClaimStep(st, st', d.deposited, d.snap, stride, u.factor, bumps);
    } else {
      assert 0.0 * Fraction(u.factor) == 0.0;
    }
    BalanceStepReal(a.balance, a.offsets, Claim(st, d.deposited, d.snap, stride),
                    Claim(st', d.deposited, d.snap, stride), Fraction(u.factor));
  }

  /** One depositor through one offset that rolls the epoch: everyone is wiped. */
  lemma RollKeepsBalance(st: PoolState, st': PoolState, stride: nat, d: ReactorDeposit, a: Account, u: PerUnit)
    requires SnapshotOk(st, d.snap, stride) && u.factor == 0 && st'.epoch == st.epoch + 1
    ensures SnapshotOk(st', d.snap, stride)
    ensures var a' := OffsetAccount(a, u);
            && a'.balance == 0.0
            && a'.balance * Discount(a'.offsets) == Claim(st', d.deposited, d.snap, stride) == 0.0
  {
    assert Fraction(0) == 0.0;
    assert a.balance * 0.0 == 0.0;
    assert 0.0 * Discount(a.offsets + 1) == 0.0;
  }

  /** One depositor through one offset: the collateral. A claim above a billionth of the recorded
      deposit is at most one rescale behind, so its share is still visible to its snapshot. */
  lemma OffsetKeepsGain(w: Reactor, d: ReactorDeposit, a: Account, u: PerUnit)
    requires PoolOk(w) && Refines(w, d, a)
    ensures var i := w.st.epoch * w.stride + w.st.scale;
            var grid' := w.grid[i := w.grid[i] + u.gain * w.st.p];
            var a' := OffsetAccount(a, u);
            && d.snap.s <= CellAt(grid', d.snap.epoch, d.snap.scale, w.stride)
            && a'.gain >= 0.0
            && a'.sure <= CellGain(grid', w.stride, d.deposited, d.snap) <= a'.gain
  {
    hide CellGain, CellAt, OffsetAccount, Claim, Discount, Fraction, Earned;
    var c := Claim(w.st, d.deposited, d.snap, w.stride);
    var near := d.snap.epoch == w.st.epoch && w.st.scale <= d.snap.scale + 1;
    CellGainStep(w.st, w.grid, w.stride, u.gain, d.deposited, d.snap);
    ClaimNonNegative(w.st, d.deposited, d.snap, w.stride);
    FarClaim(w.st, d.deposited, d.snap, w.stride);
    ShareOf(u, c);
    var i := w.st.epoch * w.stride + w.st.scale;
    GainStepReal(a, c, u, near, CellGain(w.grid, w.stride, d.deposited, d.snap),
                 CellGain(w.grid[i := w.grid[i] + u.gain * w.st.p], w.stride, d.deposited, d.snap));
  }

  /** A claim more than one rescale or an epoch behind is at most a billionth of the deposit. */
  lemma FarClaim(st: PoolState, deposit: nat, snap: Snapshot, stride: nat)
    requires SnapshotOk(st, snap, stride) && st.p <= WAD
    ensures !(snap.epoch == st.epoch && st.scale <= snap.scale + 1)
            ==> Claim(st, deposit, snap, stride) <= deposit as real / 1_000_000_000.0
  {
    if snap.epoch == st.epoch && st.scale >= snap.scale + 2 {
      DeepClaim(st, deposit, snap, stride);
    }
  }

  lemma GainStepReal(a: Account, c: real, u: PerUnit, near: bool, cells: real, cells': real)
    requires 0.0 <= c <= a.balance && a.balance * Discount(a.offsets) <= c
    requires !near ==> c <= a.principal as real / 1_000_000_000.0
    requires a.sure <= cells <= a.gain && a.gain >= 0.0
    requires cells' == cells + (if near then Earned(c, u) else 0.0)
    ensures OffsetAccount(a, u).gain >= 0.0
    ensures OffsetAccount(a, u).sure <= cells' <= OffsetAccount(a, u).gain
  {
    hide Discount, Fraction, Earned, OffsetAccount;
    OffsetFields(a, u);
    EarnedOrder(a.balance * Discount(a.offsets), c, a.balance, u);
  }

  lemma OffsetFields(a: Account, u: PerUnit)
    ensures var a', x := OffsetAccount(a, u), a.balance * Discount(a.offsets);
            && a'.balance == Kept(a.balance, u) && a'.principal == a.principal && a'.offsets == a.offsets + 1
            && a'.gain == a.gain + Earned(a.balance, u)
            && a'.sure == a.sure + (if x > a.principal as real / 1_000_000_000.0 then Earned(x, u) else 0.0)
  {
  }

  lemma EarnedOrder(x: real, c: real, b: real, u: PerUnit)
    requires x <= c <= b && 0.0 <= c
    ensures Earned(x, u) <= Earned(c, u) <= Earned(b, u) && 0.0 <= Earned(c, u)
  {
    hide Fraction;
    var g := Fraction(u.gain);
    FractionNonNegative(u.gain);
    MulNonNegative(c - x, g);
    MulNonNegative(b - c, g);
    MulNonNegative(c, g);
    assert (c - x) * g == c * g - x * g && (b - c) * g == b * g - c * g;
  }

  lemma ShareOf(u: PerUnit, c: real)
    ensures u.gain as real * c / 1_000_000_000_000_000_000.0 == Earned(c, u)
  {
  }

  lemma ClaimNonNegative(st: PoolState, deposit: nat, snap: Snapshot, stride: nat)
    requires SnapshotOk(st, snap, stride)
    ensures Claim(st, deposit, snap, stride) >= 0.0
  {
    if snap.epoch == st.epoch {
      UnitNonNegative(deposit, snap);
      ScaledShrinks(st.p as real, st.scale - snap.scale);
      MulNonNegative(Unit(deposit, snap), Scaled(st.p as real, st.scale - snap.scale));
    }
  }

  /** The product after a partial offset, divided back by its rescales, is the exact product up to
      a relative error of one billionth. */
  ghost predicate FlooredProduct(p: nat, factor: nat, newP: nat, bumps: nat) {
    && p as real * Fraction(factor) * (1.0 - EPS) <= Scaled(newP as real, bumps)
    && Scaled(newP as real, bumps) <= p as real * Fraction(factor)
  }

  /** What a successful offset did, in terms of its per-unit amounts. */
  ghost predicate OffsetDid(w: Reactor, w': Reactor, debt: nat, u: PerUnit, bumps: nat) {
    && SIdx(w.st.epoch, w.st.scale, w.stride, |w.grid|).Some?
    && SIdx(w'.st.epoch, w'.st.scale, w.stride, |w.grid|).Some?
    && w'.grid == GridAfter(w, u)
    && w'.stride == w.stride && w'.deps == w.deps
    && debt <= w.st.totalDeposits && w'.st.totalDeposits == w.st.totalDeposits - debt
    && w'.st.lastCollError == u.collError && w'.st.lastLossError == u.lossError
    && (u.factor == 0 ==> w'.st.epoch == w.st.epoch + 1 && w'.st.scale == 0 && w'.st.p == WAD)
    && (u.factor > 0 ==>
          && w'.st.epoch == w.st.epoch && w'.st.scale == w.st.scale + bumps
          && UpdateProduct(w.st.p, u.factor) == Ok((w'.st.p, bumps)))
  }

  ghost function GridAfter(w: Reactor, u: PerUnit): seq<nat>
    requires SIdx(w.st.epoch, w.st.scale, w.stride, |w.grid|).Some?
  {
    var i := w.st.epoch * w.stride + w.st.scale;
    w.grid[i := w.grid[i] + u.gain * w.st.p]
  }

  lemma OffsetShape(w: Reactor, debt: nat, coll: nat) returns (u: PerUnit, bumps: nat)
    requires SIdx(w.st.epoch, w.st.scale, w.stride, |w.grid|).Some?
    requires debt > 0 && Apply(w, Absorb(debt, coll)).Ok?
    ensures 0 < w.st.totalDeposits && debt <= w.st.totalDeposits
    ensures ComputePerUnit(w.st, debt, coll) == Ok(u)
    ensures OffsetDid(w, Apply(w, Absorb(debt, coll)).value, debt, u, bumps)
  {
    u := ComputePerUnit(w.st, debt, coll).value;
    bumps := if u.factor == 0 then 0 else UpdateProduct(w.st.p, u.factor).value.1;
  }

  lemma OffsetProduct(w: Reactor, w': Reactor, debt: nat, u: PerUnit, bumps: nat)
    requires PoolOk(w) && OffsetDid(w, w', debt, u, bumps) && u.factor <= WAD
    ensures SCALE_FACTOR <= w'.st.p <= WAD
    ensures u.factor > 0 ==> bumps <= 2 && FlooredProduct(w.st.p, u.factor, w'.st.p, bumps)
  {
    hide Rescale, UpdateProduct, Scaled, Fraction, PowSF, GridAfter;
    if u.factor > 0 {
      UpdateProductDomain(w.st.p, u.factor);
      ProductStep(w.st.p, u.factor, w'.st.p, bumps);
    }
  }

  /** The grid through one offset: only the current cell moves, and the current cell advances. */
  lemma OffsetKeepsPool(w: Reactor, w': Reactor, debt: nat, u: PerUnit, bumps: nat)
    requires PoolOk(w) && OffsetDid(w, w', debt, u, bumps) && u.factor <= WAD
    ensures PoolOk(w')
    ensures w.st.epoch * w.stride + w.st.scale <= w'.st.epoch * w'.stride + w'.st.scale
  {
    OffsetProduct(w, w', debt, u, bumps);
    if u.factor == 0 {
      RowGap(w.st.epoch, w.st.epoch + 1, w.stride);
    }
  }

  lemma OffsetKeepsRefines(w: Reactor, w': Reactor, d: ReactorDeposit, a: Account, debt: nat, u: PerUnit, bumps: nat)
    requires PoolOk(w) && OffsetDid(w, w', debt, u, bumps) && Refines(w, d, a) && u.factor <= WAD
    ensures Refines(w', d, OffsetAccount(a, u))
  {
    OffsetProduct(w, w', debt, u, bumps);
    OffsetKeepsGain(w, d, a, u);
    if u.factor == 0 {
      RollKeepsBalance(w.st, w'.st, w.stride, d, a, u);
    } else {
      OffsetKeepsBalance(w.st, w'.st, w.stride, d, a, u, bumps);
    }
  }

  lemma OffsetKeepsSolvent(w: Reactor, w': Reactor, l: Ledger, debt: nat, coll: nat, u: PerUnit, bumps: nat, limit: nat)
    requires Solvent(w, l, limit) && OffsetDid(w, w', debt, u, bumps) && Exact(w.st, debt, coll, u)
    requires w.st.totalDeposits <= limit
    ensures Solvent(w', LedgerAfter(w, l, debt, coll, u), limit)
  {
    hide OffsetAll, SumBalance, Fraction, GaugeAfter, GridAfter, UpdateProduct, SIdx, Kept, Earned;
    SumsOfOffset(l.accounts, u);
    OffsetBalances(w.st, SumBalance(l.accounts), l.gauge, l.forgone, debt, coll, u, limit);
    KeptWithin(l.forgone, l.allowance, u);
  }

  lemma KeptWithin(x: real, y: real, u: PerUnit)
    requires 0.0 <= x <= y
    ensures 0.0 <= Kept(x, u) <= Kept(y, u)
  {
    hide Fraction;
    FractionNonNegative(u.factor);
    MulNonNegative(x, Fraction(u.factor));
    MulMono(x, y, Fraction(u.factor));
  }

  lemma OffsetKeepsConserving(w: Reactor, w': Reactor, l: Ledger, debt: nat, coll: nat, u: PerUnit)
    requires Conserving(w, l) && Exact(w.st, debt, coll, u)
    requires w'.st.lastCollError == u.collError
    ensures Conserving(w', LedgerAfter(w, l, debt, coll, u))
  {
    hide OffsetAccount, OffsetAll, SumBalance, SumGain, Exact, Fraction, GaugeAfter, Kept, Earned;
    SumsOfOffset(l.accounts, u);
    OffsetConserves(w.st, SumBalance(l.accounts), debt, coll, u);
  }

  lemma OffsetKeepsSlack(w: Reactor, l: Ledger, debt: nat, coll: nat, u: PerUnit, limit: nat)
    requires Solvent(w, l, limit) && SlackWithin(l, limit)
    ensures SlackWithin(LedgerAfter(w, l, debt, coll, u), limit)
  {
    hide OffsetAll, SumBalance, Fraction, GaugeAfter, Positive, Kept, Earned, SlackCap;
    var e := Fraction(w.st.lastLossError);
    var over := Positive(l.gauge.surplus - e);
    FractionNonNegative(w.st.lastLossError);
    PositivePart(l.gauge.surplus - e, Fraction(limit));
    GaugeMoves(l.gauge, w.st, debt, u);
    EarnedBetween(SumBalance(l.accounts) - w.st.totalDeposits as real, e + l.allowance, over, u);
    SlackStep(l.gauge.slack, l.gauge.unitShares, over, u, limit);
  }

  lemma PositivePart(x: real, m: real)
    requires x <= m && 0.0 <= m
    ensures x <= Positive(x) <= m && 0.0 <= Positive(x)
  {
  }

  lemma GaugeMoves(g: Gauge, st: PoolState, debt: nat, u: PerUnit)
    ensures var g' := GaugeAfter(g, st, debt, u);
            && g'.slack == g.slack + Earned(Positive(g.surplus - Fraction(st.lastLossError)), u)
            && g'.unitShares == g.unitShares + Fraction(u.gain)
  {
  }

  lemma EarnedBetween(x: real, low: real, high: real, u: PerUnit)
    requires -low <= x <= high
    ensures -Earned(low, u) <= Earned(x, u) <= Earned(high, u)
  {
    hide Fraction;
    var g := Fraction(u.gain);
    FractionNonNegative(u.gain);
    MulMono(-low, x, g);
    MulMono(x, high, g);
    assert g * (-low) == -(low * g);
  }

  lemma SlackStep(slack: real, shares: real, over: real, u: PerUnit, limit: nat)
    requires 0.0 <= slack <= SlackCap(limit, shares) && 0.0 <= over <= Fraction(limit) && 0.0 <= shares
    ensures 0.0 <= slack + Earned(over, u) <= SlackCap(limit, shares + Fraction(u.gain))
    ensures 0.0 <= shares + Fraction(u.gain)
  {
    hide Fraction;
    var g, m := Fraction(u.gain), Fraction(limit);
    FractionNonNegative(u.gain);
    MulNonNegative(over, g);
    MulMono(over, m, g);
    assert m * (shares + g) == m * shares + g * m;
    assert over * g == g * over;
  }

  /** One account through one offset: its balance stays within its principal, and its unsure gain grows by
      at most the exposure's share. */
  lemma OffsetMeasures(w: Reactor, w': Reactor, d: ReactorDeposit, a: Account, u: PerUnit, unitShares: real)
    requires Measured(w, d, a, unitShares) && a.balance >= 0.0 && u.factor <= WAD && unitShares >= 0.0
    ensures Measured(w', d, OffsetAccount(a, u), unitShares + Fraction(u.gain))
  {
    hide Discount, Fraction, OffsetAccount, Exposure, Kept, Earned, Unsure;
    var a' := OffsetAccount(a, u);
    OffsetFields(a, u);
    DiscountedBalance(a);
    UnsureStep(a, a', u, unitShares);
    FactorShrinks(a.balance, u);
  }

  lemma ExposureGrows(a: Account, a': Account)
    requires a'.principal == a.principal && a'.offsets == a.offsets + 1
    ensures Exposure(a') == Exposure(a) + a.principal as real / 1_000_000_000.0
    ensures Exposure(a) >= 0.0
  {
    assert a.principal * (a.offsets + 1) == a.principal * a.offsets + a.principal;
  }

  lemma FactorShrinks(b: real, u: PerUnit)
    requires b >= 0.0 && u.factor <= WAD
    ensures 0.0 <= Kept(b, u) <= b
  {
    var f := Fraction(u.factor);
    MulNonNegative(b, f);
    MulNonNegative(b, 1.0 - f);
    assert b * (1.0 - f) == b - b * f;
  }

  /** What is credited for sure misses the full share by at most the new exposure's share, whether or not
      the balance still counts. */
  lemma UnsureStep(a: Account, a': Account, u: PerUnit, unitShares: real)
    requires unitShares >= 0.0 && a'.principal == a.principal && a'.offsets == a.offsets + 1
    requires a.gain - a.sure <= Unsure(a, unitShares)
    requires a.balance - a.balance * Discount(a.offsets) <= Exposure(a)
    ensures var x := a.balance * Discount(a.offsets);
            var sure := if x > a.principal as real / 1_000_000_000.0 then Earned(x, u) else 0.0;
            a.gain + Earned(a.balance, u) - a.sure - sure <= Unsure(a', unitShares + Fraction(u.gain))
  {
    hide Discount, Fraction, Exposure;
    var x := a.balance * Discount(a.offsets);
    var counted := if x > a.principal as real / 1_000_000_000.0 then x else 0.0;
    FractionNonNegative(u.gain);
    ExposureGrows(a, a');
    ExposedShare(a.balance, counted, Exposure(a), Exposure(a'), unitShares, Fraction(u.gain));
    assert 0.0 * Fraction(u.gain) == 0.0;
  }

  lemma ExposedShare(b: real, c: real, before: real, after: real, s: real, g: real)
    requires b - c <= after && before <= after && s >= 0.0 && g >= 0.0
    ensures before * s + b * g - c * g <= after * (s + g)
  {
    MulNonNegative(after - before, s);
    MulNonNegative(after - (b - c), g);
    assert (after - before) * s == after * s - before * s;
    assert (after - (b - c)) * g == after * g - b * g + c * g;
    assert after * (s + g) == after * s + after * g;
  }

  lemma AllRefine(w: Reactor, w': Reactor, l: Ledger, debt: nat, coll: nat, u: PerUnit, bumps: nat, limit: nat)
    requires Inv(w, l, limit) && OffsetDid(w, w', debt, u, bumps) && u.factor <= WAD
    ensures var l' := LedgerAfter(w, l, debt, coll, u);
            && |l'.accounts| == |w'.deps|
            && (forall i :: 0 <= i < |w'.deps| ==> Refines(w', w'.deps[i], l'.accounts[i]))
            && (forall i :: 0 <= i < |w'.deps| ==> Measured(w', w'.deps[i], l'.accounts[i], l'.gauge.unitShares))
  {
    hide Refines, Measured, Solvent, Conserving, Fraction, OffsetAccount;
    forall i | 0 <= i < |w.deps|
      ensures Refines(w', w.deps[i], OffsetAll(l.accounts, u)[i])
      ensures Measured(w', w.deps[i], OffsetAll(l.accounts, u)[i], l.gauge.unitShares + Fraction(u.gain))
    {
      OffsetKeepsRefines(w, w', w.deps[i], l.accounts[i], debt, u, bumps);
      PrincipalIsDeposit(w, w.deps[i], l.accounts[i]);
      OffsetMeasures(w, w', w.deps[i], l.accounts[i], u, l.gauge.unitShares);
    }
  }

  lemma AbsorbKeepsInv(w: Reactor, l: Ledger, debt: nat, coll: nat, limit: nat)
    requires Inv(w, l, limit) && w.st.totalDeposits <= limit && Apply(w, Absorb(debt, coll)).Ok?
    ensures Inv(Next(w, Absorb(debt, coll)), LedgerNext(w, l, Absorb(debt, coll)), limit)
  {
    hide Refines, Measured, Solvent, Conserving, SlackWithin, OffsetDid, LedgerAfter, ComputePerUnit;
    if debt > 0 {
      var u, bumps := OffsetShape(w, debt, coll);
      OffsetKeepsInv(w, Apply(w, Absorb(debt, coll)).value, l, debt, coll, u, bumps, limit);
    }
  }

  lemma OffsetKeepsInv(w: Reactor, w': Reactor, l: Ledger, debt: nat, coll: nat, u: PerUnit, bumps: nat, limit: nat)
    requires Inv(w, l, limit) && 0 < w.st.totalDeposits <= limit && debt <= w.st.totalDeposits
    requires ComputePerUnit(w.st, debt, coll) == Ok(u) && OffsetDid(w, w', debt, u, bumps)
    ensures Inv(w', LedgerAfter(w, l, debt, coll, u), limit)
  {
    hide Refines, Measured, Solvent, Conserving, SlackWithin, LedgerAfter, ComputePerUnit, Exact;
    PerUnitExact(w.st, debt, coll);
    ExactOverReals(w.st, debt, coll, u);
    OffsetKeepsPool(w, w', debt, u, bumps);
    AllRefine(w, w', l, debt, coll, u, bumps, limit);
    OffsetKeepsSolvent(w, w', l, debt, coll, u, bumps, limit);
    OffsetKeepsConserving(w, w', l, debt, coll, u);
    OffsetKeepsSlack(w, l, debt, coll, u, limit);
  }

  // ----- every operation, every run ------------------------------------------------------------

  lemma OpenKeepsInv(w: Reactor, l: Ledger, limit: nat)
    requires Inv(w, l, limit)
    ensures Inv(Next(w, Open), LedgerNext(w, l, Open), limit)
  {
    hide Refines, Measured, SumBalance, SumGain, Fraction;
    var w', l' := Next(w, Open), LedgerNext(w, l, Open);
    SumsOfAppend(l.accounts, Account(0, 0.0, 0.0, 0.0, 0));
    OpenRefines(w);
    OpenMeasured(w, l.gauge.unitShares);
    forall i | 0 <= i < |w'.deps|
      ensures Refines(w', w'.deps[i], l'.accounts[i])
      ensures Measured(w', w'.deps[i], l'.accounts[i], l'.gauge.unitShares)
    {
      RefinesFrame(w, w', w'.deps[i], l'.accounts[i]);
      MeasuredFrame(w, w', w'.deps[i], l'.accounts[i], l.gauge.unitShares);
    }
  }

  lemma OpenMeasured(w: Reactor, unitShares: real)
    ensures Measured(w, ReactorDeposit(0, Snapshot(w.st.p, 0, w.st.scale, w.st.epoch), 0),
                     Account(0, 0.0, 0.0, 0.0, 0), unitShares)
  {
    NoExposure(Account(0, 0.0, 0.0, 0.0, 0), unitShares);
  }

  lemma ProvideKeepsInv(w: Reactor, l: Ledger, who: nat, amount: nat, limit: nat)
    requires Inv(w, l, limit) && Apply(w, Provide(who, amount)).Ok?
    ensures Inv(Next(w, Provide(who, amount)), LedgerNext(w, l, Provide(who, amount)), limit)
  {
    hide Inv, Realize, Rerecord, Touched;
    var z := Realize(w, w.deps[who]).value;
    TouchKeepsInv(w, l, who, w.st.totalDeposits + amount, z, z.compounded + amount, w.deps[who].pending + z.gain,
                  limit);
  }

  lemma WithdrawKeepsInv(w: Reactor, l: Ledger, who: nat, amount: nat, limit: nat)
    requires Inv(w, l, limit) && Apply(w, Withdraw(who, amount)).Ok?
    ensures Inv(Next(w, Withdraw(who, amount)), LedgerNext(w, l, Withdraw(who, amount)), limit)
  {
    hide Inv, Realize, Rerecord, Touched;
    var z := Realize(w, w.deps[who]).value;
    var out := Min(amount, z.compounded);
    TouchKeepsInv(w, l, who, w.st.totalDeposits - out, z, z.compounded - out, w.deps[who].pending + z.gain, limit);
  }

  lemma ClaimKeepsInv(w: Reactor, l: Ledger, who: nat, limit: nat)
    requires Inv(w, l, limit) && Apply(w, ClaimGains(who)).Ok?
    ensures Inv(Next(w, ClaimGains(who)), LedgerNext(w, l, ClaimGains(who)), limit)
  {
    hide Inv, Realize, Rerecord, Touched;
    var z := Realize(w, w.deps[who]).value;
    TouchKeepsInv(w, l, who, w.st.totalDeposits, z, z.compounded, 0, limit);
    assert Next(w, ClaimGains(who)) == AfterTouch(w, who, w.st.totalDeposits, z.compounded, 0);
  }

  lemma NextKeepsInv(w: Reactor, l: Ledger, op: Op, limit: nat)
    requires Inv(w, l, limit) && w.st.totalDeposits <= limit
    ensures Inv(Next(w, op), LedgerNext(w, l, op), limit)
  {
    if Apply(w, op).Ok? {
      match op
      case Open => OpenKeepsInv(w, l, limit);
      case Absorb(debt, coll) => AbsorbKeepsInv(w, l, debt, coll, limit);
      case Provide(who, amount) => ProvideKeepsInv(w, l, who, amount, limit);
      case Withdraw(who, amount) => WithdrawKeepsInv(w, l, who, amount, limit);
      case ClaimGains(who) => ClaimKeepsInv(w, l, who, limit);
    }
  }

  /** The pool never held more than `limit` during the run. Every run has such a bound. */
  ghost predicate PoolWithin(w: Reactor, ops: seq<Op>, limit: nat) {
    forall k :: 0 <= k <= |ops| ==> Run(w, ops[..k]).st.totalDeposits <= limit
  }

  /** The invariant holds after every run from a fresh pool. */
  lemma {:induction false} RunKeepsInv(stride: nat, cells: nat, ops: seq<Op>, limit: nat)
    requires 0 < stride && 0 < cells && PoolWithin(Genesis(stride, cells), ops, limit)
    ensures Inv(Run(Genesis(stride, cells), ops), RunLedger(Genesis(stride, cells), ops), limit)
  {
    var w := Genesis(stride, cells);
    if ops == [] {
      assert Run(w, ops) == w;
      assert 0.0 <= Fraction(limit) * 0.0;
    } else {
      var before := ops[..|ops| - 1];
      assert forall k :: 0 <= k <= |before| ==> before[..k] == ops[..k];
      RunKeepsInv(stride, cells, before, limit);
      assert ops[..|before|] == before;
      NextKeepsInv(Run(w, before), RunLedger(w, before), ops[|ops| - 1], limit);
    }
  }
}
