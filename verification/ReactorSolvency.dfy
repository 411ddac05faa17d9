/** Every run of the Reactor Pool refines the naive ledger, and the naive ledger is solvent. */
module ReactorSolvency {
  import opened Arith
  import opened FixedPoint
  import opened ReactorMath
  import opened Reals
  import opened ReactorClaims
  import opened ReactorLedger

  /** The pool account in every reachable state: the product in its domain, the current cell of
      the grid addressable, and every later cell still zero. */
  ghost predicate PoolOk(w: Reactor) {
    && SCALE_FACTOR <= w.st.p <= WAD
    && SIdx(w.st.epoch, w.st.scale, w.stride, |w.grid|).Some?
    && (forall i :: w.st.epoch * w.stride + w.st.scale < i < |w.grid| ==> w.grid[i] == 0)
  }

  /** A depositor account stands within the rounding of its naive account, on both sides. */
  ghost predicate Refines(w: Reactor, d: ReactorDeposit, a: Account) {
    && a.principal == d.deposited <= U64_MAX
    && a.balance >= 0.0 && a.gain >= 0.0
    && SnapshotOk(w.st, d.snap, w.stride)
    && d.snap.s <= CellAt(w.grid, d.snap.epoch, d.snap.scale, w.stride)
    && a.balance * Discount(a.offsets) <= Claim(w.st, d.deposited, d.snap, w.stride) <= a.balance
    && a.sure <= CellGain(w.grid, w.stride, d.deposited, d.snap) <= a.gain
  }

  /** What an account can have come to: no more than was recorded, current while no offset has happened,
      and a gain of which only the exposure is unsure. */
  ghost predicate Measured(w: Reactor, d: ReactorDeposit, a: Account, unitShares: real) {
    && a.balance <= a.principal as real
    && a.gain - a.sure <= Unsure(a, unitShares)
    && (a.offsets == 0 ==>
          && a.balance == a.principal as real && a.gain == 0.0
          && d.snap.p == w.st.p && d.snap.scale == w.st.scale && d.snap.epoch == w.st.epoch)
  }

  /** Balances are the deposits, plus the surplus, less the carried loss residual and what touches did
      not pay, exactly. `C <= D` would not survive an offset; this does. */
  ghost predicate Solvent(w: Reactor, l: Ledger, limit: nat) {
    && w.st.lastLossError <= limit
    && SumBalance(l.accounts)
       == w.st.totalDeposits as real + l.gauge.surplus - Fraction(w.st.lastLossError) - l.forgone
    && 0.0 <= l.gauge.surplus <= Fraction(limit)
    && (w.st.lastLossError == 0 ==> l.gauge.surplus == 0.0)
    && 0.0 <= l.forgone <= l.allowance
  }

  /** Realized, promised and lost collateral are what was seized, less the carried residual, plus the
      drift, exactly. */
  ghost predicate Conserving(w: Reactor, l: Ledger) {
    && l.credited as real + SumGain(l.accounts) + l.lost
       == l.seized as real - Fraction(w.st.lastCollError) + l.drift
    && 0.0 <= l.lost <= l.lostAllowance
  }

  ghost function SlackCap(limit: nat, unitShares: real): real {
    Fraction(limit) * unitShares
  }

  /** The drift is at most the slack, and at least the dip; the slack is at most `limit / 1e18` deposit
      units' share of each offset. */
  ghost predicate SlackWithin(l: Ledger, limit: nat) {
    && -l.dip <= l.drift <= l.gauge.slack
    && 0.0 <= l.gauge.slack <= SlackCap(limit, l.gauge.unitShares)
    && 0.0 <= l.gauge.unitShares
  }

  ghost predicate Inv(w: Reactor, l: Ledger, limit: nat) {
    && PoolOk(w)
    && |l.accounts| == |w.deps|
    && (forall i :: 0 <= i < |w.deps| ==> Refines(w, w.deps[i], l.accounts[i]))
    && (forall i :: 0 <= i < |w.deps| ==> Measured(w, w.deps[i], l.accounts[i], l.gauge.unitShares))
    && Solvent(w, l, limit)
    && Conserving(w, l)
    && SlackWithin(l, limit)
  }

  // ----- sums over accounts --------------------------------------------------------------------

  lemma {:induction false} SumBalanceScaled(s: seq<Account>, r: seq<Account>, c: real)
    requires |r| == |s| && forall i :: 0 <= i < |s| ==> r[i].balance == s[i].balance * c
    ensures SumBalance(r) == SumBalance(s) * c
  {
    if s != [] {
      SumBalanceScaled(s[..|s| - 1], r[..|s| - 1], c);
      Distribute(SumBalance(s[..|s| - 1]), s[|s| - 1].balance, c);
    }
  }

  lemma {:induction false} SumGainAdded(s: seq<Account>, r: seq<Account>, c: real)
    requires |r| == |s| && forall i :: 0 <= i < |s| ==> r[i].gain == s[i].gain + s[i].balance * c
    ensures SumGain(r) == SumGain(s) + SumBalance(s) * c
  {
    if s != [] {
      SumGainAdded(s[..|s| - 1], r[..|s| - 1], c);
      Distribute(SumBalance(s[..|s| - 1]), s[|s| - 1].balance, c);
    }
  }

  lemma SumsOfOffset(s: seq<Account>, u: PerUnit)
    ensures SumBalance(OffsetAll(s, u)) == Kept(SumBalance(s), u)
    ensures SumGain(OffsetAll(s, u)) == SumGain(s) + Earned(SumBalance(s), u)
  {
    hide SumBalance, SumGain, Discount, Fraction;
    SumBalanceScaled(s, OffsetAll(s, u), Fraction(u.factor));
    SumGainAdded(s, OffsetAll(s, u), Fraction(u.gain));
  }

  lemma Distribute(x: real, y: real, c: real)
    ensures (x + y) * c == x * c + y * c
  {
  }

  lemma {:induction false} SumsOfUpdate(s: seq<Account>, i: nat, a: Account)
    requires i < |s|
    ensures SumBalance(s[i := a]) == SumBalance(s) - s[i].balance + a.balance
    ensures SumGain(s[i := a]) == SumGain(s) - s[i].gain + a.gain
  {
    var t := s[i := a];
    if i == |s| - 1 {
      assert t[..|s| - 1] == s[..|s| - 1];
    } else {
      SumsOfUpdate(s[..|s| - 1], i, a);
      assert t[..|s| - 1] == s[..|s| - 1][i := a];
    }
  }

  lemma {:induction false} SumsOfAppend(s: seq<Account>, a: Account)
    ensures SumBalance(s + [a]) == SumBalance(s) + a.balance
    ensures SumGain(s + [a]) == SumGain(s) + a.gain
  {
    assert (s + [a])[..|s|] == s;
  }

  lemma {:induction false} SumBalanceNonNegative(s: seq<Account>)
    requires forall i :: 0 <= i < |s| ==> s[i].balance >= 0.0
    ensures SumBalance(s) >= 0.0
  {
    if s != [] { SumBalanceNonNegative(s[..|s| - 1]); }
  }

  // ----- one offset, pool-wide -----------------------------------------------------------------

  /** The two carried residuals make the per-unit amounts exact: nothing is lost between what an
      offset takes in and what it hands out, counting the residuals. */
  ghost predicate ExactInt(st: PoolState, debt: nat, coll: nat, u: PerUnit) {
    && debt <= st.totalDeposits
    && u.factor <= WAD
    && u.gain * st.totalDeposits + u.collError == coll * WAD + st.lastCollError
    && u.collError < st.totalDeposits
    && u.lossError <= st.totalDeposits
    && (debt < st.totalDeposits ==>
          && u.factor * st.totalDeposits + u.lossError == WAD * (st.totalDeposits - debt) + st.lastLossError
          && 0 < u.lossError)
    && (debt == st.totalDeposits ==> u.factor == 0 && u.lossError == 0)
  }

  lemma PerUnitExact(st: PoolState, debt: nat, coll: nat)
    requires 0 < st.totalDeposits && debt <= st.totalDeposits
    requires ComputePerUnit(st, debt, coll).Ok?
    ensures ExactInt(st, debt, coll, ComputePerUnit(st, debt, coll).value)
  {
    var total := st.totalDeposits;
    var collNumerator := coll * WAD + st.lastCollError;
    DivBounds(collNumerator, total);
    if debt < total {
      var lossNumerator := debt * WAD - st.lastLossError;
      LossPerUnitBounds(lossNumerator, debt, total);
      FactorTimes(lossNumerator / total + 1, total);
    }
  }

  /** The same facts in deposit units. */
  ghost predicate Exact(st: PoolState, debt: nat, coll: nat, u: PerUnit) {
    && debt <= st.totalDeposits
    && 0.0 <= Fraction(u.factor) <= 1.0
    && Fraction(u.gain) * st.totalDeposits as real + Fraction(u.collError) == coll as real + Fraction(st.lastCollError)
    && u.lossError <= st.totalDeposits
    && (debt < st.totalDeposits ==>
          && Fraction(u.factor) * st.totalDeposits as real + Fraction(u.lossError)
             == (st.totalDeposits - debt) as real + Fraction(st.lastLossError)
          && 0 < u.lossError)
    && (debt == st.totalDeposits ==> Fraction(u.factor) == 0.0 && u.lossError == 0)
  }

  lemma ExactOverReals(st: PoolState, debt: nat, coll: nat, u: PerUnit)
    requires ExactInt(st, debt, coll, u)
    ensures Exact(st, debt, coll, u)
  {
    FractionOfProduct(u.gain, st.totalDeposits);
    FractionOfProduct(u.factor, st.totalDeposits);
  }

  lemma FractionOfProduct(a: nat, b: nat)
    ensures Fraction(a * b) == Fraction(a) * b as real
  {
    RealOfProduct(a, b);
  }

  lemma FactorTimes(lossPerUnit: nat, total: nat)
    ensures (WAD - lossPerUnit) * total == WAD * total - lossPerUnit * total
  {
  }

  /** The step of the balance equation. `c` is the sum of balances, `d` the deposits, `e` the carried
      residual, `y` the surplus, `t` what was forgone, `f` the fraction that survives. */
  lemma BalanceStep(c: real, d: real, d': real, e: real, e': real, f: real, y: real, t: real)
    requires c == d + y - e - t
    requires f * d + e' == d' + e
    ensures c * f == d' + (y * f + e - e * f) - e' - t * f
  {
    assert c * f == d * f + y * f - e * f - t * f;
  }

  /** An average of two numbers stays within their bound. */
  lemma AverageWithin(y: real, e: real, f: real, m: real)
    requires 0.0 <= y <= m && 0.0 <= e <= m && 0.0 <= f <= 1.0
    ensures 0.0 <= y * f + e - e * f <= m
  {
    var h := 1.0 - f;
    MulNonNegative(y, f);
    MulNonNegative(e, h);
    MulNonNegative(m - y, f);
    MulNonNegative(m - e, h);
    assert e * h == e - e * f;
    assert (m - y) * f == m * f - y * f && (m - e) * h == m - m * f - e + e * f;
  }

  /** Balances through one offset, partial or total: the equation, and the range of the surplus. */
  lemma OffsetBalances(st: PoolState, b: real, g: Gauge, t: real, debt: nat, coll: nat, u: PerUnit, limit: nat)
    requires Exact(st, debt, coll, u) && st.lastLossError <= limit && 0.0 <= g.surplus <= Fraction(limit)
    requires b == st.totalDeposits as real + g.surplus - Fraction(st.lastLossError) - t
    ensures var y := GaugeAfter(g, st, debt, u).surplus;
            && Kept(b, u) == (st.totalDeposits - debt) as real + y - Fraction(u.lossError) - Kept(t, u)
            && 0.0 <= y <= Fraction(limit)
            && (u.lossError == 0 ==> y == 0.0)
  {
    hide Fraction;
    FractionNonNegative(st.lastLossError);
    FractionMono(st.lastLossError, limit);
    if debt < st.totalDeposits {
      BalanceStep(b, st.totalDeposits as real, (st.totalDeposits - debt) as real, Fraction(st.lastLossError),
                  Fraction(u.lossError), Fraction(u.factor), g.surplus, t);
      AverageWithin(g.surplus, Fraction(st.lastLossError), Fraction(u.factor), Fraction(limit));
    } else {
      assert b * 0.0 == 0.0 && t * 0.0 == 0.0;
      FractionZero();
    }
  }

  lemma FractionZero()
    ensures Fraction(0) == 0.0
  {
  }

  lemma FractionMono(a: nat, b: nat)
    requires a <= b
    ensures Fraction(a) <= Fraction(b)
  {
  }

  /** Collateral through one offset: what is promised is what was seized, less the change of the carried
      residual, plus the share of whatever balances differ from deposits. */
  lemma OffsetConserves(st: PoolState, b: real, debt: nat, coll: nat, u: PerUnit)
    requires Exact(st, debt, coll, u)
    ensures Earned(b, u)
         == coll as real + Fraction(st.lastCollError) - Fraction(u.collError)
            + Earned(b - st.totalDeposits as real, u)
  {
    hide Fraction;
    assert (b - st.totalDeposits as real) * Fraction(u.gain)
        == b * Fraction(u.gain) - Fraction(u.gain) * st.totalDeposits as real;
  }
}
