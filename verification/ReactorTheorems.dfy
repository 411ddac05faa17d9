/** What every run of the Reactor Pool guarantees, and the two runs that show where the guarantees
    end. */
module ReactorTheorems {
  import opened Arith
  import opened FixedPoint
  import opened ReactorMath
  import opened Reals
  import opened ReactorClaims
  import opened ReactorLedger
  import opened ReactorSolvency
  import opened ReactorRuns

  // ----- solvency ------------------------------------------------------------------------------

  /** What touching every account now could at most fail to pay. */
  function TotalAllowance(accounts: seq<Account>): real {
    if accounts == [] then 0.0
    else TotalAllowance(accounts[..|accounts| - 1]) + TouchAllowance(accounts[|accounts| - 1])
  }

  lemma {:induction false} CompoundedNearBalances(w: Reactor, deps: seq<ReactorDeposit>, accounts: seq<Account>,
                                                  unitShares: real)
    requires PoolOk(w) && |accounts| == |deps|
    requires forall i :: 0 <= i < |deps| ==> Refines(w, deps[i], accounts[i])
    requires forall i :: 0 <= i < |deps| ==> Measured(w, deps[i], accounts[i], unitShares)
    ensures TotalCompounded(w.st, deps) as real <= SumBalance(accounts)
    ensures SumBalance(accounts) <= TotalCompounded(w.st, deps) as real + TotalAllowance(accounts)
  {
    hide Refines, Measured, CompoundedDeposit, TouchAllowance;
    if deps != [] {
      var n := |deps| - 1;
      CompoundedNearBalances(w, deps[..n], accounts[..n], unitShares);
      CompoundedLoss(w, deps[n], accounts[n], unitShares);
    }
  }

  lemma FloorOfFraction(c: nat, d: nat, limit: nat)
    requires c as real <= d as real + Fraction(limit)
    ensures c <= d + limit / WAD
  {
    FloorBounds(limit, WAD);
  }

  /** Solvency over every run: after any interleaving of openings, provides, withdrawals, claims
      and liquidations, what all depositors could withdraw exceeds the deposits by at most the surplus less
      the carried residual, both read off the pool account, and so by at most one unit for every 1e18 units
      the pool ever held. A pool that never held more than 1e18 is exactly solvent. */
  lemma Solvency(stride: nat, cells: nat, ops: seq<Op>, limit: nat)
    requires 0 < stride && 0 < cells && PoolWithin(Genesis(stride, cells), ops, limit)
    ensures var w := Run(Genesis(stride, cells), ops);
            && TotalCompounded(w.st, w.deps) as real
               <= w.st.totalDeposits as real + RunGauge(Genesis(stride, cells), ops).surplus
                  - Fraction(w.st.lastLossError)
            && TotalCompounded(w.st, w.deps) <= w.st.totalDeposits + limit / WAD
            && (limit <= WAD ==> TotalCompounded(w.st, w.deps) <= w.st.totalDeposits)
  {
    hide Refines, Measured, Run, RunLedger, RunGauge, Fraction, PoolOk, TotalCompounded;
    var w, l := Run(Genesis(stride, cells), ops), RunLedger(Genesis(stride, cells), ops);
    RunKeepsInv(stride, cells, ops, limit);
    GaugeIsPools(Genesis(stride, cells), ops);
    CompoundedNearBalances(w, w.deps, l.accounts, l.gauge.unitShares);
    FractionNonNegative(w.st.lastLossError);
    FloorOfFraction(TotalCompounded(w.st, w.deps), w.st.totalDeposits, limit);
    if limit <= WAD {
      WithinOne(TotalCompounded(w.st, w.deps), w.st.totalDeposits, l.gauge.surplus, w.st.lastLossError, limit);
    }
  }

  /** A surplus of at most one unit less a residual that is not zero cannot make a whole unit. */
  lemma WithinOne(c: nat, d: nat, surplus: real, residual: nat, limit: nat)
    requires c as real <= d as real + surplus - Fraction(residual)
    requires surplus <= Fraction(limit) && limit <= WAD && (residual == 0 ==> surplus == 0.0)
    ensures c <= d
  {
  }

  /** The matching bound from below, over every run: what depositors could withdraw falls short of the
      deposits by no more than the carried residual and the rounding of touches, past and present. */
  lemma NothingGoesMissing(stride: nat, cells: nat, ops: seq<Op>, limit: nat)
    requires 0 < stride && 0 < cells && PoolWithin(Genesis(stride, cells), ops, limit)
    ensures var w, l := Run(Genesis(stride, cells), ops), RunLedger(Genesis(stride, cells), ops);
            && w.st.totalDeposits as real
               <= TotalCompounded(w.st, w.deps) as real
                  + Fraction(w.st.lastLossError) + l.allowance + TotalAllowance(l.accounts)
            && w.st.lastLossError <= limit
  {
    hide Refines, Measured, Run, RunLedger, Fraction, PoolOk, TotalCompounded;
    var w, l := Run(Genesis(stride, cells), ops), RunLedger(Genesis(stride, cells), ops);
    RunKeepsInv(stride, cells, ops, limit);
    CompoundedNearBalances(w, w.deps, l.accounts, l.gauge.unitShares);
  }

  lemma {:induction false} EachWithinTotal(st: PoolState, deps: seq<ReactorDeposit>, who: nat)
    requires who < |deps| && CompoundedDeposit(st, deps[who].deposited, deps[who].snap).Some?
    ensures CompoundedDeposit(st, deps[who].deposited, deps[who].snap).value <= TotalCompounded(st, deps)
  {
    if who < |deps| - 1 {
      EachWithinTotal(st, deps[..|deps| - 1], who);
    }
  }

  /** No withdrawal is ever refused for lack of deposits, and the unsigned scale difference never
      underflows: on a pool that never held more than 1e18 the only failures of a withdrawal are an
      unknown account, a zero amount, a collateral gain that cannot be computed, or one that takes the
      pending balance past 64 bits. */
  lemma WithdrawNeverUnderflows(stride: nat, cells: nat, ops: seq<Op>, limit: nat, who: nat, amount: nat)
    requires 0 < stride && 0 < cells && limit <= WAD && PoolWithin(Genesis(stride, cells), ops, limit)
    requires who < |Run(Genesis(stride, cells), ops).deps| && amount > 0
    ensures var w := Run(Genesis(stride, cells), ops);
            var dep := w.deps[who];
            && CompoundedDeposit(w.st, dep.deposited, dep.snap).Some?
            && (Apply(w, Withdraw(who, amount)).Err? <==> Realize(w, dep).Err?)
            && (Realize(w, dep).Err? <==>
                  var g := CollateralGain(w.grid, w.stride, dep.deposited, dep.snap);
                  g.Err? || dep.pending + g.value > U64_MAX)
  {
    hide Run, RunLedger, TotalCompounded, CollateralGain, CompoundedDeposit, Claim, CellGain, Realize, Apply;
    var w, l := Run(Genesis(stride, cells), ops), RunLedger(Genesis(stride, cells), ops);
    var dep := w.deps[who];
    RunKeepsInv(stride, cells, ops, limit);
    Solvency(stride, cells, ops, limit);
    assert Refines(w, dep, l.accounts[who]);
    CompoundedBounds(w.st, dep.deposited, dep.snap, w.stride);
    EachWithinTotal(w.st, w.deps, who);
    assert ops[..|ops|] == ops;
    CoveredWithdrawal(w, who, amount);
  }

  lemma CoveredWithdrawal(w: Reactor, who: nat, amount: nat)
    requires who < |w.deps| && amount > 0 && w.st.totalDeposits <= WAD
    requires var dep := w.deps[who];
             && CompoundedDeposit(w.st, dep.deposited, dep.snap).Some?
             && CompoundedDeposit(w.st, dep.deposited, dep.snap).value <= w.st.totalDeposits
    ensures var dep := w.deps[who];
            && (Apply(w, Withdraw(who, amount)).Err? <==> Realize(w, dep).Err?)
            && (Realize(w, dep).Err? <==>
                  var g := CollateralGain(w.grid, w.stride, dep.deposited, dep.snap);
                  g.Err? || dep.pending + g.value > U64_MAX)
  {
    hide CollateralGain, CompoundedDeposit;
  }

  // ----- collateral ----------------------------------------------------------------------------

  function TotalAccrued(w: Reactor, deps: seq<ReactorDeposit>): nat {
    if deps == [] then 0
    else
      var d := deps[|deps| - 1];
      TotalAccrued(w, deps[..|deps| - 1])
      + (match CollateralGain(w.grid, w.stride, d.deposited, d.snap) case Ok(g) => g case Err(_) => 0)
  }

  /** What touching every account now could at most fail to credit. */
  function TotalGainAllowance(accounts: seq<Account>, unitShares: real): real {
    if accounts == [] then 0.0
    else
      var n := |accounts| - 1;
      TotalGainAllowance(accounts[..n], unitShares) + GainAllowance(accounts[n], unitShares)
  }

  predicate AllAccruable(w: Reactor, deps: seq<ReactorDeposit>) {
    forall d <- deps :: CollateralGain(w.grid, w.stride, d.deposited, d.snap).Ok?
  }

  lemma {:induction false} AccruedNearGains(w: Reactor, deps: seq<ReactorDeposit>, accounts: seq<Account>,
                                            unitShares: real)
    requires PoolOk(w) && |accounts| == |deps|
    requires forall i :: 0 <= i < |deps| ==> Refines(w, deps[i], accounts[i])
    requires forall i :: 0 <= i < |deps| ==> Measured(w, deps[i], accounts[i], unitShares)
    ensures TotalAccrued(w, deps) as real <= SumGain(accounts)
    ensures AllAccruable(w, deps)
            ==> SumGain(accounts) <= TotalAccrued(w, deps) as real + TotalGainAllowance(accounts, unitShares)
  {
    hide CollateralGain, Refines, Measured, GainAllowance;
    if deps != [] {
      var n := |deps| - 1;
      AccruedNearGains(w, deps[..n], accounts[..n], unitShares);
      AccruedNearGain(w, deps[n], accounts[n], unitShares);
      assert deps[n] in deps;
    }
  }

  lemma AccruedNearGain(w: Reactor, d: ReactorDeposit, a: Account, unitShares: real)
    requires Refines(w, d, a) && Measured(w, d, a, unitShares)
    ensures match CollateralGain(w.grid, w.stride, d.deposited, d.snap)
            case Ok(g) => 0.0 <= a.gain - g as real <= GainAllowance(a, unitShares)
            case Err(_) => a.gain >= 0.0
  {
    hide CollateralGain, Refines, Exposure;
    AccruedWithinGain(w, d, a);
  }

  lemma AccruedWithinGain(w: Reactor, d: ReactorDeposit, a: Account)
    requires Refines(w, d, a)
    ensures match CollateralGain(w.grid, w.stride, d.deposited, d.snap)
            case Ok(g) => a.sure - 3.0 < g as real <= a.gain
            case Err(_) => a.gain >= 0.0
  {
    hide CellGain, Claim;
    if d.deposited == 0 {
      NoDepositNoGain(w, d, a);
    } else if CollateralGain(w.grid, w.stride, d.deposited, d.snap).Ok? {
      CollateralGainBounds(w.grid, w.stride, d.deposited, d.snap);
    }
  }

  lemma NoDepositNoGain(w: Reactor, d: ReactorDeposit, a: Account)
    requires Refines(w, d, a) && d.deposited == 0
    ensures a.sure <= 0.0 <= a.gain
  {
    assert Unit(0, d.snap) == 0.0;
    assert 0.0 * VisibleSum(w.grid, w.stride, d.snap) == 0.0;
  }

  /** Collateral over every run: all gains ever realized plus all gains still accrued, the carried residual
      and what touches lost in rounding exceed what was seized by at most what offsets have promised beyond
      it, exactly the ledger's drift. The drift is within the gauge's slack, which is read off the pool
      account alone, is at most `limit / 1e18` of one deposit unit's share of each offset, and stays zero as
      long as no offset that hands out collateral starts from a surplus above the carried loss residual. */
  lemma CollateralConserved(stride: nat, cells: nat, ops: seq<Op>, limit: nat)
    requires 0 < stride && 0 < cells && PoolWithin(Genesis(stride, cells), ops, limit)
    ensures var w, l := Run(Genesis(stride, cells), ops), RunLedger(Genesis(stride, cells), ops);
            var g := RunGauge(Genesis(stride, cells), ops);
            && (l.credited + TotalAccrued(w, w.deps)) as real + Fraction(w.st.lastCollError) + l.lost
               <= l.seized as real + l.drift
            && l.lost >= 0.0 && l.drift <= g.slack
            && (l.drift <= 0.0 ==> l.credited + TotalAccrued(w, w.deps) <= l.seized)
            && 0.0 <= g.slack <= Fraction(limit) * g.unitShares
            && (g.slack == 0.0 ==> l.credited + TotalAccrued(w, w.deps) <= l.seized)
  {
    hide Refines, Measured, Run, RunLedger, RunGauge, Fraction, PoolOk, TotalAccrued;
    var w, l := Run(Genesis(stride, cells), ops), RunLedger(Genesis(stride, cells), ops);
    RunKeepsInv(stride, cells, ops, limit);
    GaugeIsPools(Genesis(stride, cells), ops);
    AccruedNearGains(w, w.deps, l.accounts, l.gauge.unitShares);
    FractionNonNegative(w.st.lastCollError);
  }

  /** The matching bound from below, over every run: what was seized and not credited is the carried
      residual, the dip left by balances below deposits, and the rounding of touches. */
  lemma CollateralReachesDepositors(stride: nat, cells: nat, ops: seq<Op>, limit: nat)
    requires 0 < stride && 0 < cells && PoolWithin(Genesis(stride, cells), ops, limit)
    requires AllAccruable(Run(Genesis(stride, cells), ops), Run(Genesis(stride, cells), ops).deps)
    ensures var w, l := Run(Genesis(stride, cells), ops), RunLedger(Genesis(stride, cells), ops);
            l.seized as real
            <= (l.credited + TotalAccrued(w, w.deps)) as real
               + Fraction(w.st.lastCollError) + l.dip
               + l.lostAllowance + TotalGainAllowance(l.accounts, l.gauge.unitShares)
  {
    hide Refines, Measured, Run, RunLedger, Fraction, PoolOk, TotalAccrued, AllAccruable;
    var w, l := Run(Genesis(stride, cells), ops), RunLedger(Genesis(stride, cells), ops);
    RunKeepsInv(stride, cells, ops, limit);
    AccruedNearGains(w, w.deps, l.accounts, l.gauge.unitShares);
  }

  /** By how much an offset would promise more collateral than it takes in, residuals counted. */
  ghost function OverPromise(st: PoolState, accounts: seq<Account>, debt: nat, coll: nat): real
    requires 0 < st.totalDeposits && debt <= st.totalDeposits && ComputePerUnit(st, debt, coll).Ok?
  {
    var u := ComputePerUnit(st, debt, coll).value;
    SumGain(OffsetAll(accounts, u)) - SumGain(accounts)
    - (coll as real + Fraction(st.lastCollError) - Fraction(u.collError))
  }

  /** When the next offset promises more than it takes in, after any run: exactly by the surplus less the
      carried loss residual and what touches have forgone, per unit. So it does only if the surplus is
      above the residual, both read off the pool account; and if touches can have forgone nothing, as
      when deposits came before the first offset of the epoch, it does exactly then. */
  lemma OverPromiseCondition(stride: nat, cells: nat, ops: seq<Op>, limit: nat, debt: nat, coll: nat)
    requires 0 < stride && 0 < cells && PoolWithin(Genesis(stride, cells), ops, limit)
    requires var st := Run(Genesis(stride, cells), ops).st;
             && 0 < st.totalDeposits && debt <= st.totalDeposits
             && ComputePerUnit(st, debt, coll).Ok? && ComputePerUnit(st, debt, coll).value.gain > 0
    ensures var w, l := Run(Genesis(stride, cells), ops), RunLedger(Genesis(stride, cells), ops);
            var surplus, residual := RunGauge(Genesis(stride, cells), ops).surplus, Fraction(w.st.lastLossError);
            var over := OverPromise(w.st, l.accounts, debt, coll);
            && over == Earned(surplus - residual - l.forgone, ComputePerUnit(w.st, debt, coll).value)
            && 0.0 <= l.forgone <= l.allowance
            && (over > 0.0 ==> surplus > residual)
            && (l.allowance == 0.0 ==> (over > 0.0 <==> surplus > residual))
  {
    hide Run, RunLedger, RunGauge, ComputePerUnit, Refines, Measured, OffsetAll, SumGain, SumBalance, Fraction;
    var w, l := Run(Genesis(stride, cells), ops), RunLedger(Genesis(stride, cells), ops);
    RunKeepsInv(stride, cells, ops, limit);
    GaugeIsPools(Genesis(stride, cells), ops);
    OverPromiseIs(w.st, l.accounts, debt, coll);
    var g := Fraction(ComputePerUnit(w.st, debt, coll).value.gain);
    assert g > 0.0 by {
      FractionPositive(ComputePerUnit(w.st, debt, coll).value.gain);
    }
    SignOfProduct(l.gauge.surplus - Fraction(w.st.lastLossError) - l.forgone, g);
  }

  lemma OverPromiseIs(st: PoolState, accounts: seq<Account>, debt: nat, coll: nat)
    requires 0 < st.totalDeposits && debt <= st.totalDeposits && ComputePerUnit(st, debt, coll).Ok?
    ensures OverPromise(st, accounts, debt, coll)
         == Earned(SumBalance(accounts) - st.totalDeposits as real, ComputePerUnit(st, debt, coll).value)
  {
    hide ComputePerUnit, OffsetAll, SumGain, SumBalance, Exact, Fraction, Earned;
    var u := ComputePerUnit(st, debt, coll).value;
    PerUnitExact(st, debt, coll);
    ExactOverReals(st, debt, coll, u);
    SumsOfOffset(accounts, u);
    OffsetConserves(st, SumBalance(accounts), debt, coll, u);
  }

  lemma FractionPositive(n: nat)
    requires n > 0
    ensures Fraction(n) > 0.0
  {
  }

  lemma SignOfProduct(x: real, g: real)
    requires g > 0.0
    ensures x * g > 0.0 <==> x > 0.0
  {
    Cancel(x, 0.0, g);
    assert g * 0.0 == 0.0 && g * x == x * g;
    if x > 0.0 { assert g * x > 0.0; }
  }

  // ----- the pool never strands a depositor ----------------------------------------------------

  /** Each touch after any run pays the naive balance and credits the naive gain, short of them by
      rounding only: at most two units plus a billionth of the recorded deposit plus a billionth of
      the balance per offset since the last touch, and at most three units of the sure gain. */
  lemma TouchesAreFair(stride: nat, cells: nat, ops: seq<Op>, limit: nat, who: nat)
    requires 0 < stride && 0 < cells && PoolWithin(Genesis(stride, cells), ops, limit)
    requires who < |Run(Genesis(stride, cells), ops).deps|
    requires Realize(Run(Genesis(stride, cells), ops), Run(Genesis(stride, cells), ops).deps[who]).Ok?
    ensures var w, l := Run(Genesis(stride, cells), ops), RunLedger(Genesis(stride, cells), ops);
            var z, a := Realize(w, w.deps[who]).value, l.accounts[who];
            && a.balance * Discount(a.offsets) - a.principal as real * EPS - 2.0 < z.compounded as real <= a.balance
            && a.sure - 3.0 < z.gain as real <= a.gain
  {
    hide Run, RunLedger, Refines, Realize, Discount;
    RunKeepsInv(stride, cells, ops, limit);
    var w, l := Run(Genesis(stride, cells), ops), RunLedger(Genesis(stride, cells), ops);
    RealizeBounds(w, w.deps[who], l.accounts[who]);
  }

  /** A pool below 1e18: the loss numerator never underflows, and only a full drain rolls the
      epoch. */
  lemma BelowLimit(w: Reactor, l: Ledger, limit: nat, debt: nat, coll: nat)
    requires Inv(w, l, limit) && w.st.totalDeposits <= limit < WAD
    requires 0 < debt <= w.st.totalDeposits
    ensures debt * WAD >= w.st.lastLossError
    ensures ComputePerUnit(w.st, debt, coll).Ok? && debt < w.st.totalDeposits
            ==> ComputePerUnit(w.st, debt, coll).value.factor > 0
  {
    hide Refines, PoolOk, ComputePerUnit;
    assert debt * WAD >= WAD;
    if ComputePerUnit(w.st, debt, coll).Ok? && debt < w.st.totalDeposits {
      PerUnitExact(w.st, debt, coll);
      var u := ComputePerUnit(w.st, debt, coll).value;
      MulMonoNat(1, w.st.totalDeposits - debt, WAD);
      assert u.factor * w.st.totalDeposits > 0;
    }
  }

  /** Provide then withdraw with nothing in between gives back exactly what was put in on top of
      what was there. */
  lemma ProvideWithdrawRoundTrip(w: Reactor, l: Ledger, limit: nat, who: nat, amount: nat)
    requires Inv(w, l, limit) && Apply(w, Provide(who, amount)).Ok?
    ensures var w1 := Next(w, Provide(who, amount));
            var z := Realize(w, w.deps[who]).value;
            CompoundedDeposit(w1.st, w1.deps[who].deposited, w1.deps[who].snap) == Some(z.compounded + amount)
  {
    hide Refines, Realize;
    var w1 := Next(w, Provide(who, amount));
    var d := w1.deps[who].deposited;
    assert w1.deps[who].snap.p == w1.st.p;
    ExactQuotient(d, w1.st.p);
  }

  // ----- the grid ------------------------------------------------------------------------------

  ghost function Cursor(w: Reactor): nat {
    w.st.epoch * w.stride + w.st.scale
  }

  /** What never changes again once the current cell has moved past it. */
  ghost predicate Extends(w: Reactor, w': Reactor) {
    && w'.stride == w.stride && |w'.grid| == |w.grid|
    && Cursor(w) <= Cursor(w')
    && (forall i :: 0 <= i < Cursor(w) && i < |w.grid| ==> w'.grid[i] == w.grid[i])
    && (w.st.epoch < w'.st.epoch || (w.st.epoch == w'.st.epoch && w.st.scale <= w'.st.scale))
  }

  lemma NextExtends(w: Reactor, op: Op)
    requires PoolOk(w)
    ensures PoolOk(Next(w, op)) && Extends(w, Next(w, op))
  {
    if op.Absorb? && op.debt > 0 && Apply(w, op).Ok? {
      var w' := Next(w, op);
      var u, bumps := OffsetShape(w, op.debt, op.coll);
      OffsetKeepsPool(w, w', op.debt, u, bumps);
    } else {
      hide Realize;
    }
  }

  /** Over every run from any reachable state: the product stays in [1e9, 1e18], every cell after
      the current one is zero, every earlier cell keeps its value forever, and (epoch, scale) only
      moves forward. So a depositor's unrealized gain is never overwritten. */
  lemma {:induction false} GridIsWriteOnce(w: Reactor, ops: seq<Op>)
    requires PoolOk(w)
    ensures PoolOk(Run(w, ops)) && Extends(w, Run(w, ops))
  {
    hide PoolOk, Next;
    if ops != [] {
      var before := ops[..|ops| - 1];
      GridIsWriteOnce(w, before);
      NextExtends(Run(w, before), ops[|ops| - 1]);
    }
  }

  // ----- where the guarantees end --------------------------------------------------------------

  lemma RunSnoc(w: Reactor, ops: seq<Op>, op: Op)
    requires w.deps == []
    ensures Run(w, ops + [op]) == Next(Run(w, ops), op)
    ensures RunLedger(w, ops + [op]) == LedgerNext(Run(w, ops), RunLedger(w, ops), op)
  {
    assert (ops + [op])[..|ops|] == ops;
  }

  /** One liquidation on the concrete numbers of an example. */
  lemma OffsetExample(w: Reactor, debt: nat, coll: nat, u: PerUnit, newP: nat, bumps: nat)
    requires 0 < debt < w.st.totalDeposits && coll == 0 && w.st.lastCollError == 0
    requires ComputePerUnit(w.st, debt, coll) == Ok(u) && u.gain == 0 && u.collError == 0
    requires UpdateProduct(w.st.p, u.factor) == Ok((newP, bumps)) && u.factor > 0
    requires w.stride == 16 && |w.grid| == 512 && w.st.epoch <= 1 && w.st.scale + bumps < 16
    requires w.grid[16 * w.st.epoch + w.st.scale] == 0
    ensures Next(w, Absorb(debt, coll))
            == w.(st := PoolState(newP, w.st.epoch, w.st.scale + bumps, w.st.totalDeposits - debt, 0, u.lossError))
  {
    var i := 16 * w.st.epoch + w.st.scale;
    assert u.gain * w.st.p == 0;
    assert SIdx(w.st.epoch, w.st.scale, 16, 512) == Some(i);
    assert w.grid[i := w.grid[i]] == w.grid;
  }

  /** The program's own grid dimensions. */
  const GENESIS: Reactor := Genesis(16, 512)

  function Whale(deposit: nat): ReactorDeposit {
    ReactorDeposit(deposit, Snapshot(WAD, 0, 0, 0), 0)
  }

  lemma ProvideExample(w: Reactor, amount: nat, compounded: nat)
    requires |w.deps| == 1 && w.deps[0].pending == 0 && Realize(w, w.deps[0]) == Ok(Realized(compounded, 0))
    requires 0 < amount && compounded + amount <= U64_MAX && w.st.totalDeposits + amount <= U128_MAX
    requires w.grid == seq(512, _ => 0)
    ensures Next(w, Provide(0, amount))
            == w.(st := w.st.(totalDeposits := w.st.totalDeposits + amount),
                  deps := [ReactorDeposit(compounded + amount, Snapshot(w.st.p, 0, w.st.scale, w.st.epoch), 0)])
  {
    hide Realize;
    var dep := ReactorDeposit(compounded + amount, Snapshot(w.st.p, 0, w.st.scale, w.st.epoch), 0);
    assert w.deps[0 := dep] == [dep];
  }

  lemma WhaleEnters(deposit: nat)
    requires 0 < deposit <= U64_MAX
    ensures Run(GENESIS, [Open, Provide(0, deposit)])
            == Reactor(PoolState(WAD, 0, 0, deposit, 0, 0), seq(512, _ => 0), 16, [Whale(deposit)])
    ensures RunLedger(GENESIS, [Open, Provide(0, deposit)]).seized == 0
    ensures RunLedger(GENESIS, [Open, Provide(0, deposit)]).credited == 0
  {
    hide Run, RunLedger, Next, Realize;
    RunSnoc(GENESIS, [], Open);
    RunSnoc(GENESIS, [Open], Provide(0, deposit));
    assert [] + [Open] == [Open] && [Open] + [Provide(0, deposit)] == [Open, Provide(0, deposit)];
    WhaleOpens();
    var w := GENESIS.(deps := [Whale(0)]);
    assert Realize(w, w.deps[0]) == Ok(Realized(0, 0)) by {
      EmptyRealizes(w);
    }
    ProvideExample(w, deposit, 0);
  }

  lemma WhaleOpens()
    ensures Run(GENESIS, []) == GENESIS && RunLedger(GENESIS, []) == EMPTY_LEDGER
    ensures Next(GENESIS, Open) == GENESIS.(deps := [Whale(0)])
    ensures LedgerNext(GENESIS, EMPTY_LEDGER, Open) == EMPTY_LEDGER.(accounts := [Account(0, 0.0, 0.0, 0.0, 0)])
  {
  }

  lemma EmptyRealizes(w: Reactor)
    requires w.deps == [Whale(0)]
    ensures Realize(w, w.deps[0]) == Ok(Realized(0, 0))
  {
  }

  /** A billionth and one unit above 1e18. */
  const JUST_ABOVE: nat := 1_000_000_001_000_000_001

  const ROLLED_RUN: seq<Op> :=
    [Open, Provide(0, JUST_ABOVE), Absorb(1, 0), Provide(0, 1), Absorb(JUST_ABOVE - 1, 0), Provide(0, WAD)]

  /** Solvency ends just above 1e18. A partial offset that leaves nothing of a deposit rolls the epoch and
      carries a residual of the whole pool into it. A depositor who enters then is owed, after one more
      offset, one unit more than the pool holds, and is refused. */
  lemma InsolventJustAbove()
    ensures var w := Run(GENESIS, ROLLED_RUN + [Absorb(999_999_999_000_000_002, 0)]);
            && TotalCompounded(w.st, w.deps) == w.st.totalDeposits + 1
            && Apply(w, Withdraw(0, U64_MAX)) == Err(MathOverflow)
  {
    hide Run, RunLedger, TotalCompounded, CompoundedDeposit, CollateralGain, Realize, ComputePerUnit, UpdateProduct;
    RolledPool();
    RunSnoc(GENESIS, ROLLED_RUN, Absorb(999_999_999_000_000_002, 0));
    var w := Run(GENESIS, ROLLED_RUN);
    LastBite(w);
    OffsetExample(w, 999_999_999_000_000_002, 0, PerUnit(0, 0, 1_000_000_000, 1), 1_000_000_000, 0);
    InsolventNumbers(Run(GENESIS, ROLLED_RUN + [Absorb(999_999_999_000_000_002, 0)]));
  }

  /** The pool in its second epoch: one unit nobody owns, and a residual above one unit. */
  lemma RolledPool()
    ensures Run(GENESIS, ROLLED_RUN)
            == Reactor(PoolState(WAD, 1, 0, WAD + 1, 0, JUST_ABOVE), seq(512, _ => 0), 16,
                       [ReactorDeposit(WAD, Snapshot(WAD, 0, 0, 1), 0)])
  {
    hide Run, RunLedger, CompoundedDeposit, CollateralGain, Realize, ComputePerUnit, UpdateProduct, Next;
    var ops := [Open, Provide(0, JUST_ABOVE)];
    var ops3 := ops + [Absorb(1, 0)];
    var ops4 := ops3 + [Provide(0, 1)];
    var ops5 := ops4 + [Absorb(JUST_ABOVE - 1, 0)];
    WhaleEnters(JUST_ABOVE);
    RunSnoc(GENESIS, ops, Absorb(1, 0));
    RunSnoc(GENESIS, ops3, Provide(0, 1));
    RunSnoc(GENESIS, ops4, Absorb(JUST_ABOVE - 1, 0));
    RunSnoc(GENESIS, ops5, Provide(0, WAD));
    assert ops5 + [Provide(0, WAD)] == ROLLED_RUN;
    FirstBite(Run(GENESIS, ops));
    OffsetExample(Run(GENESIS, ops), 1, 0, PerUnit(0, 0, WAD - 1, 1_000_000_001), WAD - 1, 0);
    SmallRefill(Run(GENESIS, ops3));
    RollEpoch(Run(GENESIS, ops4));
    LargeRefill(Run(GENESIS, ops5));
  }

  lemma FirstBite(w: Reactor)
    requires w.st == PoolState(WAD, 0, 0, JUST_ABOVE, 0, 0)
    ensures ComputePerUnit(w.st, 1, 0) == Ok(PerUnit(0, 0, WAD - 1, 1_000_000_001))
    ensures UpdateProduct(w.st.p, WAD - 1) == Ok((WAD - 1, 0))
  {
  }

  lemma SmallRefill(w: Reactor)
    requires w == Reactor(PoolState(WAD - 1, 0, 0, JUST_ABOVE - 1, 0, 1_000_000_001), seq(512, _ => 0), 16,
                          [Whale(JUST_ABOVE)])
    ensures Next(w, Provide(0, 1))
            == w.(st := w.st.(totalDeposits := JUST_ABOVE),
                  deps := [ReactorDeposit(JUST_ABOVE - 1, Snapshot(WAD - 1, 0, 0, 0), 0)])
  {
    assert CompoundedDeposit(w.st, JUST_ABOVE, w.deps[0].snap) == Some(JUST_ABOVE - 2);
    assert CollateralGain(w.grid, w.stride, JUST_ABOVE, w.deps[0].snap) == Ok(0);
    ProvideExample(w, 1, JUST_ABOVE - 2);
  }

  /** A partial offset with nothing left per unit: the epoch rolls, one unit of deposits stays. */
  lemma RollEpoch(w: Reactor)
    requires w.st == PoolState(WAD - 1, 0, 0, JUST_ABOVE, 0, 1_000_000_001)
    requires w.grid == seq(512, _ => 0) && w.stride == 16
    ensures Next(w, Absorb(JUST_ABOVE - 1, 0)) == w.(st := PoolState(WAD, 1, 0, 1, 0, JUST_ABOVE))
  {
    assert ComputePerUnit(w.st, JUST_ABOVE - 1, 0) == Ok(PerUnit(0, 0, 0, JUST_ABOVE));
    assert SIdx(0, 0, 16, 512) == Some(0) && SIdx(1, 0, 16, 512) == Some(16);
    assert w.grid[0 := w.grid[0]] == w.grid;
  }

  lemma LargeRefill(w: Reactor)
    requires w == Reactor(PoolState(WAD, 1, 0, 1, 0, JUST_ABOVE), seq(512, _ => 0), 16,
                          [ReactorDeposit(JUST_ABOVE - 1, Snapshot(WAD - 1, 0, 0, 0), 0)])
    ensures Next(w, Provide(0, WAD))
            == w.(st := w.st.(totalDeposits := WAD + 1), deps := [ReactorDeposit(WAD, Snapshot(WAD, 0, 0, 1), 0)])
  {
    assert CompoundedDeposit(w.st, JUST_ABOVE - 1, w.deps[0].snap) == Some(0);
    assert CollateralGain(w.grid, w.stride, JUST_ABOVE - 1, w.deps[0].snap) == Ok(0);
    ProvideExample(w, WAD, 0);
  }

  lemma LastBite(w: Reactor)
    requires w.st == PoolState(WAD, 1, 0, WAD + 1, 0, JUST_ABOVE)
    ensures ComputePerUnit(w.st, 999_999_999_000_000_002, 0) == Ok(PerUnit(0, 0, 1_000_000_000, 1))
    ensures UpdateProduct(w.st.p, 1_000_000_000) == Ok((1_000_000_000, 0))
  {
  }

  lemma InsolventNumbers(w: Reactor)
    requires w.st == PoolState(1_000_000_000, 1, 0, 999_999_999, 0, 1)
    requires w.deps == [ReactorDeposit(WAD, Snapshot(WAD, 0, 0, 1), 0)] && w.grid == seq(512, _ => 0)
    requires w.stride == 16
    ensures TotalCompounded(w.st, w.deps) == w.st.totalDeposits + 1
    ensures Apply(w, Withdraw(0, U64_MAX)) == Err(MathOverflow)
  {
    var dep := w.deps[0];
    assert CompoundedDeposit(w.st, dep.deposited, dep.snap) == Some(1_000_000_000);
    assert w.deps[..0] == [];
    assert CollateralGain(w.grid, w.stride, dep.deposited, dep.snap) == Ok(0);
  }

  const WHALE: nat := 900_000_000_000_000_000

  function DrainedRun(coll: nat): seq<Op> {
    [Open, Provide(0, WHALE), Absorb(1, 0), Absorb(WHALE - 2, 0), Absorb(1, coll), ClaimGains(0)]
  }

  /** Collateral conservation needs the slack: a pool of 9e17 drained to one unit leaves its only
      depositor a claim of 1.8 units, so an offset of that last unit for 1000 units of collateral credits
      1799. That the surplus is above the residual does not by itself mean that more is credited than was
      seized: the same offset for one unit of collateral promises 1.8 and credits one. */
  lemma OverpaidCollateral()
    ensures RunLedger(GENESIS, DrainedRun(1000)).seized == 1000 && RunLedger(GENESIS, DrainedRun(1000)).credited == 1799
    ensures RunLedger(GENESIS, DrainedRun(1)).seized == 1 && RunLedger(GENESIS, DrainedRun(1)).credited == 1
    ensures var ops := DrainedRun(1)[..4];
            RunGauge(GENESIS, ops).surplus > Fraction(Run(GENESIS, ops).st.lastLossError)
  {
    DrainCredits(1000, 1799);
    DrainCredits(1, 1);
    assert DrainedRun(1)[..4] == [Open, Provide(0, WHALE), Absorb(1, 0), Absorb(WHALE - 2, 0)];
    DrainSurplus();
  }

  lemma GaugeSnoc(w: Reactor, ops: seq<Op>, op: Op)
    ensures RunGauge(w, ops + [op])
         == if op.Absorb? && op.debt > 0 && Apply(Run(w, ops), op).Ok?
            then GaugeAfter(RunGauge(w, ops), Run(w, ops).st, op.debt,
                            ComputePerUnit(Run(w, ops).st, op.debt, op.coll).value)
            else RunGauge(w, ops)
  {
    hide GaugeAfter, ComputePerUnit, Apply;
    assert (ops + [op])[..|ops|] == ops;
  }

  /** Before its last offset the drained pool's surplus is 0.8 units and its residual next to nothing. */
  lemma DrainSurplus()
    ensures var ops := [Open, Provide(0, WHALE), Absorb(1, 0), Absorb(WHALE - 2, 0)];
            RunGauge(GENESIS, ops).surplus > Fraction(Run(GENESIS, ops).st.lastLossError)
  {
    hide Run, RunGauge, GaugeAfter, ComputePerUnit, UpdateProduct, Realize, Apply;
    var ops := [Open, Provide(0, WHALE)];
    var ops3 := ops + [Absorb(1, 0)];
    WhaleEnters(WHALE);
    EntryGauge();
    RunSnoc(GENESIS, ops, Absorb(1, 0));
    RunSnoc(GENESIS, ops3, Absorb(WHALE - 2, 0));
    GaugeSnoc(GENESIS, ops, Absorb(1, 0));
    GaugeSnoc(GENESIS, ops3, Absorb(WHALE - 2, 0));
    assert ops3 + [Absorb(WHALE - 2, 0)] == [Open, Provide(0, WHALE), Absorb(1, 0), Absorb(WHALE - 2, 0)];
    FirstUnit(Run(GENESIS, ops));
    OffsetExample(Run(GENESIS, ops), 1, 0, PerUnit(0, 0, WAD - 2, 800_000_000_000_000_000), WAD - 2, 0);
    LastUnit(Run(GENESIS, ops3));
    OffsetExample(Run(GENESIS, ops3), WHALE - 2, 0, PerUnit(0, 0, 2, 2), 1_999_999_999, 1);
    FirstGauge(RunGauge(GENESIS, ops), Run(GENESIS, ops).st, PerUnit(0, 0, WAD - 2, 800_000_000_000_000_000));
    SecondGauge(RunGauge(GENESIS, ops3), Run(GENESIS, ops3).st, WHALE - 2);
  }

  lemma EntryGauge()
    ensures RunGauge(GENESIS, [Open, Provide(0, WHALE)]).surplus == 0.0
  {
    hide GaugeAfter, ComputePerUnit, Apply;
    assert [Open, Provide(0, WHALE)][..1] == [Open] && [Open][..0] == [];
  }

  /** An offset from no surplus and no residual leaves none; one from a residual of 0.8 that keeps almost
      nothing leaves 0.8. */
  lemma FirstGauge(g: Gauge, st: PoolState, u: PerUnit)
    requires g.surplus == 0.0 && st.lastLossError == 0
    ensures GaugeAfter(g, st, 1, u).surplus == 0.0
  {
    hide Fraction;
    FractionZero();
    assert 0.0 * Fraction(u.factor) == 0.0;
  }

  lemma SecondGauge(g: Gauge, st: PoolState, debt: nat)
    requires g.surplus == 0.0 && st.lastLossError == 800_000_000_000_000_000 && debt < st.totalDeposits
    ensures GaugeAfter(g, st, debt, PerUnit(0, 0, 2, 2)).surplus > Fraction(2)
  {
    assert Kept(0.0, PerUnit(0, 0, 2, 2)) == 0.0;
    assert Fraction(800_000_000_000_000_000) == 0.8;
  }

  lemma DrainCredits(coll: nat, credited: nat)
    requires (coll == 1000 && credited == 1799) || (coll == 1 && credited == 1)
    ensures RunLedger(GENESIS, DrainedRun(coll)).seized == coll
    ensures RunLedger(GENESIS, DrainedRun(coll)).credited == credited
  {
    hide Run, RunLedger, CompoundedDeposit, CollateralGain, ComputePerUnit, UpdateProduct, Realize, OffsetAll;
    hide GaugeAfter;
    var ops := [Open, Provide(0, WHALE)];
    var ops3 := ops + [Absorb(1, 0)];
    var ops4 := ops3 + [Absorb(WHALE - 2, 0)];
    var ops5 := ops4 + [Absorb(1, coll)];
    WhaleEnters(WHALE);
    RunSnoc(GENESIS, ops, Absorb(1, 0));
    RunSnoc(GENESIS, ops3, Absorb(WHALE - 2, 0));
    RunSnoc(GENESIS, ops4, Absorb(1, coll));
    RunSnoc(GENESIS, ops5, ClaimGains(0));
    assert ops5 + [ClaimGains(0)] == DrainedRun(coll);
    FirstUnit(Run(GENESIS, ops));
    OffsetExample(Run(GENESIS, ops), 1, 0, PerUnit(0, 0, WAD - 2, 800_000_000_000_000_000), WAD - 2, 0);
    LastUnit(Run(GENESIS, ops3));
    OffsetExample(Run(GENESIS, ops3), WHALE - 2, 0, PerUnit(0, 0, 2, 2), 1_999_999_999, 1);
    FinalDrain(Run(GENESIS, ops4), coll);
    OverpaidNumbers(Run(GENESIS, ops5), coll, credited);
  }

  lemma FirstUnit(w: Reactor)
    requires w.st == PoolState(WAD, 0, 0, WHALE, 0, 0)
    ensures ComputePerUnit(w.st, 1, 0) == Ok(PerUnit(0, 0, WAD - 2, 800_000_000_000_000_000))
    ensures UpdateProduct(w.st.p, WAD - 2) == Ok((WAD - 2, 0))
  {
  }

  lemma LastUnit(w: Reactor)
    requires w.st == PoolState(WAD - 2, 0, 0, WHALE - 1, 0, 800_000_000_000_000_000)
    ensures ComputePerUnit(w.st, WHALE - 2, 0) == Ok(PerUnit(0, 0, 2, 2))
    ensures UpdateProduct(w.st.p, 2) == Ok((1_999_999_999, 1))
  {
    assert UpdateProduct(w.st.p, 2) == Rescale((WAD - 2) * 2 * SCALE_FACTOR, 1);
  }

  function DrainCell(coll: nat): nat {
    coll * 1_999_999_999_000_000_000_000_000_000
  }

  lemma FinalDrain(w: Reactor, coll: nat)
    requires w == Reactor(PoolState(1_999_999_999, 0, 1, 1, 0, 2), seq(512, _ => 0), 16, [Whale(WHALE)])
    requires coll == 1 || coll == 1000
    ensures Apply(w, Absorb(1, coll)).Ok?
    ensures Next(w, Absorb(1, coll))
            == Reactor(PoolState(WAD, 1, 0, 0, 0, 0), w.grid[1 := DrainCell(coll)], 16, [Whale(WHALE)])
  {
    assert ComputePerUnit(w.st, 1, coll) == Ok(PerUnit(coll * WAD, 0, 0, 0));
    assert SIdx(0, 1, 16, 512) == Some(1) && SIdx(1, 0, 16, 512) == Some(16);
  }

  lemma OverpaidNumbers(w: Reactor, coll: nat, credited: nat)
    requires (coll == 1000 && credited == 1799) || (coll == 1 && credited == 1)
    requires w.st.epoch == 1 && w.deps == [Whale(WHALE)] && w.stride == 16
    requires w.grid == seq(512, _ => 0)[1 := DrainCell(coll)]
    ensures Realize(w, w.deps[0]) == Ok(Realized(0, credited))
  {
    var dep := w.deps[0];
    assert SIdx(0, 0, 16, 512) == Some(0) && SIdx(0, 1, 16, 512) == Some(1);
    assert MulDivFloor(WHALE, coll * 1_999_999_999_000_000_000, WAD) == Some(coll * 1_799_999_999_100_000_000);
    assert CollateralGain(w.grid, 16, WHALE, dep.snap) == Ok(credited);
  }
}
