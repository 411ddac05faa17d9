/** When an operation on the Reactor Pool goes through, after any run: the conditions in plain arithmetic on
    the pool account. */
module ReactorLiveness {
  import opened Arith
  import opened FixedPoint
  import opened ReactorMath
  import opened ReactorClaims
  import opened ReactorLedger
  import opened ReactorSolvency
  import opened ReactorRuns

  // ----- liquidations ----------------------------------------------------------------------------

  /** The current cell would pass 128 bits. */
  predicate CellPasses(w: Reactor, coll: nat)
    requires w.st.totalDeposits > 0
  {
    var i := w.st.epoch * w.stride + w.st.scale;
    i < |w.grid| && w.grid[i] + (coll * WAD + w.st.lastCollError) / w.st.totalDeposits * w.st.p > U128_MAX
  }

  /** What an offset leaves of a unit deposited, at 18 decimals: the loss is rounded up, beyond a whole unit. */
  function LeftOfUnit(st: PoolState, debt: nat): int
    requires st.totalDeposits > 0
  {
    if debt == st.totalDeposits then 0
    else WAD - 1 - (debt * WAD - st.lastLossError) / st.totalDeposits
  }

  /** How often a product must be multiplied by 1e9 to be back at 1e9 or above, at 36 decimals. */
  function Rescales(product: int): nat {
    if product >= 1_000_000_000_000_000_000_000_000_000 then 0
    else if product >= 1_000_000_000_000_000_000 then 1
    else 2
  }

  /** The cell the pool would move on to is not on the grid. */
  predicate NextCellOff(w: Reactor, debt: nat)
    requires w.st.totalDeposits > 0
  {
    var left := LeftOfUnit(w.st, debt);
    if left == 0 then w.st.epoch + 1 > U64_MAX || (w.st.epoch + 1) * w.stride >= |w.grid|
    else
      var scale := w.st.scale + Rescales(w.st.p * left);
      scale > w.st.scale && (scale > U64_MAX || scale >= w.stride || w.st.epoch * w.stride + scale >= |w.grid|)
  }

  lemma RescalesAre(num: nat)
    requires SCALE_FACTOR <= num <= WAD * WAD
    ensures Rescale(num, 0).Ok? && Rescale(num, 0).value.1 == Rescales(num)
  {
    RescaleDomain(num);
    assert PowSF(0) == 1 && PowSF(1) == SCALE_FACTOR;
    assert num * PowSF(0) / WAD == num / WAD && num * PowSF(1) / WAD == num * SCALE_FACTOR / WAD;
  }

  /** The amounts of an offset on a pool of at most 1e18 are always computed, and are these. */
  lemma PerUnitComputed(st: PoolState, debt: nat, coll: nat)
    requires 0 < debt <= st.totalDeposits <= WAD && coll <= U64_MAX
    requires st.lastCollError <= WAD && st.lastLossError <= WAD
    ensures ComputePerUnit(st, debt, coll).Ok?
    ensures var u := ComputePerUnit(st, debt, coll).value;
            && u.gain == (coll * WAD + st.lastCollError) / st.totalDeposits
            && u.factor == LeftOfUnit(st, debt)
  {
    if debt < st.totalDeposits {
      LossFits(st.totalDeposits, st.lastLossError, debt);
    }
  }

  lemma LossFits(total: nat, error: nat, debt: nat)
    requires 0 < debt < total <= WAD && error <= WAD
    ensures ComputeLoss(total, error, debt).Ok?
    ensures ComputeLoss(total, error, debt).value.0 == WAD - 1 - (debt * WAD - error) / total
  {
    MulMonoNat(debt, WAD, WAD);
    MulMonoNat(1, debt, WAD);
    LossPerUnitBounds(debt * WAD - error, debt, total);
    MulBoundNat((debt * WAD - error) / total + 1, total, WAD, WAD);
  }

  lemma CellIs(w: Reactor)
    requires PoolOk(w)
    ensures var i := w.st.epoch * w.stride + w.st.scale;
            i < |w.grid| && SIdx(w.st.epoch, w.st.scale, w.stride, |w.grid|) == Some(i)
    ensures w.stride > 0
  {
  }

  /** One offset of a sound pool of at most 1e18. */
  lemma OffsetOutcome(w: Reactor, debt: nat, coll: nat)
    requires PoolOk(w) && 0 < debt <= w.st.totalDeposits <= WAD && coll <= U64_MAX
    requires w.st.lastCollError <= WAD && w.st.lastLossError <= WAD
    ensures CellPasses(w, coll) ==> Offset(w.st, w.grid, w.stride, debt, coll) == Err(Math)
    ensures !CellPasses(w, coll) && NextCellOff(w, debt) ==>
              Offset(w.st, w.grid, w.stride, debt, coll) in {Err(EpochOverflow), Err(ScaleOverflow)}
    ensures !CellPasses(w, coll) && !NextCellOff(w, debt) ==> Offset(w.st, w.grid, w.stride, debt, coll).Ok?
  {
    hide ComputePerUnit, UpdateProduct, LeftOfUnit, Rescales, PoolOk;
    PerUnitComputed(w.st, debt, coll);
    CellIs(w);
    var left := LeftOfUnit(w.st, debt);
    if left > 0 {
      ProductRescales(w, left);
    }
  }

  lemma ProductRescales(w: Reactor, left: nat)
    requires PoolOk(w) && 0 < left <= WAD
    ensures UpdateProduct(w.st.p, left).Ok? && UpdateProduct(w.st.p, left).value.1 == Rescales(w.st.p * left)
  {
    ProductBounds(w.st.p, left, SCALE_FACTOR, WAD);
    RescalesAre(w.st.p * left);
  }

  lemma {:induction false} CollErrorWithin(stride: nat, cells: nat, ops: seq<Op>, limit: nat)
    requires 0 < stride && 0 < cells && PoolWithin(Genesis(stride, cells), ops, limit)
    ensures Run(Genesis(stride, cells), ops).st.lastCollError <= limit
  {
    hide Next;
    var w := Genesis(stride, cells);
    if ops != [] {
      var before := ops[..|ops| - 1];
      assert forall k :: 0 <= k <= |before| ==> before[..k] == ops[..k];
      CollErrorWithin(stride, cells, before, limit);
      assert ops[..|before|] == before;
      CollErrorNext(Run(w, before), ops[|ops| - 1], limit);
    }
  }

  lemma CollErrorNext(w: Reactor, op: Op, limit: nat)
    requires w.st.lastCollError <= limit && w.st.totalDeposits <= limit
    ensures Next(w, op).st.lastCollError <= limit
  {
    hide Realize, UpdateProduct, TakeSnapshot, ComputePerUnit;
    if op.Absorb? && op.debt > 0 && Apply(w, op).Ok? {
      PerUnitExact(w.st, op.debt, op.coll);
    }
  }

  /** After every run of a pool that never held more than 1e18, a liquidation goes through unless the current
      cell would pass 128 bits or the pool would run off its grid, and then fails with the error that says
      so. More debt than the pool holds is refused, and no debt at all changes nothing. */
  lemma AbsorbOutcome(stride: nat, cells: nat, ops: seq<Op>, limit: nat, debt: nat, coll: nat)
    requires 0 < stride && 0 < cells && limit <= WAD && PoolWithin(Genesis(stride, cells), ops, limit)
    requires coll <= U64_MAX
    ensures var w := Run(Genesis(stride, cells), ops);
            var r := Apply(w, Absorb(debt, coll));
            if debt == 0 then r == Ok(w)
            else if debt > w.st.totalDeposits then r == Err(ReactorPoolTooSmall)
            else if CellPasses(w, coll) then r == Err(MathOverflow)
            else if NextCellOff(w, debt) then r == Err(ReactorGridExhausted)
            else r.Ok?
  {
    hide Run, RunLedger, CellPasses, NextCellOff, PoolOk, Refines, Measured, Conserving, SlackWithin;
    var w := Run(Genesis(stride, cells), ops);
    RunKeepsInv(stride, cells, ops, limit);
    CollErrorWithin(stride, cells, ops, limit);
    assert ops[..|ops|] == ops;
    if debt == 0 {
      NothingToAbsorb(w, coll);
    } else if debt <= w.st.totalDeposits {
      OffsetOutcome(w, debt, coll);
      AbsorbIsOffset(w, debt, coll);
    } else {
      TooSmall(w, debt, coll);
    }
  }

  lemma AbsorbIsOffset(w: Reactor, debt: nat, coll: nat)
    requires debt > 0
    ensures match Offset(w.st, w.grid, w.stride, debt, coll)
            case Ok(_) => Apply(w, Absorb(debt, coll)).Ok?
            case Err(e) => Apply(w, Absorb(debt, coll))
                           == Err(match e
                                  case NoDeposits => ReactorPoolTooSmall
                                  case DebtExceedsDeposits => ReactorPoolTooSmall
                                  case Math => MathOverflow
                                  case _ => ReactorGridExhausted)
  {
    hide Offset;
  }

  lemma NothingToAbsorb(w: Reactor, coll: nat)
    ensures Apply(w, Absorb(0, coll)) == Ok(w)
  {
  }

  lemma TooSmall(w: Reactor, debt: nat, coll: nat)
    requires debt > w.st.totalDeposits
    ensures Apply(w, Absorb(debt, coll)) == Err(ReactorPoolTooSmall)
  {
    hide ComputePerUnit;
  }

  // ----- touches ---------------------------------------------------------------------------------

  /** The account's gain cannot be paid: what is in sight of its snapshot or the gain at 18 decimals passes
      128 bits, or its pending balance 64. */
  predicate GainStuck(w: Reactor, d: ReactorDeposit)
    requires d.snap.p > 0
  {
    var sum := InSight(w.grid, w.stride, d.snap);
    || (d.deposited > 0 && (sum > U128_MAX || d.deposited * sum >= (U128_MAX + 1) * d.snap.p))
    || d.pending + d.deposited * sum / (d.snap.p * WAD) > U64_MAX
  }

  lemma StuckIff(w: Reactor, d: ReactorDeposit)
    requires d.snap.p > 0 && CompoundedDeposit(w.st, d.deposited, d.snap).Some?
    ensures Realize(w, d).Err? <==> GainStuck(w, d)
  {
    hide CollateralGain, CompoundedDeposit, InSight;
    GainExact(w.grid, w.stride, d.deposited, d.snap);
    assert d.snap.p * WAD > 0;
  }

  /** After every run, touches fail only for the reasons named: a zero amount, an account nobody opened, a
      gain that cannot be paid, or a deposit or total past its width. */
  lemma TouchOutcomes(stride: nat, cells: nat, ops: seq<Op>, limit: nat, who: nat, amount: nat)
    requires 0 < stride && 0 < cells && PoolWithin(Genesis(stride, cells), ops, limit)
    ensures var w := Run(Genesis(stride, cells), ops);
            && (amount == 0 ==> Apply(w, Provide(who, amount)) == Err(ZeroAmount)
                                && Apply(w, Withdraw(who, amount)) == Err(ZeroAmount))
            && (amount > 0 && who >= |w.deps| ==> Apply(w, Provide(who, amount)) == Err(UnknownAccount)
                                                  && Apply(w, Withdraw(who, amount)) == Err(UnknownAccount))
            && (who >= |w.deps| ==> Apply(w, ClaimGains(who)) == Err(UnknownAccount))
            && Apply(w, Open).Ok?
    ensures var w := Run(Genesis(stride, cells), ops);
            who < |w.deps| ==>
              var dep := w.deps[who];
              && dep.snap.p > 0
              && CompoundedDeposit(w.st, dep.deposited, dep.snap).Some?
              && var worth := CompoundedDeposit(w.st, dep.deposited, dep.snap).value;
              && worth <= dep.deposited
              && (Apply(w, ClaimGains(who)).Err? <==> GainStuck(w, dep))
              && (amount > 0 ==>
                    (Apply(w, Provide(who, amount)).Err?
                     <==> GainStuck(w, dep) || worth + amount > U64_MAX || w.st.totalDeposits + amount > U128_MAX))
  {
    hide Run, RunLedger, Realize, GainStuck, CompoundedDeposit, Conserving, SlackWithin, Solvent, Unsure;
    var w, l := Run(Genesis(stride, cells), ops), RunLedger(Genesis(stride, cells), ops);
    RunKeepsInv(stride, cells, ops, limit);
    if who < |w.deps| {
      var dep := w.deps[who];
      SoundAccount(w, dep, l.accounts[who]);
      StuckIff(w, dep);
      CompoundedWorth(w, who);
    }
  }

  lemma SoundAccount(w: Reactor, d: ReactorDeposit, a: Account)
    requires PoolOk(w) && Refines(w, d, a) && a.balance <= a.principal as real
    ensures d.snap.p > 0 && d.deposited <= U64_MAX
    ensures CompoundedDeposit(w.st, d.deposited, d.snap).Some?
    ensures CompoundedDeposit(w.st, d.deposited, d.snap).value <= d.deposited
  {
    hide CompoundedDeposit, Claim, CellGain, Discount;
    CompoundedBounds(w.st, d.deposited, d.snap, w.stride);
  }

  lemma CompoundedWorth(w: Reactor, who: nat)
    requires who < |w.deps|
    ensures Realize(w, w.deps[who]).Ok? ==>
              CompoundedDeposit(w.st, w.deps[who].deposited, w.deps[who].snap)
              == Some(Realize(w, w.deps[who]).value.compounded)
  {
    hide CompoundedDeposit, CollateralGain;
  }
}
