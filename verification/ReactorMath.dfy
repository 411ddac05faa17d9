/** The Reactor Pool product-sum: how one liquidation is shared among all depositors in O(1).
    The pool keeps a running product `p` (rescaled by 1e9 whenever it gets small, counted in
    `scale`; reset by a full drain, counted in `epoch`) and a grid of running sums of collateral
    per unit, one cell per (epoch, scale). */
module ReactorMath {
  import opened Arith
  import opened FixedPoint

  /** 1e9: the rescale threshold and factor of the product. */
  const SCALE_FACTOR: nat := 1_000_000_000

  datatype ReactorError =
    | NoDeposits
    | DebtExceedsDeposits
    | ScaleOverflow
    | EpochOverflow
    | Math

  datatype Snapshot = Snapshot(p: nat, s: nat, scale: nat, epoch: nat)

  datatype PoolState = PoolState(
    p: nat,
    epoch: nat,
    scale: nat,
    totalDeposits: nat,
    lastCollError: nat,
    lastLossError: nat)

  const FRESH_POOL := PoolState(WAD, 0, 0, 0, 0, 0)

  /** Flat index of a cell of the sum grid. */
  function SIdx(epoch: nat, scale: nat, stride: nat, len: nat): (r: Option<nat>) {
    if scale >= stride then None
    else if epoch * stride + scale < len then Some(epoch * stride + scale)
    else None
  }

  /** A cell of the grid, zero where the grid has no such cell. */
  function CellAt(grid: seq<nat>, epoch: nat, scale: nat, stride: nat): nat {
    match SIdx(epoch, scale, stride, |grid|)
    case Some(i) => grid[i]
    case None => 0
  }

  function TakeSnapshot(st: PoolState, grid: seq<nat>, stride: nat): Snapshot {
    Snapshot(st.p, CellAt(grid, st.epoch, st.scale, stride), st.scale, st.epoch)
  }

  /** Powers of the rescale factor. */
  function PowSF(k: nat): (r: nat)
    ensures r >= 1
  {
    if k == 0 then 1 else SCALE_FACTOR * PowSF(k - 1)
  }

  /** The rescale loop, from `bumps` rescales already done: multiply by 1e9 until the product is
      back at or above the threshold, giving up after four. */
  function Rescale(num: nat, bumps: nat): (r: Result<(nat, nat), ReactorError>)
    requires bumps <= 4
    decreases 4 - bumps
  {
    if num / WAD >= SCALE_FACTOR then
      if num / WAD <= U128_MAX then Ok((num / WAD, bumps)) else Err(Math)
    else if bumps + 1 > 4 then Err(Math)
    else Rescale(num * SCALE_FACTOR, bumps + 1)
  }

  function UpdateProduct(p: nat, factor: nat): (r: Result<(nat, nat), ReactorError>) {
    Rescale(p * factor, 0)
  }

  /** The per-unit collateral gain, the per-unit loss factor and the two carried residuals. */
  datatype PerUnit = PerUnit(gain: nat, collError: nat, factor: nat, lossError: nat)

  function ComputePerUnit(st: PoolState, debt: nat, coll: nat): (r: Result<PerUnit, ReactorError>)
    requires 0 < st.totalDeposits && debt <= st.totalDeposits
    ensures r.Ok? ==> r.value.factor <= WAD
  {
    var total := st.totalDeposits;
    var collNumerator := coll * WAD + st.lastCollError;
    if collNumerator > U128_MAX then Err(Math)
    else
      var gain := collNumerator / total;
      DivBounds(collNumerator, total);
      var collError := collNumerator - gain * total;
      if debt == total then Ok(PerUnit(gain, collError, 0, 0))
      else
        match ComputeLoss(total, st.lastLossError, debt)
        case Err(e) => Err(e)
        case Ok((factor, lossError)) => Ok(PerUnit(gain, collError, factor, lossError))
  }

  /** The surviving fraction and the new loss residual of a partial offset. */
  function ComputeLoss(total: nat, lastLossError: nat, debt: nat): (r: Result<(nat, nat), ReactorError>)
    requires debt < total
    ensures r.Ok? ==> r.value.0 <= WAD
  {
    if debt * WAD > U128_MAX || debt * WAD < lastLossError then Err(Math)
    else
      var lossNumerator := debt * WAD - lastLossError;
      // One more than the floor: the loss is never under-counted.
      var lossPerUnit := lossNumerator / total + 1;
      LossPerUnitBounds(lossNumerator, debt, total);
      if lossPerUnit * total > U128_MAX then Err(Math)
      else Ok((WAD - lossPerUnit, lossPerUnit * total - lossNumerator))
  }

  lemma LossPerUnitBounds(lossNumerator: nat, debt: nat, total: nat)
    requires debt < total && lossNumerator <= debt * WAD
    ensures lossNumerator / total + 1 <= WAD
    ensures lossNumerator < (lossNumerator / total + 1) * total <= lossNumerator + total
  {
    MulMonoNat(debt + 1, total, WAD);
    DivAtMost(lossNumerator, total, WAD - 1);
    DivBounds(lossNumerator, total);
  }

  /** Apply a liquidation: burn `debt` of deposits, hand `coll` of collateral to depositors. */
  function Offset(st: PoolState, grid: seq<nat>, stride: nat, debt: nat, coll: nat)
    : (r: Result<(PoolState, seq<nat>), ReactorError>)
  {
    if st.totalDeposits == 0 then Err(NoDeposits)
    else if debt > st.totalDeposits then Err(DebtExceedsDeposits)
    else
      match ComputePerUnit(st, debt, coll)
      case Err(e) => Err(e)
      case Ok(u) =>
        var marginal := u.gain * st.p;
        var cell := SIdx(st.epoch, st.scale, stride, |grid|);
        if marginal > U128_MAX then Err(Math)
        else if cell.None? then Err(EpochOverflow)
        else if grid[cell.value] + marginal > U128_MAX then Err(Math)
        else
          var grid' := grid[cell.value := grid[cell.value] + marginal];
          var st' := st.(
            totalDeposits := st.totalDeposits - debt,
            lastCollError := u.collError,
            lastLossError := u.lossError);
          if u.factor == 0 then
            if st.epoch + 1 > U64_MAX || SIdx(st.epoch + 1, 0, stride, |grid|).None? then Err(EpochOverflow)
            else Ok((st'.(p := WAD, epoch := st.epoch + 1, scale := 0), grid'))
          else
            match UpdateProduct(st.p, u.factor)
            case Err(e) => Err(e)
            case Ok((newP, bumps)) =>
              if bumps > 0 && (st.scale + bumps > U64_MAX
                               || SIdx(st.epoch, st.scale + bumps, stride, |grid|).None?) then
                Err(ScaleOverflow)
              else Ok((st'.(p := newP, scale := st.scale + bumps), grid'))
  }

  /** What a deposit has compounded to since its snapshot. `None` is the arithmetic panic of the
      unsigned `st.scale - snap.scale`; `ReactorSolvency.Inv` rules it out on every run. */
  function CompoundedDeposit(st: PoolState, initial: nat, snap: Snapshot): (r: Option<nat>) {
    if initial == 0 || snap.epoch < st.epoch then Some(0)
    else if st.scale < snap.scale then None
    else
      var scaleDiff := st.scale - snap.scale;
      var scaled := match MulDivFloor(initial, st.p, snap.p) case Some(x) => x case None => 0;
      var compounded := if scaleDiff == 0 then scaled
                        else if scaleDiff == 1 then scaled / SCALE_FACTOR
                        else 0;
      // Dust guard: a deposit that shrank below a billionth of itself is dropped.
      Some(if compounded < initial / SCALE_FACTOR then 0 else compounded)
  }

  /** The collateral a deposit has earned since its snapshot: the growth of its own cell plus the
      next scale's cell scaled down. */
  function CollateralGain(grid: seq<nat>, stride: nat, initial: nat, snap: Snapshot)
    : (r: Result<nat, ReactorError>)
  {
    if initial == 0 then Ok(0)
    else
      var first := SatSub(CellAt(grid, snap.epoch, snap.scale, stride), snap.s);
      var second := CellAt(grid, snap.epoch, snap.scale + 1, stride) / SCALE_FACTOR;
      if first + second > U128_MAX then Err(Math)
      else
        match MulDivFloor(initial, first + second, snap.p)
        case None => Err(Math)
        case Some(t) => Ok(t / WAD)
  }

  /** The rescale loop on the pool's domain: at most two rescales, each made only because the
      product was still below the threshold. */
  lemma RescaleDomain(num: nat)
    requires SCALE_FACTOR <= num <= WAD * WAD
    ensures Rescale(num, 0).Ok?
    ensures var (newP, bumps) := Rescale(num, 0).value;
            && bumps <= 2
            && SCALE_FACTOR <= newP <= WAD
            && newP == num * PowSF(bumps) / WAD
            && (forall b: nat :: b < bumps ==> num * PowSF(b) / WAD < SCALE_FACTOR)
  {
    assert PowSF(0) == 1 && PowSF(1) == SCALE_FACTOR && PowSF(2) == SCALE_FACTOR * SCALE_FACTOR;
    if num / WAD >= SCALE_FACTOR {
    } else if num * SCALE_FACTOR / WAD >= SCALE_FACTOR {
      assert Rescale(num, 0) == Rescale(num * SCALE_FACTOR, 1);
    } else {
      assert Rescale(num, 0) == Rescale(num * SCALE_FACTOR, 1) == Rescale(num * SCALE_FACTOR * SCALE_FACTOR, 2);
    }
  }

  lemma ProductBounds(p: nat, factor: nat, low: nat, high: nat)
    requires low <= p <= high && 0 < factor <= high
    ensures low <= p * factor <= high * high
  {
    MulMonoNat(1, factor, p);
    MulBoundNat(p, factor, high, high);
  }

  /** On the domain the pool lives in, the product update never fails, lands back in the domain,
      needs at most two rescales, and is the floor of the exact rescaled product. */
  lemma UpdateProductDomain(p: nat, factor: nat)
    requires SCALE_FACTOR <= p <= WAD && 0 < factor <= WAD
    ensures UpdateProduct(p, factor).Ok?
    ensures var (newP, bumps) := UpdateProduct(p, factor).value;
            && bumps <= 2
            && SCALE_FACTOR <= newP <= WAD
            && newP == p * factor * PowSF(bumps) / WAD
            && (forall b: nat :: b < bumps ==> p * factor * PowSF(b) / WAD < SCALE_FACTOR)
  {
    ProductBounds(p, factor, SCALE_FACTOR, WAD);
    RescaleDomain(p * factor);
  }
}
