/** The Reactor Pool as the program runs it: fields and a grid updated in place, and the rescale
    loop with its two integer widths. */
module ReactorPool {
  import opened FixedPoint
  import opened ReactorMath

  /** The production rescale loop, over integers that cannot overflow. */
  method RescaleLoop(p: nat, factor: nat) returns (r: Result<(nat, nat), ReactorError>)
    ensures r == UpdateProduct(p, factor)
  {
    var num: nat, bumps: nat := p * factor, 0;
    while true
      invariant bumps <= 4
      invariant UpdateProduct(p, factor) == Rescale(num, bumps)
      decreases 4 - bumps
    {
      var newP := num / WAD;
      if newP >= SCALE_FACTOR {
        if newP > U128_MAX {
          return Err(Math);
        }
        return Ok((newP, bumps));
      }
      num := num * SCALE_FACTOR;
      bumps := bumps + 1;
      if bumps > 4 {
        return Err(Math);
      }
    }
  }

  /** The 128-bit twin: every product is checked, and on the pool's domain no check ever fails, so
      it computes what the wide loop computes. */
  method RescaleLoopU128(p: nat, factor: nat) returns (r: Result<(nat, nat), ReactorError>)
    ensures r == UpdateProduct(p, factor) || r == Err(Math)
    ensures SCALE_FACTOR <= p <= WAD && 0 < factor <= WAD ==> r == UpdateProduct(p, factor) && r.Ok?
  {
    ghost var domain := SCALE_FACTOR <= p <= WAD && 0 < factor <= WAD;
    if domain {
      ProductBounds(p, factor, SCALE_FACTOR, WAD);
      UpdateProductDomain(p, factor);
    }
    var num: nat, bumps: nat := p * factor, 0;
    if num > U128_MAX {
      return Err(Math);
    }
    while true
      invariant bumps <= 4 && num <= U128_MAX
      invariant domain ==> num <= WAD * WAD
      invariant UpdateProduct(p, factor) == Rescale(num, bumps)
      decreases 4 - bumps
    {
      var newP := num / WAD;
      if newP >= SCALE_FACTOR {
        return Ok((newP, bumps));
      }
      if num * SCALE_FACTOR > U128_MAX {
        return Err(Math);
      }
      num := num * SCALE_FACTOR;
      bumps := bumps + 1;
      if bumps > 4 {
        return Err(Math);
      }
    }
  }

  class Pool {
    var p: nat
    var epoch: nat
    var scale: nat
    var totalDeposits: nat
    var lastCollError: nat
    var lastLossError: nat
    const sGrid: array<nat>
    const stride: nat

    constructor (stride: nat, cells: nat)
      ensures State() == FRESH_POOL && this.stride == stride
      ensures fresh(sGrid) && sGrid[..] == seq(cells, _ => 0)
    {
      p, epoch, scale := WAD, 0, 0;
      totalDeposits, lastCollError, lastLossError := 0, 0, 0;
      this.stride := stride;
      sGrid := new nat[cells](_ => 0);
    }

    function State(): PoolState
      reads this
    {
      PoolState(p, epoch, scale, totalDeposits, lastCollError, lastLossError)
    }

    /** Apply a liquidation in place. A failed offset may already have moved the carried residuals
        and the current cell; the caller drops such a state by failing its transaction. */
    method Absorb(debt: nat, coll: nat) returns (r: Result<(), ReactorError>)
      modifies this, sGrid
      ensures var spec := Offset(old(State()), old(sGrid[..]), stride, debt, coll);
              && (spec.Ok? ==> r == Ok(()) && State() == spec.value.0 && sGrid[..] == spec.value.1)
              && (spec.Err? ==>
                    && r == Err(spec.error)
                    && p == old(p) && epoch == old(epoch) && scale == old(scale)
                    && totalDeposits == old(totalDeposits))
    {
      var total := totalDeposits;
      if total == 0 {
        return Err(NoDeposits);
      }
      if debt > total {
        return Err(DebtExceedsDeposits);
      }
      var u := ComputePerUnit(State(), debt, coll);
      if u.Err? {
        return Err(u.error);
      }
      lastCollError, lastLossError := u.value.collError, u.value.lossError;
      var marginal := u.value.gain * p;
      var cell := SIdx(epoch, scale, stride, sGrid.Length);
      if marginal > U128_MAX {
        return Err(Math);
      }
      if cell.None? {
        return Err(EpochOverflow);
      }
      if sGrid[cell.value] + marginal > U128_MAX {
        return Err(Math);
      }
      sGrid[cell.value] := sGrid[cell.value] + marginal;
      if u.value.factor == 0 {
        if epoch + 1 > U64_MAX || SIdx(epoch + 1, 0, stride, sGrid.Length).None? {
          return Err(EpochOverflow);
        }
        p, epoch, scale := WAD, epoch + 1, 0;
      } else {
        var product := RescaleLoop(p, u.value.factor);
        if product.Err? {
          return Err(product.error);
        }
        var (newP, bumps) := product.value;
        if bumps > 0 {
          if scale + bumps > U64_MAX || SIdx(epoch, scale + bumps, stride, sGrid.Length).None? {
            return Err(ScaleOverflow);
          }
          scale := scale + bumps;
        }
        p := newP;
      }
      totalDeposits := total - debt;
      return Ok(());
    }
  }
}
