/** Tier-2 redistribution: uncovered debt and its collateral spread over all stakes in O(1), through
    two accumulators per unit staked with carried residuals. */
module Redistribution {
  import opened Arith
  import opened FixedPoint

  datatype RedistError = NoStakes | AccumulatorOverflow | Math

  /** One accumulator and the residual it carries. */
  datatype Accumulator = Accumulator(level: nat, error: nat)

  datatype RedistState = RedistState(coll: Accumulator, art: Accumulator)

  const GENESIS := RedistState(Accumulator(0, 0), Accumulator(0, 0))

  /** Add `amount` per unit staked. `None` when the accumulator would pass 128 bits. */
  function Accumulate(a: Accumulator, totalStakes: nat, amount: nat): (r: Option<Accumulator>)
    requires totalStakes > 0
  {
    var numerator := amount * WAD + a.error;
    var perUnit := numerator / totalStakes;
    if perUnit > U128_MAX || a.level + perUnit > U128_MAX then None
    else Some(Accumulator(a.level + perUnit, numerator % totalStakes))
  }

  function Redistribute(st: RedistState, totalStakes: nat, coll: nat, art: nat): (r: Result<RedistState, RedistError>) {
    if totalStakes == 0 then Err(NoStakes)
    else
      match Accumulate(st.coll, totalStakes, coll)
      case None => Err(AccumulatorOverflow)
      case Some(c) =>
        match Accumulate(st.art, totalStakes, art)
        case None => Err(AccumulatorOverflow)
        case Some(a) => Ok(RedistState(c, a))
  }

  /** What a stake has coming since its snapshot. `None` when it does not fit 128 bits. */
  function PendingOne(stake: nat, now: nat, snap: nat): (r: Option<nat>) {
    var delta := SatSub(now, snap);
    if stake == 0 || delta == 0 then Some(0) else MulDivFloor(stake, delta, WAD)
  }

  function ComputeStake(coll: nat, stakesSnapshot: nat, collSnapshot: nat): (r: Option<nat>) {
    if collSnapshot == 0 then Some(coll) else MulDivFloor(coll, stakesSnapshot, collSnapshot)
  }

  /** Nothing is lost in an accumulation: what all stakes together gain plus the new residual is
      exactly what came in plus the old residual. */
  lemma AccumulateExact(a: Accumulator, totalStakes: nat, amount: nat)
    requires totalStakes > 0 && Accumulate(a, totalStakes, amount).Some?
    ensures var b := Accumulate(a, totalStakes, amount).value;
            && b.level >= a.level
            && (b.level - a.level) * totalStakes + b.error == amount * WAD + a.error
            && b.error < totalStakes
  {
    DivBounds(amount * WAD + a.error, totalStakes);
  }

  /** An accumulation fails exactly if it would take the level past 128 bits, in whole per-unit amounts; and
      never while the level has room for the amount itself at 18 decimals. */
  lemma AccumulateFailsIff(a: Accumulator, totalStakes: nat, amount: nat)
    requires totalStakes > 0 && a.level <= U128_MAX
    ensures Accumulate(a, totalStakes, amount).None?
            <==> amount * WAD + a.error >= (U128_MAX + 1 - a.level) * totalStakes
    ensures a.error <= totalStakes && a.level + amount * WAD < U128_MAX ==> Accumulate(a, totalStakes, amount).Some?
  {
    var numerator, room := amount * WAD + a.error, U128_MAX + 1 - a.level;
    if numerator >= room * totalStakes {
      DivAtLeast(numerator, totalStakes, room);
    } else {
      Below(numerator, totalStakes, room);
    }
    if a.error <= totalStakes && a.level + amount * WAD < U128_MAX {
      MulMonoNat(1, totalStakes, room - 1);
      assert room * totalStakes == (room - 1) * totalStakes + totalStakes;
    }
  }

  /** A redistribution goes through exactly if somebody has a stake and both accumulators have room. */
  lemma RedistributeFailsIff(st: RedistState, totalStakes: nat, coll: nat, art: nat)
    requires st.coll.level <= U128_MAX && st.art.level <= U128_MAX
    ensures Redistribute(st, totalStakes, coll, art).Ok? <==>
              && totalStakes > 0
              && coll * WAD + st.coll.error < (U128_MAX + 1 - st.coll.level) * totalStakes
              && art * WAD + st.art.error < (U128_MAX + 1 - st.art.level) * totalStakes
  {
    hide Accumulate;
    if totalStakes > 0 {
      AccumulateFailsIff(st.coll, totalStakes, coll);
      AccumulateFailsIff(st.art, totalStakes, art);
    }
  }

  lemma Below(n: nat, d: nat, k: nat)
    requires d > 0 && n < k * d
    ensures n / d < k
  {
    DivBounds(n, d);
    if n / d >= k {
      MulMonoNat(k, n / d, d);
    }
  }

  /** Redistribution never shrinks a stake's share of the market: at a snapshot ratio of at most
      one, a stake is at most its collateral. */
  lemma StakeWithinCollateral(coll: nat, stakesSnapshot: nat, collSnapshot: nat)
    requires stakesSnapshot <= collSnapshot && coll <= U128_MAX
    ensures ComputeStake(coll, stakesSnapshot, collSnapshot).Some?
    ensures ComputeStake(coll, stakesSnapshot, collSnapshot).value <= coll
  {
    if collSnapshot > 0 {
      MulMonoNat(stakesSnapshot, collSnapshot, coll);
      DivAtMost(coll * stakesSnapshot, collSnapshot, coll);
    }
  }

  /** One accumulation as the program runs it. The residual is overwritten before the sum is checked,
      so it may move although the accumulation fails. */
  method AccumulateInto(level: nat, lastError: nat, totalStakes: nat, amount: nat)
    returns (r: Option<nat>, error: nat)
    requires totalStakes > 0
    ensures match Accumulate(Accumulator(level, lastError), totalStakes, amount)
            case Some(a) => r == Some(a.level) && error == a.error
            case None => r.None?
  {
    var numerator := amount * WAD + lastError;
    var perUnit := numerator / totalStakes;
    if perUnit > U128_MAX {
      return None, lastError;
    }
    error := numerator % totalStakes;
    r := Fits(U128_MAX, level + perUnit);
  }

  /** The accumulators as the program updates them: in place, collateral first. */
  class RedistAccount {
    var lColl: nat
    var lArt: nat
    var lastCollError: nat
    var lastArtError: nat

    constructor ()
      ensures State() == GENESIS
    {
      lColl, lArt, lastCollError, lastArtError := 0, 0, 0, 0;
    }

    /** The accumulators of a market, taken out to be moved. */
    constructor Of(st: RedistState)
      ensures State() == st
    {
      lColl, lastCollError := st.coll.level, st.coll.error;
      lArt, lastArtError := st.art.level, st.art.error;
    }

    function State(): RedistState
      reads this
    {
      RedistState(Accumulator(lColl, lastCollError), Accumulator(lArt, lastArtError))
    }

    /** A failure may leave the collateral side and the residuals moved; the caller drops such a
        state by failing its transaction. */
    method Apply(totalStakes: nat, coll: nat, art: nat) returns (r: Result<(), RedistError>)
      modifies this
      ensures match Redistribute(old(State()), totalStakes, coll, art)
              case Ok(st) => r == Ok(()) && State() == st
              case Err(e) => r == Err(e) && lArt == old(lArt)
      ensures totalStakes == 0 ==> State() == old(State())
    {
      if totalStakes == 0 {
        return Err(NoStakes);
      }
      var c, a;
      c, lastCollError := AccumulateInto(lColl, lastCollError, totalStakes, coll);
      if c.None? {
        return Err(AccumulatorOverflow);
      }
      lColl := c.value;
      a, lastArtError := AccumulateInto(lArt, lastArtError, totalStakes, art);
      if a.None? {
        return Err(AccumulatorOverflow);
      }
      lArt := a.value;
      return Ok(());
    }
  }
}
