/** The market and position accounts as the program runs them: every instruction books the market's
    interest, brings one position current in place, changes it, and moves the aggregates by the
    difference. */
module MarketAccounts {
  import opened FixedPoint
  import opened Market
  import opened MarketFlows
  import opened MarketInvariant
  import opened MarketRuns
  import opened Redistribution

  /** The accounts keep the market's invariant at any clock, beside the books of the operation. */
  ghost predicate KeepsInv(s: State, s': State, op: Op, now: int) {
    forall b :: Inv(s, b) ==> Inv(s', BooksNext(s, b, op, now))
  }

  lemma StepKeepsInv(s: State, op: Op, now: int)
    ensures Apply(s, op, now).Ok? ==> KeepsInv(s, Apply(s, op, now).value, op, now)
  {
    hide Inv, Apply, BooksNext;
    if Apply(s, op, now).Ok? {
      forall b | Inv(s, b)
        ensures Inv(Apply(s, op, now).value, BooksNext(s, b, op, now))
      {
        NextKeepsInv(s, b, op, now);
      }
    }
  }

  class MarketAccount {
    var agg: nat
    var unminted: nat
    var weighted: nat
    var clock: int
    var shutdown: bool
    var redist: RedistState
    var totalStakes: nat
    var totalColl: nat
    var stakesSnapshot: nat
    var collSnapshot: nat
    var badDebt: nat
    var minted: int

    constructor (now: int)
      ensures View([]) == Fresh(now)
    {
      agg, unminted, weighted, clock, shutdown, redist := 0, 0, 0, now, false, GENESIS;
      totalStakes, totalColl, stakesSnapshot, collSnapshot, badDebt, minted := 0, 0, 0, 0, 0, 0;
    }

    /** This account beside the positions `ps`. */
    function View(ps: seq<Position>): State
      reads this
    {
      State(agg, unminted, weighted, clock, shutdown, redist, totalStakes, totalColl,
            stakesSnapshot, collSnapshot, badDebt, minted, ps)
    }

    method Accrue(now: int, ghost ps: seq<Position>) returns (r: Result<(), Failure>)
      modifies this`agg, this`unminted, this`clock
      ensures match Market.Accrue(old(View(ps)), now)
              case Ok(s) => r == Ok(()) && View(ps) == s
              case Err(e) => r == Err(e) && View(ps) == old(View(ps))
    {
      var dt := now - clock;
      if dt <= 0 || shutdown {
        return Ok(());
      }
      var pending := PendingAggregateInterest(weighted, dt);
      if pending.None? || agg + pending.value > U128_MAX || unminted + pending.value > U128_MAX {
        return Err(Overflow);
      }
      agg, unminted := agg + pending.value, unminted + pending.value;
      clock := now;
      return Ok(());
    }

    /** Move the aggregates by a change, or leave them where they are. */
    method Book(m: Move, ghost ps: seq<Position>) returns (r: Result<(), Failure>)
      modifies this
      ensures if m.down <= old(agg) + m.up <= U128_MAX && old(unminted) + m.fee <= U128_MAX
                 && m.inkDown <= old(totalColl) + m.inkUp <= U128_MAX
              then r == Ok(()) && View(ps) == BookedMarket(old(View(ps)), m)
              else r == Err(Overflow) && View(ps) == old(View(ps))
    {
      if agg + m.up > U128_MAX || agg + m.up < m.down || unminted + m.fee > U128_MAX {
        return Err(Overflow);
      }
      if totalColl + m.inkUp > U128_MAX || totalColl + m.inkUp < m.inkDown {
        return Err(Overflow);
      }
      agg, unminted := agg + m.up - m.down, unminted + m.fee;
      minted := minted + m.up - m.fee - m.down;
      totalColl := totalColl + m.inkUp - m.inkDown;
      return Ok(());
    }

    /** Remove position `p` from the aggregates and its absorbed debt from the total. */
    method Strip(p: Position, b: Backing, oldWeight: nat, ghost ps: seq<Position>)
      returns (split: Absorption, r: Result<(), Failure>)
      modifies this
      ensures var s := old(View(ps));
              if Strippable(s, p, b, oldWeight)
              then r == Ok(()) && split == SplitOf(s, p, b) && View(ps) == Stripped(s, p, b, oldWeight)
              else r == Err(Overflow)
    {
      hide Absorb;
      split := Absorption(0, 0, 0, 0, 0);
      if totalStakes < p.stake || totalColl < p.ink {
        return split, Err(Overflow);
      }
      totalStakes, totalColl := totalStakes - p.stake, totalColl - p.ink;
      split := Absorb(p.debt, b.reactor, totalStakes > 0, b.buffer, b.global);
      var gone := split.reactor + split.buffer + split.global + split.unhomed;
      if agg < gone || badDebt + split.unhomed > U128_MAX || weighted < oldWeight {
        return split, Err(Overflow);
      }
      agg, badDebt := agg - gone, badDebt + split.unhomed;
      minted := minted - (split.reactor + split.buffer + split.global);
      weighted := weighted - oldWeight;
      r := Ok(());
    }

    /** Store the accumulators and retake the stake snapshots. */
    method Finish(redist: RedistState, coll: nat, unhomed: bool, ghost ps: seq<Position>)
      modifies this
      ensures View(ps) == Finished(old(View(ps)), redist, coll, unhomed)
    {
      this.redist, totalColl := redist, totalColl + coll;
      shutdown := shutdown || unhomed;
      stakesSnapshot := totalStakes;
      collSnapshot := if totalStakes == 0 then 0 else totalColl;
    }
  }

  class PositionAccount {
    var ink: nat
    var debt: nat
    var rate: nat
    var since: int
    var stake: nat
    var snapColl: nat
    var snapArt: nat

    constructor (market: MarketAccount, rate: nat, now: int)
      ensures View() == Position(0, 0, rate, now, 0, market.redist.coll.level, market.redist.art.level)
    {
      ink, debt, this.rate, since, stake := 0, 0, rate, now, 0;
      snapColl, snapArt := market.redist.coll.level, market.redist.art.level;
    }

    function View(): Position
      reads this
    {
      Position(ink, debt, rate, since, stake, snapColl, snapArt)
    }

    /** This account is position `i` of market state `s`. */
    ghost predicate Within(s: State, i: nat, market: MarketAccount)
      reads this, market
    {
      market.View(s.ps) == s && i < |s.ps| && s.ps[i] == View()
    }

    /** Fold in interest and pending redistribution. */
    method Realize(market: MarketAccount, now: int, ghost s: State, ghost i: nat) returns (r: Result<(), Failure>)
      requires Within(s, i, market)
      modifies this
      ensures match Market.Realize(s, s.ps[i], now)
              case Ok(p) => r == Ok(()) && View() == p
              case Err(e) => r == Err(e)
    {
      var cap := if market.shutdown then market.clock else now;
      var accrued := AccruedInterest(debt, rate, Max(cap - since, 0));
      if accrued.None? {
        return Err(Overflow);
      }
      var coll := PendingOne(stake, market.redist.coll.level, snapColl);
      var art := PendingOne(stake, market.redist.art.level, snapArt);
      if coll.None? || art.None? || ink + coll.value > U64_MAX {
        return Err(Overflow);
      }
      ink := ink + coll.value;
      if debt + accrued.value + art.value > U128_MAX {
        return Err(Overflow);
      }
      debt := debt + accrued.value + art.value;
      since := cap;
      snapColl, snapArt := market.redist.coll.level, market.redist.art.level;
      return Ok(());
    }

    /** Move the weighted sum from the old contribution to the present one: add, then subtract. */
    method Reweight(market: MarketAccount, oldWeight: nat) returns (r: Result<(), Failure>)
      modifies market`weighted
      ensures var w := WeightedDebt(debt, rate);
              if w.Some? && oldWeight <= old(market.weighted) + w.value <= U128_MAX
              then r == Ok(()) && market.weighted == old(market.weighted) + w.value - oldWeight
              else r == Err(Overflow) && market.weighted == old(market.weighted)
    {
      var weight := WeightedDebt(debt, rate);
      if weight.None? || market.weighted + weight.value > U128_MAX || market.weighted + weight.value < oldWeight {
        return Err(Overflow);
      }
      market.weighted := market.weighted + weight.value - oldWeight;
      return Ok(());
    }

    /** Recompute the stake from the collateral, and move the total by the difference. */
    method SetStake(market: MarketAccount) returns (r: Result<(), Failure>)
      modifies this`stake, market`totalStakes
      ensures var stake' := ComputeStake(ink, market.stakesSnapshot, market.collSnapshot);
              if stake'.Some? && old(stake) <= old(market.totalStakes)
                 && old(market.totalStakes) - old(stake) + stake'.value <= U128_MAX
              then
                && r == Ok(()) && stake == stake'.value
                && market.totalStakes == old(market.totalStakes) - old(stake) + stake
              else r == Err(Overflow) && stake == old(stake) && market.totalStakes == old(market.totalStakes)
    {
      var next := ComputeStake(ink, market.stakesSnapshot, market.collSnapshot);
      if next.None? || market.totalStakes < stake || market.totalStakes - stake + next.value > U128_MAX {
        return Err(Overflow);
      }
      market.totalStakes := market.totalStakes - stake + next.value;
      stake := next.value;
      return Ok(());
    }

    /** One instruction on this position. */
    method Touch(market: MarketAccount, change: Change, now: int, ghost s: State, ghost i: nat)
      returns (r: Result<(), Failure>)
      requires Within(s, i, market)
      modifies this, market
      ensures match Apply(s, Op.Touch(i, change), now)
              case Ok(s') =>
                && r == Ok(()) && Within(s', i, market) && KeepsInv(s, s', Op.Touch(i, change), now)
                && MovedBy(View(), change, CurrentInk(s, i, now), CurrentDebt(s, i, now), s.ps[i].rate)
              case Err(e) => r == Err(e)
    {
      hide Market.Accrue, Market.Realize, ComputeStake, MoveOf, KeepsInv, MovedBy, CurrentInk, CurrentDebt;
      StepKeepsInv(s, Op.Touch(i, change), now);
      if Apply(s, Op.Touch(i, change), now).Ok? {
        TouchMovesPosition(s, i, change, now);
      }
      var oldWeight := WeightedDebt(debt, rate);
      if oldWeight.None? {
        WeightNeeded(s, i, now);
        return Err(Overflow);
      }
      var accrued := market.Accrue(now, s.ps);
      if accrued.Err? {
        return accrued;
      }
      ghost var s1 := market.View(s.ps);
      AccrueKeepsPositions(s, now);
      var realized := Realize(market, now, s1, i);
      if realized.Err? {
        return realized;
      }
      r := ApplyMove(market, MoveOf(View(), change), oldWeight.value, s1, i);
    }

    /** Change a current position and the aggregates with it. */
    method ApplyMove(market: MarketAccount, m: Move, oldWeight: nat, ghost s: State, ghost i: nat)
      returns (r: Result<(), Failure>)
      requires i < |s.ps| && market.View(s.ps) == s && WeightedDebt(s.ps[i].debt, s.ps[i].rate) == Some(oldWeight)
      modifies this, market
      ensures match Settle(s, i, s.ps[i], old(View()), m)
              case Ok(s') => r == Ok(()) && Within(s', i, market)
              case Err(e) => r == Err(e)
    {
      hide ComputeStake, WeightedDebt;
      r := Book(market, m, s.ps);
      if r.Err? {
        return;
      }
      r := Reweight(market, oldWeight);
      if r.Err? {
        return;
      }
      r := SetStake(market);
    }

    method Book(market: MarketAccount, m: Move, ghost ps: seq<Position>) returns (r: Result<(), Failure>)
      modifies this, market
      ensures if !Covered(old(View()), m) then r == Err(Refused)
              else if !Bookable(old(market.View(ps)), old(View()), m) then r == Err(Overflow)
              else
                && r == Ok(()) && View() == BookedPosition(old(View()), m)
                && market.View(ps) == BookedMarket(old(market.View(ps)), m)
    {
      hide BookedMarket;
      if debt + m.up < m.down || ink + m.inkUp < m.inkDown {
        return Err(Refused);
      }
      if debt + m.up - m.down > U128_MAX || ink + m.inkUp - m.inkDown > U64_MAX {
        return Err(Overflow);
      }
      r := market.Book(m, ps);
      if r.Err? {
        return;
      }
      debt, ink, rate := debt + m.up - m.down, ink + m.inkUp - m.inkDown, m.rate;
    }

    /** Liquidate this position. */
    method Liquidate(market: MarketAccount, b: Backing, now: int, ghost s: State, ghost i: nat)
      returns (r: Result<(), Failure>)
      requires Within(s, i, market)
      modifies this, market
      ensures match Apply(s, Op.Liquidate(i, b), now)
              case Ok(s') => r == Ok(()) && Within(s', i, market) && KeepsInv(s, s', Op.Liquidate(i, b), now)
              case Err(e) => r == Err(e)
    {
      hide Market.Accrue, Market.Realize, CloseOut, KeepsInv;
      StepKeepsInv(s, Op.Liquidate(i, b), now);
      var oldWeight := WeightedDebt(debt, rate);
      if oldWeight.None? {
        WeightNeeded(s, i, now);
        return Err(Overflow);
      }
      var accrued := market.Accrue(now, s.ps);
      if accrued.Err? {
        return accrued;
      }
      ghost var s1 := market.View(s.ps);
      AccrueKeepsPositions(s, now);
      var realized := Realize(market, now, s1, i);
      if realized.Err? {
        return realized;
      }
      r := Close(market, b, oldWeight.value, s1, i);
    }

    /** Take this position out whole, split its debt over the tiers and spread what is left. */
    method Close(market: MarketAccount, b: Backing, oldWeight: nat, ghost s: State, ghost i: nat)
      returns (r: Result<(), Failure>)
      requires i < |s.ps| && market.View(s.ps) == s && WeightedDebt(s.ps[i].debt, s.ps[i].rate) == Some(oldWeight)
      modifies this, market
      ensures match CloseOut(s, i, s.ps[i], old(View()), b)
              case Ok(s') => r == Ok(()) && Within(s', i, market)
              case Err(e) => r == Err(e)
    {
      hide Redistribute, WeightedDebt, Absorb, Strippable;
      if debt == 0 || b.collRest > ink {
        return Err(Refused);
      }
      var split;
      split, r := market.Strip(View(), b, oldWeight, s.ps);
      if r.Err? {
        return;
      }
      if split.redist > 0 {
        var accumulators := new RedistAccount.Of(market.redist);
        var spread := accumulators.Apply(market.totalStakes, b.collRest, split.redist);
        if spread.Err? {
          return Err(Overflow);
        }
        market.Finish(accumulators.State(), b.collRest, false, s.ps);
      } else {
        market.Finish(market.redist, 0, split.unhomed > 0, s.ps);
      }
      Empty(market.redist);
      return Ok(());
    }

    /** Nothing owed, held or staked any more. */
    method Empty(redist: RedistState)
      modifies this
      ensures View() == Emptied(old(View()), redist)
    {
      debt, ink, stake := 0, 0, 0;
      snapColl, snapArt := redist.coll.level, redist.art.level;
    }

    lemma WeightNeeded(s: State, i: nat, now: int)
      requires i < |s.ps| && WeightedDebt(s.ps[i].debt, s.ps[i].rate).None?
      ensures match Market.Accrue(s, now)
              case Ok(s1) => s1.ps == s.ps && Market.Realize(s1, s1.ps[i], now) == Err(Overflow)
              case Err(e) => e == Overflow
    {
      hide PendingOne;
    }

    lemma AccrueKeepsPositions(s: State, now: int)
      ensures Market.Accrue(s, now).Ok? ==> Market.Accrue(s, now).value.ps == s.ps
    {
    }
  }
}
