/** The aggregate's cover when the clock may run backwards: through one touch, and over every run. */
module MarketRewinds {
  import opened FixedPoint
  import opened Market
  import opened MarketInvariant
  import opened MarketRuns
  import opened MarketSums
  import opened Redistribution

  /** The aggregate's cover after any run at any clock, exactly: what ceilings added and floors left behind,
      less the interest charged twice by touches and liquidations before the clock. The first is never
      negative and at most three units per operation, so the aggregate covers the positions if and only if
      no more than that was charged twice. */
  lemma CoverOverRuns(clock: int, steps: seq<Step>)
    ensures var s, b := Run(Fresh(clock), steps), RunBooks(clock, steps);
            var rounding := b.interest.rounding * WAD + b.art.rounding * INTEREST_DENOM;
            && s.agg * DEBT_UNIT - AllOwed(s) == rounding - b.interest.recharged * WAD
            && 0 <= rounding <= 3 * |steps| * DEBT_UNIT
            && (AllOwed(s) <= s.agg * DEBT_UNIT <==> b.interest.recharged * WAD <= rounding)
  {
    hide Run, RunBooks, AllOwed, AllHeld, PositionsSound, Aggregated, Balanced;
    RunKeepsInv(clock, steps);
    CoverIs(Run(Fresh(clock), steps), RunBooks(clock, steps));
  }

  /** What a run has charged twice, step by step: each touch and each liquidation adds what it recharges at
      the state it finds, and nothing else does. */
  function RechargedBy(s: State, op: Op, now: int): int {
    if Apply(s, op, now).Err? then 0
    else
      match op
      case Touch(i, _) => RechargedAt(s, i, Next(s, op, now), now)
      case Liquidate(i, _) => RechargedAt(s, i, Next(s, op, now), now)
      case _ => 0
  }

  function RechargedAt(s: State, i: nat, s': State, now: int): int {
    if Accrue(s, now).Err? || i >= |s.ps| || i >= |s'.ps| then 0
    else Recharge(Accrue(s, now).value, s.ps[i], s'.ps[i], now)
  }

  function TotalRecharged(s: State, steps: seq<Step>): int {
    if steps == [] then 0
    else
      var before, last := steps[..|steps| - 1], steps[|steps| - 1];
      TotalRecharged(s, before) + RechargedBy(Run(s, before), last.op, last.now)
  }

  lemma {:induction false} RechargedInSteps(clock: int, steps: seq<Step>)
    ensures RunBooks(clock, steps).interest.recharged == TotalRecharged(Fresh(clock), steps)
  {
    hide BooksNext, RechargedBy, Next;
    if steps != [] {
      var last := |steps| - 1;
      RechargedInSteps(clock, steps[..last]);
      StepRecharges(Run(Fresh(clock), steps[..last]), RunBooks(clock, steps[..last]), steps[last].op, steps[last].now);
    }
  }

  lemma StepRecharges(s: State, b: Books, op: Op, now: int)
    ensures BooksNext(s, b, op, now).interest.recharged == b.interest.recharged + RechargedBy(s, op, now)
  {
    hide Settle, CloseOut, Realize, MintInterest, Recharge, InterestCharged, ArtFolded, CollFolded, RedistributedDebt,
         PendingAggregateInterest, Weight, ShareOf;
    if Apply(s, op, now).Ok? {
      match op
      case Touch(i, change) =>
        var s1 := Accrue(s, now).value;
        var q := Realize(s1, s1.ps[i], now).value;
        SettledFields(s1, i, q, MoveOf(q, change));
      case Liquidate(i, backing) =>
        var s1 := Accrue(s, now).value;
        ClosedFields(s1, i, Realize(s1, s1.ps[i], now).value, backing);
      case _ =>
    }
  }

  /** What bringing `p` current as `q` rounds away, in units of debt. */
  ghost function RoundedOff(s: State, p: Position, q: Position, now: int): int {
    Weight(p) * Max(CapOf(s, now) - p.since, 0) * 1_000_000_000_000_000_000
    + ShareOf(p, s.redist.art.level, p.snapArt) * 315_360_000_000
    - (q.debt - p.debt) * 315_360_000_000_000_000_000_000_000_000
  }

  lemma RoundedOffBounds(s: State, p: Position, now: int)
    requires p.snapArt <= s.redist.art.level && Realize(s, p, now).Ok?
    ensures 0 <= RoundedOff(s, p, Realize(s, p, now).value, now) < 2 * DEBT_UNIT
  {
    hide Weight, Realize, PendingOne, AccruedInterest;
    RealizeSplits(s, p, now);
    PendingFloor(p.stake, s.redist.art.level, p.snapArt);
    InterestFloor(p, PeriodOf(s, p, now));
  }

  /** What one position owes through a touch that leaves it as `p'`. */
  lemma OwedThroughTouch(s: State, p: Position, q: Position, p': Position, now: int)
    requires Realize(s, p, now) == Ok(q)
    requires p'.since == q.since && p'.snapArt == q.snapArt
    ensures Owed(p', s.clock, s.redist.art.level)
         == Owed(p, s.clock, s.redist.art.level) + (p'.debt - q.debt) * DEBT_UNIT
            + Recharge(s, p, p', now) * WAD - RoundedOff(s, p, q, now)
  {
    hide Realize, Weight, ShareOf;
    RealizeSplits(s, p, now);
    var cap := CapOf(s, now);
    var period := Max(cap - p.since, 0);
    assert s.clock - p.since == (s.clock - Max(cap, p.since)) + period;
    DistributeRight(Weight(p), s.clock - Max(cap, p.since), period);
    NoShare(p', s.redist.art.level);
  }

  lemma NoShare(p: Position, level: int)
    requires p.snapArt == level
    ensures ShareOf(p, level, p.snapArt) == 0
  {
  }

  /** The aggregate's cover through one touch of a market already accrued, exactly: it moves by what is
      recharged less what is rounded off, and by nothing else. So the aggregate still covers the positions
      afterwards if and only if that is within the cover it had. All of it is known before the touch. */
  lemma CoverThroughTouch(s: State, i: nat, change: Change, now: int)
    requires i < |s.ps| && s.ps[i].snapArt <= s.redist.art.level
    requires Accrue(s, now) == Ok(s) && Apply(s, Touch(i, change), now).Ok?
    ensures var s' := Apply(s, Touch(i, change), now).value;
            var p, q := s.ps[i], Realize(s, s.ps[i], now).value;
            && Covered(q, MoveOf(q, change))
            && var growth := Recharge(s, p, BookedPosition(q, MoveOf(q, change)), now) * WAD - RoundedOff(s, p, q, now);
            && s'.agg * DEBT_UNIT - AllOwed(s') == s.agg * DEBT_UNIT - AllOwed(s) - growth
            && 0 <= RoundedOff(s, p, q, now) < 2 * DEBT_UNIT
            && (AllOwed(s') <= s'.agg * DEBT_UNIT <==> growth <= s.agg * DEBT_UNIT - AllOwed(s))
  {
    hide Realize, Settle, MoveOf, Total, Owed, Recharge, RoundedOff, Accrue;
    var p := s.ps[i];
    var q := Realize(s, p, now).value;
    SettledFields(s, i, q, MoveOf(q, change));
    var s' := Apply(s, Touch(i, change), now).value;
    TotalUpdate(Owing(s.clock, s.redist.art.level), s.ps, i, s'.ps[i]);
    OwedThroughTouch(s, p, q, s'.ps[i], now);
    RechargeByWeight(s, p, s'.ps[i], BookedPosition(q, MoveOf(q, change)), now);
    RoundedOffBounds(s, p, now);
  }

  lemma RechargeByWeight(s: State, p: Position, a: Position, b: Position, now: int)
    requires a.debt == b.debt && a.rate == b.rate
    ensures Recharge(s, p, a, now) == Recharge(s, p, b, now)
  {
  }

  /** A touch before the clock that changes nothing itself recharges interest on what it folds in, and the
      whole weight for any time the position was already ahead of `now`. */
  lemma RewindRecharges(s: State, p: Position, q: Position, now: int)
    requires !s.shutdown && now <= s.clock && q.rate == p.rate
    ensures Recharge(s, p, q, now)
         == p.rate * (q.debt - p.debt) * (s.clock - now) + Weight(p) * (Max(now, p.since) - now)
  {
    var (d, t) := (s.clock - now, Max(now, p.since) - now);
    assert Weight(q) == Weight(p) + p.rate * (q.debt - p.debt);
    assert s.clock - Max(now, p.since) == d - t;
    RewindSum(Weight(p), p.rate * (q.debt - p.debt), d, t);
  }

  lemma RewindSum(w: int, x: int, d: int, t: int)
    ensures (w + x) * d - w * (d - t) == x * d + w * t
  {
  }
}
