/** Every operation keeps the market's invariant, at any clock, and so does every run. */
module MarketRuns {
  import opened FixedPoint
  import opened Market
  import opened MarketInvariant
  import opened MarketSums
  import opened Redistribution

  /** Booking interest for the whole market keeps everything, and its ceiling adds less than one unit. */
  lemma AccrueKeeps(s: State, b: Books, now: int)
    requires Core(s, b) && Accrue(s, now).Ok?
    ensures Core(Accrue(s, now).value, BooksAccrued(s, b, now))
    ensures 0 <= BooksAccrued(s, b, now).interest.rounding - b.interest.rounding <= 315_360_000_000
  {
    hide Total, PositionSound;
    var s1 := Accrue(s, now).value;
    if now > s.clock && !s.shutdown {
      InterestsOverTime(s.ps, s.clock, now - s.clock);
      CeilingAdds(s.weighted, now - s.clock);
    }
  }

  /** Interest booked for the whole market is the exact interest, rounded up. */
  lemma CeilingAdds(weighted: nat, dt: nat)
    requires PendingAggregateInterest(weighted, dt).Some?
    ensures var pending := PendingAggregateInterest(weighted, dt).value;
            weighted * dt <= pending * 315_360_000_000 < weighted * dt + 315_360_000_000
  {
  }

  /** A position with nothing pending at the market's accumulators. */
  ghost predicate NoShares(p: Position, s: State) {
    ShareOf(p, s.redist.art.level, p.snapArt) == 0 && ShareOf(p, s.redist.coll.level, p.snapColl) == 0
  }

  lemma InterestThroughTouch(s: State, p: Position, p': Position, now: int)
    requires p'.since == CapOf(s, now)
    ensures InterestOwed(p', s.clock)
         == InterestOwed(p, s.clock) - Weight(p) * PeriodOf(s, p, now) + Recharge(s, p, p', now)
  {
    hide Weight;
    var t := Max(CapOf(s, now), p.since);
    assert s.clock - p.since == (s.clock - t) + PeriodOf(s, p, now);
    DistributeRight(Weight(p), s.clock - t, PeriodOf(s, p, now));
  }

  /** Bringing one position current and replacing it, while the aggregates move by the change alone, keeps
      every book. */
  lemma TouchBalances(s: State, b: Books, i: nat, p': Position, now: int, agg: int, totalColl: int)
    requires i < |s.ps| && Balanced(s.agg, s.totalColl, s.clock, s.redist, s.ps, b)
    requires Realize(s, s.ps[i], now).Ok?
    requires p'.since == CapOf(s, now) && NoShares(p', s)
    requires agg - s.agg == p'.debt - Realize(s, s.ps[i], now).value.debt
    requires totalColl - s.totalColl == p'.ink - Realize(s, s.ps[i], now).value.ink
    ensures Balanced(agg, totalColl, s.clock, s.redist, s.ps[i := p'], BooksTouched(s, b, s.ps[i], p', now, 0, 0))
  {
    hide Total, Realize, InterestOwed, ShareOf, Weight, InterestCharged, ArtFolded, CollFolded, Recharge;
    var p := s.ps[i];
    RealizeSplits(s, p, now);
    InterestThroughTouch(s, p, p', now);
    TotalUpdate(Debts(), s.ps, i, p');
    TotalUpdate(Inks(), s.ps, i, p');
    TotalUpdate(Interests(s.clock), s.ps, i, p');
    TotalUpdate(ArtShares(s.redist.art.level), s.ps, i, p');
    TotalUpdate(CollShares(s.redist.coll.level), s.ps, i, p');
  }

  /** What a touch adds to the roundings is less than one unit each. */
  lemma TouchRounds(s: State, b: Books, p: Position, p': Position, now: int, art: int, coll: int)
    requires PositionSound(p, s.redist) && Realize(s, p, now).Ok?
    ensures var b' := BooksTouched(s, b, p, p', now, art, coll);
            && 0 <= b'.interest.rounding - b.interest.rounding <= 315_360_000_000
            && 0 <= b'.art.rounding - b.art.rounding <= 1_000_000_000_000_000_000
            && 0 <= b'.coll.rounding - b.coll.rounding <= 1_000_000_000_000_000_000
            && b'.ops == b.ops
  {
    hide Realize, ShareOf, Weight, InterestCharged, ArtFolded, CollFolded, PeriodOf;
    FloorsLeave(s, p, now);
  }

  /** Spreading debt and collateral over all stakes moves them into the accumulators and their residuals
      without a remainder. */
  lemma SpreadBalances(agg: int, totalColl: int, clock: int, redist: RedistState, ps: seq<Position>, b: Books,
                       stakes: nat, coll: nat, art: nat, redist': RedistState)
    requires Balanced(agg, totalColl, clock, redist, ps, b)
    requires stakes == Total(Stakes(), ps) > 0 && Redistribute(redist, stakes, coll, art) == Ok(redist')
    ensures Balanced(agg + art, totalColl + coll, clock, redist', ps,
                     b.(art := b.art.(fed := b.art.fed + art), coll := b.coll.(fed := b.coll.fed + coll)))
    ensures redist.coll.level <= redist'.coll.level && redist.art.level <= redist'.art.level
  {
    hide Total, Accumulate;
    AccumulateExact(redist.coll, stakes, coll);
    AccumulateExact(redist.art, stakes, art);
    var dc, da := redist'.coll.level - redist.coll.level, redist'.art.level - redist.art.level;
    CollSharesOverLevel(ps, redist.coll.level, dc);
    ArtSharesOverLevel(ps, redist.art.level, da);
    assert dc * stakes == stakes * dc && da * stakes == stakes * da;
  }

  lemma ReplaceKeepsAggregates(s: State, s': State, i: nat, p': Position)
    requires i < |s.ps| && Aggregated(s)
    requires s'.ps == s.ps[i := p'] && s'.collSnapshot == s.collSnapshot && s'.stakesSnapshot == s.stakesSnapshot
    requires s'.weighted == s.weighted + Weight(p') - Weight(s.ps[i])
    requires s'.totalStakes == s.totalStakes - s.ps[i].stake + p'.stake
    ensures Aggregated(s')
  {
    hide Total;
    TotalUpdate(Weights(), s.ps, i, p');
    TotalUpdate(Stakes(), s.ps, i, p');
  }

  lemma ReplaceKeepsPositions(s: State, s': State, i: nat, p': Position)
    requires i < |s.ps| && PositionsSound(s)
    requires s'.ps == s.ps[i := p']
    requires s.redist.coll.level <= s'.redist.coll.level && s.redist.art.level <= s'.redist.art.level
    requires PositionSound(p', s'.redist)
    ensures PositionsSound(s')
  {
    forall p | p in s'.ps
      ensures PositionSound(p, s'.redist)
    {
      var j :| 0 <= j < |s'.ps| && s'.ps[j] == p;
      if j != i {
        assert s.ps[j] in s.ps && PositionSound(s.ps[j], s.redist);
      }
    }
  }

  // ----- settling a change -----------------------------------------------------------------------

  lemma SettleKeeps(s: State, b: Books, i: nat, m: Move, now: int)
    requires i < |s.ps| && Core(s, b) && Realize(s, s.ps[i], now).Ok?
    requires Settle(s, i, s.ps[i], Realize(s, s.ps[i], now).value, m).Ok?
    ensures var s' := Settle(s, i, s.ps[i], Realize(s, s.ps[i], now).value, m).value;
            |s'.ps| == |s.ps| && Core(s', BooksTouched(s, b, s.ps[i], s'.ps[i], now, 0, 0))
  {
    hide Total, Realize, PositionSound, PositionsSound, BooksTouched, Balanced;
    var q := Realize(s, s.ps[i], now).value;
    var s' := Settle(s, i, s.ps[i], q, m).value;
    var p' := s'.ps[i];
    RealizeSplits(s, s.ps[i], now);
    NothingPending(s, p');
    TouchBalances(s, b, i, p', now, s'.agg, s'.totalColl);
    ReplaceKeepsAggregates(s, s', i, p');
    SettledPositionSound(s, i, q, m);
    ReplaceKeepsPositions(s, s', i, p');
  }

  lemma NothingPending(s: State, p: Position)
    requires p.stake == 0 || (p.snapArt == s.redist.art.level && p.snapColl == s.redist.coll.level)
    ensures NoShares(p, s)
  {
  }

  lemma SettledPositionSound(s: State, i: nat, q: Position, m: Move)
    requires i < |s.ps| && Aggregated(s)
    requires q.snapColl == s.redist.coll.level && q.snapArt == s.redist.art.level
    requires Settle(s, i, s.ps[i], q, m).Ok?
    ensures PositionSound(Settle(s, i, s.ps[i], q, m).value.ps[i], s.redist)
  {
    hide Total;
    var ink := Settle(s, i, s.ps[i], q, m).value.ps[i].ink;
    if s.collSnapshot > 0 {
      StakeWithinCollateral(ink, s.stakesSnapshot, s.collSnapshot);
    }
  }

  // ----- closing a position out ------------------------------------------------------------------

  lemma SharesNonNegative(p: Position, redist: RedistState)
    requires PositionSound(p, redist)
    ensures ShareOf(p, redist.art.level, p.snapArt) >= 0 && ShareOf(p, redist.coll.level, p.snapColl) >= 0
  {
    NonNegativeProduct(p.stake, redist.art.level - p.snapArt);
    NonNegativeProduct(p.stake, redist.coll.level - p.snapColl);
  }

  lemma NonNegativeProduct(a: int, b: int)
    requires a >= 0 && b >= 0
    ensures a * b >= 0
  {
  }

  /** Recorded collateral, and so every stake, is within the collateral counted. */
  lemma StakesWithinCollateral(s: State, b: Books)
    requires PositionsSound(s) && Balanced(s.agg, s.totalColl, s.clock, s.redist, s.ps, b)
    requires b.coll.rounding >= 0
    ensures Total(Stakes(), s.ps) <= Total(Inks(), s.ps) <= s.totalColl
  {
    hide Total, ShareOf;
    forall p | p in s.ps
      ensures Stakes()(p) * 1 <= Inks()(p)
      ensures CollShares(s.redist.coll.level)(p) >= 0
    {
      SharesNonNegative(p, s.redist);
    }
    TotalMonotone(Stakes(), Inks(), s.ps, 1);
    TotalNonNegative(CollShares(s.redist.coll.level), s.ps);
  }

  /** The market with position `i` emptied as `z`, before any of it is spread. Its debt may exceed the
      aggregate here if the clock ran backwards, so the aggregate is left to the books. */
  ghost function WithoutVictim(s: State, i: nat, q: Position, z: Position): State
    requires i < |s.ps| && q.ink <= s.totalColl
    requires s.ps[i].stake <= s.totalStakes && 0 <= Weight(s.ps[i]) <= s.weighted
  {
    s.(ps := s.ps[i := z], totalColl := s.totalColl - q.ink,
       totalStakes := s.totalStakes - s.ps[i].stake, weighted := s.weighted - Weight(s.ps[i]))
  }

  lemma EmptyWeighsNothing(z: Position)
    requires z.debt == 0
    ensures Weight(z) == 0
  {
  }

  /** The victim out and its debt spread: positions, sums and books, before the stake snapshots. */
  lemma CloseOutBalances(s: State, b: Books, i: nat, backing: Backing, now: int)
    requires i < |s.ps| && Core(s, b) && Realize(s, s.ps[i], now).Ok?
    requires CloseOut(s, i, s.ps[i], Realize(s, s.ps[i], now).value, backing).Ok?
    ensures var q := Realize(s, s.ps[i], now).value;
            var s' := CloseOut(s, i, s.ps[i], q, backing).value;
            var fed := RedistributedDebt(s, q, backing);
            && |s'.ps| == |s.ps|
            && Balanced(s'.agg, s'.totalColl, s'.clock, s'.redist, s'.ps,
                        BooksTouched(s, b, s.ps[i], s'.ps[i], now, fed, if fed > 0 then backing.collRest else 0))
            && s'.weighted == Total(Weights(), s'.ps) && s'.totalStakes == Total(Stakes(), s'.ps)
            && PositionsSound(s') && SupplyIdentity(s')
  {
    hide Total, Realize, PositionSound, PositionsSound, Balanced, Redistribute, Weight, Recharge;
    var q := Realize(s, s.ps[i], now).value;
    var s' := CloseOut(s, i, s.ps[i], q, backing).value;
    var z := s'.ps[i];
    RealizeSplits(s, s.ps[i], now);
    EmptyWeighsNothing(z);
    NothingPending(s, z);
    WeightIs(s.ps[i]);
    var mid := WithoutVictim(s, i, q, z);
    var b1 := BooksTouched(s, b, s.ps[i], z, now, 0, 0);
    TouchBalances(s, b, i, z, now, s.agg - q.debt, mid.totalColl);
    ReplaceKeepsAggregates(s, mid, i, z);
    var fed := RedistributedDebt(s, q, backing);
    if fed > 0 {
      SpreadBalances(s.agg - q.debt, mid.totalColl, s.clock, s.redist, mid.ps, b1, mid.totalStakes,
                     backing.collRest, fed, s'.redist);
    }
    EmptiedSound(z, s'.redist);
    ReplaceKeepsPositions(s, s', i, z);
  }

  lemma WeightIs(p: Position)
    ensures Weight(p) == p.debt * p.rate >= 0
  {
  }

  lemma EmptiedSound(z: Position, redist: RedistState)
    requires z.stake == 0 && z.snapColl == redist.coll.level && z.snapArt == redist.art.level
    ensures PositionSound(z, redist)
  {
  }

  lemma CloseOutKeeps(s: State, b: Books, i: nat, backing: Backing, now: int)
    requires i < |s.ps| && Core(s, b) && b.coll.rounding >= 0 && Realize(s, s.ps[i], now).Ok?
    requires CloseOut(s, i, s.ps[i], Realize(s, s.ps[i], now).value, backing).Ok?
    ensures var q := Realize(s, s.ps[i], now).value;
            var s' := CloseOut(s, i, s.ps[i], q, backing).value;
            var fed := RedistributedDebt(s, q, backing);
            && |s'.ps| == |s.ps| && s'.totalStakes <= s'.totalColl
            && Core(s', BooksTouched(s, b, s.ps[i], s'.ps[i], now, fed, if fed > 0 then backing.collRest else 0))
  {
    hide Total, Realize, PositionSound, Balanced, Redistribute, Weight, BooksTouched, RedistributedDebt;
    var q := Realize(s, s.ps[i], now).value;
    var s' := CloseOut(s, i, s.ps[i], q, backing).value;
    var fed := RedistributedDebt(s, q, backing);
    var coll := if fed > 0 then backing.collRest else 0;
    CloseOutBalances(s, b, i, backing, now);
    TouchRounds(s, b, s.ps[i], s'.ps[i], now, fed, coll);
    StakesWithinCollateral(s', BooksTouched(s, b, s.ps[i], s'.ps[i], now, fed, coll));
  }

  // ----- every operation -------------------------------------------------------------------------

  lemma OpenKeeps(s: State, b: Books, rate: nat, now: int)
    requires Core(s, b)
    ensures Core(Apply(s, OpenPosition(rate), now).value, b)
  {
    hide Total;
    var s' := Apply(s, OpenPosition(rate), now).value;
    var p := s'.ps[|s.ps|];
    TotalAppend(Weights(), s.ps, p);
    TotalAppend(Stakes(), s.ps, p);
    TotalAppend(Inks(), s.ps, p);
    TotalAppend(Debts(), s.ps, p);
    TotalAppend(Interests(s.clock), s.ps, p);
    TotalAppend(ArtShares(s.redist.art.level), s.ps, p);
    TotalAppend(CollShares(s.redist.coll.level), s.ps, p);
  }

  lemma MintKeeps(s: State, b: Books, cuts: Cuts)
    requires Core(s, b) && MintInterest(s, cuts).Ok?
    ensures Core(MintInterest(s, cuts).value, b)
  {
    hide Total, PositionSound, Cut, Balanced;
  }

  lemma CountKeeps(s: State, b: Books)
    requires Core(s, b)
    ensures Core(s, b.(ops := b.ops + 1))
  {
    hide Total, PositionSound;
  }

  lemma TouchKeepsInv(s: State, b: Books, i: nat, change: Change, now: int)
    requires Inv(s, b) && Apply(s, Touch(i, change), now).Ok?
    ensures Inv(Apply(s, Touch(i, change), now).value, BooksNext(s, b, Touch(i, change), now))
  {
    hide Settle, Realize, PositionSound, Aggregated, SupplyIdentity, Balanced, BooksTouched, BooksAccrued, MoveOf;
    var s1 := Accrue(s, now).value;
    var b1 := BooksAccrued(s, b.(ops := b.ops + 1), now);
    CountKeeps(s, b);
    AccrueKeeps(s, b.(ops := b.ops + 1), now);
    AccrueCounts(s, b.(ops := b.ops + 1), now);
    var q := Realize(s1, s1.ps[i], now).value;
    SettleKeeps(s1, b1, i, MoveOf(q, change), now);
    assert PositionSound(s1.ps[i], s1.redist);
    TouchRounds(s1, b1, s1.ps[i], Apply(s, Touch(i, change), now).value.ps[i], now, 0, 0);
  }

  lemma AccrueCounts(s: State, b: Books, now: int)
    ensures var b' := BooksAccrued(s, b, now); b'.ops == b.ops && b'.art == b.art && b'.coll == b.coll
    ensures Accrue(s, now).Ok? ==> Accrue(s, now).value.ps == s.ps
  {
  }

  lemma LiquidateKeepsInv(s: State, b: Books, i: nat, backing: Backing, now: int)
    requires Inv(s, b) && Apply(s, Liquidate(i, backing), now).Ok?
    ensures Inv(Apply(s, Liquidate(i, backing), now).value, BooksNext(s, b, Liquidate(i, backing), now))
  {
    hide CloseOut, Realize, PositionSound, Aggregated, SupplyIdentity, Balanced, BooksTouched, BooksAccrued,
         RedistributedDebt;
    var s1 := Accrue(s, now).value;
    var b1 := BooksAccrued(s, b.(ops := b.ops + 1), now);
    CountKeeps(s, b);
    AccrueKeeps(s, b.(ops := b.ops + 1), now);
    AccrueCounts(s, b.(ops := b.ops + 1), now);
    var q := Realize(s1, s1.ps[i], now).value;
    CloseOutKeeps(s1, b1, i, backing, now);
    var fed := RedistributedDebt(s1, q, backing);
    assert PositionSound(s1.ps[i], s1.redist);
    TouchRounds(s1, b1, s1.ps[i], Apply(s, Liquidate(i, backing), now).value.ps[i], now,
                fed, if fed > 0 then backing.collRest else 0);
  }

  /** One operation at any time, whether it succeeds or is rolled back, keeps the invariant. */
  lemma NextKeepsInv(s: State, b: Books, op: Op, now: int)
    requires Inv(s, b)
    ensures Inv(Next(s, op, now), BooksNext(s, b, op, now))
  {
    hide PositionSound, Settle, CloseOut, Realize, MintInterest, BooksTouched, Total;
    if Apply(s, op, now).Ok? {
      match op
      case OpenPosition(rate) => OpenKeeps(s, b.(ops := b.ops + 1), rate, now);
      case Refresh(cuts) =>
        AccrueKeeps(s, b.(ops := b.ops + 1), now);
        MintKeeps(Accrue(s, now).value, BooksAccrued(s, b.(ops := b.ops + 1), now), cuts);
      case SettleBadDebt(burned) =>
      case Touch(i, change) => TouchKeepsInv(s, b, i, change, now);
      case Liquidate(i, backing) => LiquidateKeepsInv(s, b, i, backing, now);
      case Shutdown => AccrueKeeps(s, b.(ops := b.ops + 1), now);
    }
  }

  /** From an empty market every run keeps the invariant, whatever the clock says at each step. */
  lemma {:induction false} RunKeepsInv(clock: int, steps: seq<Step>)
    ensures Inv(Run(Fresh(clock), steps), RunBooks(clock, steps))
  {
    hide Inv, Next, BooksNext;
    if steps == [] {
      FreshInv(clock);
    } else {
      var last := |steps| - 1;
      RunKeepsInv(clock, steps[..last]);
      NextKeepsInv(Run(Fresh(clock), steps[..last]), RunBooks(clock, steps[..last]), steps[last].op, steps[last].now);
    }
  }

  lemma FreshInv(clock: int)
    ensures Inv(Fresh(clock), EMPTY_BOOKS)
  {
    hide Inv;
    EmptyInv(Fresh(clock), EMPTY_BOOKS);
  }

  lemma EmptyInv(s: State, b: Books)
    requires s.ps == [] && s.agg == s.totalColl == s.weighted == s.totalStakes == 0 && s.collSnapshot == 0
    requires s.minted == 0 && s.unminted == s.badDebt == 0 && s.redist.art.error == s.redist.coll.error == 0
    requires b.interest == Accrual(0, 0, 0, 0) && b.art == b.coll == Stream(0, 0, 0)
    ensures Inv(s, b)
  {
    hide Total, Weight, ShareOf, InterestOwed;
    TotalOfNone(s.clock, s.redist.art.level, s.redist.coll.level);
    NothingRounded(b);
  }

  lemma TotalOfNone(clock: int, art: int, coll: int)
    ensures Total(Weights(), []) == Total(Stakes(), []) == Total(Inks(), []) == Total(Debts(), []) == 0
    ensures Total(Interests(clock), []) == Total(ArtShares(art), []) == Total(CollShares(coll), []) == 0
  {
  }

  lemma NothingRounded(b: Books)
    requires b.interest.rounding == b.art.rounding == b.coll.rounding == 0
    ensures Rounded(b)
  {
  }

  // ----- runs whose clock does not run backwards -------------------------------------------------

  /** Time the program sees: no earlier than the market's clock, unless interest has stopped. */
  predicate Timely(s: State, now: int) {
    s.shutdown || s.clock <= now
  }

  /** Every step of a run happens no earlier than the market's clock at that point. */
  predicate TimelyRun(s: State, steps: seq<Step>) {
    steps == [] ||
    var last := |steps| - 1;
    TimelyRun(s, steps[..last]) && Timely(Run(s, steps[..last]), steps[last].now)
  }

  /** A touch at the market's clock charges nothing twice, whatever it changes. */
  lemma RechargesNothing(s: State, p: Position, p': Position, now: int)
    requires CapOf(s, now) == s.clock
    requires p.debt > 0 ==> p.since <= s.clock
    ensures Recharge(s, p, p', now) == 0
  {
    assert Weight(p') * 0 == 0;
    if p.debt == 0 {
      assert Weight(p) == 0;
    }
  }

  lemma AccrueKeepsOnTime(s: State, b: Books, now: int)
    requires OnTime(s, b) && Timely(s, now) && Accrue(s, now).Ok?
    ensures var s1 := Accrue(s, now).value;
            OnTime(s1, BooksAccrued(s, b, now)) && CapOf(s1, now) == s1.clock
  {
  }

  /** Replacing one position by one brought to the market's clock keeps the rest on time. */
  lemma TouchKeepsOnTime(s: State, s': State, b: Books, i: nat, now: int, fedArt: int, fedColl: int)
    requires OnTime(s, b) && CapOf(s, now) == s.clock == s'.clock
    requires i < |s.ps| == |s'.ps| && s'.ps == s.ps[i := s'.ps[i]] && s'.ps[i].since == s.clock
    ensures OnTime(s', BooksTouched(s, b, s.ps[i], s'.ps[i], now, fedArt, fedColl))
  {
    hide Recharge, Weight, ShareOf, InterestCharged, ArtFolded, CollFolded;
    RechargesNothing(s, s.ps[i], s'.ps[i], now);
  }

  lemma SettledFields(s: State, i: nat, q: Position, m: Move)
    requires i < |s.ps| && Settle(s, i, s.ps[i], q, m).Ok?
    ensures var s' := Settle(s, i, s.ps[i], q, m).value;
            && |s'.ps| == |s.ps| && s'.clock == s.clock && s'.redist == s.redist
            && s'.ps == s.ps[i := s'.ps[i]] && s'.ps[i].since == q.since
            && Covered(q, m) && s'.ps[i] == BookedPosition(q, m).(stake := s'.ps[i].stake)
            && s'.agg - s.agg == s'.ps[i].debt - q.debt
  {
    hide WeightedDebt, ComputeStake;
  }

  lemma ClosedFields(s: State, i: nat, q: Position, b: Backing)
    requires i < |s.ps| && CloseOut(s, i, s.ps[i], q, b).Ok?
    ensures var s' := CloseOut(s, i, s.ps[i], q, b).value;
            && |s'.ps| == |s.ps| && s'.clock == s.clock
            && s'.ps == s.ps[i := s'.ps[i]] && s'.ps[i].since == q.since
  {
    hide WeightedDebt, Redistribute;
  }

  lemma NextKeepsOnTime(s: State, b: Books, op: Op, now: int)
    requires OnTime(s, b) && Timely(s, now)
    ensures OnTime(Next(s, op, now), BooksNext(s, b, op, now))
  {
    hide Settle, CloseOut, Realize, MintInterest, BooksTouched, BooksAccrued, Accrue, RedistributedDebt;
    if Apply(s, op, now).Ok? && !op.OpenPosition? && !op.SettleBadDebt? {
      var s1, b1 := Accrue(s, now).value, BooksAccrued(s, b.(ops := b.ops + 1), now);
      AccrueKeepsOnTime(s, b.(ops := b.ops + 1), now);
      match op
      case Refresh(cuts) => MintLeaves(s1, cuts);
      case Touch(i, change) =>
        AccrueCounts(s, b, now);
        RealizeSplits(s1, s1.ps[i], now);
        var q := Realize(s1, s1.ps[i], now).value;
        SettledFields(s1, i, q, MoveOf(q, change));
        TouchKeepsOnTime(s1, Next(s, op, now), b1, i, now, 0, 0);
      case Liquidate(i, backing) =>
        AccrueCounts(s, b, now);
        RealizeSplits(s1, s1.ps[i], now);
        var q := Realize(s1, s1.ps[i], now).value;
        ClosedFields(s1, i, q, backing);
        var fed := RedistributedDebt(s1, q, backing);
        TouchKeepsOnTime(s1, Next(s, op, now), b1, i, now, fed, if fed > 0 then backing.collRest else 0);
      case Shutdown =>
    }
  }

  lemma MintLeaves(s: State, cuts: Cuts)
    requires MintInterest(s, cuts).Ok?
    ensures MintInterest(s, cuts).value.ps == s.ps && MintInterest(s, cuts).value.clock == s.clock
  {
    hide Cut;
  }

  lemma {:induction false} RunKeepsOnTime(clock: int, steps: seq<Step>)
    requires TimelyRun(Fresh(clock), steps)
    ensures OnTime(Run(Fresh(clock), steps), RunBooks(clock, steps))
  {
    hide OnTime, Next, Timely, BooksNext;
    if steps == [] {
      FreshOnTime(clock);
    } else {
      var last := |steps| - 1;
      RunKeepsOnTime(clock, steps[..last]);
      NextKeepsOnTime(Run(Fresh(clock), steps[..last]), RunBooks(clock, steps[..last]),
                      steps[last].op, steps[last].now);
    }
  }

  lemma FreshOnTime(clock: int)
    ensures OnTime(Fresh(clock), EMPTY_BOOKS)
  {
  }
}
