/** What the market promises over every run. */
module MarketTheorems {
  import opened Arith
  import opened FixedPoint
  import opened Market
  import opened MarketInvariant
  import opened MarketRuns
  import opened MarketSums
  import opened Redistribution

  /** At any clock the weighted sum kept in O(1) is exactly the sum over all positions. While the clock does
      not run backwards, the aggregate debt is never below what all positions owe together, interest and
      pending redistribution included, and never above it by more than three units per operation. */
  lemma AggregateDebtTracksPositions(clock: int, steps: seq<Step>)
    ensures var s := Run(Fresh(clock), steps); s.weighted == Total(Weights(), s.ps)
    ensures TimelyRun(Fresh(clock), steps) ==>
              var s := Run(Fresh(clock), steps);
              && AllOwed(s) <= s.agg * DEBT_UNIT <= AllOwed(s) + 3 * |steps| * DEBT_UNIT
              && Total(Debts(), s.ps) <= s.agg
  {
    hide Run, TimelyRun, RunBooks, Balanced, PositionsSound, Rounded, OnTime;
    var s, b := Run(Fresh(clock), steps), RunBooks(clock, steps);
    RunKeepsInv(clock, steps);
    if TimelyRun(Fresh(clock), steps) {
      RunKeepsOnTime(clock, steps);
      assert b.interest.recharged == 0 by {
        NothingRecharged(s, b);
      }
      InvCovers(s, b);
      DebtsWithinAggregate(s, b);
    }
  }

  lemma NothingRecharged(s: State, b: Books)
    requires OnTime(s, b)
    ensures b.interest.recharged == 0
  {
  }

  /** At any clock a market's debt is what positions record, interest booked and not yet charged, and debt
      redistributed and not yet folded in; and its collateral likewise. */
  lemma AggregatesInParts(clock: int, steps: seq<Step>)
    ensures var s, b := Run(Fresh(clock), steps), RunBooks(clock, steps);
            && s.agg == Total(Debts(), s.ps) + (b.interest.booked - b.interest.realized) + (b.art.fed - b.art.paid)
            && s.totalColl == Total(Inks(), s.ps) + (b.coll.fed - b.coll.paid)
            && 0 <= b.art.paid <= b.art.fed && 0 <= b.coll.paid <= b.coll.fed
  {
    hide Run, RunBooks, PositionSound, Total;
    RunKeepsInv(clock, steps);
    var s, b := Run(Fresh(clock), steps), RunBooks(clock, steps);
    PendingIsNonNegative(s);
    PaymentsNonNegative(clock, steps);
  }

  lemma PendingIsNonNegative(s: State)
    requires PositionsSound(s)
    ensures Total(ArtShares(s.redist.art.level), s.ps) >= 0 && Total(CollShares(s.redist.coll.level), s.ps) >= 0
  {
    hide Total, ShareOf, PositionSound;
    forall p | p in s.ps
      ensures ArtShares(s.redist.art.level)(p) >= 0 && CollShares(s.redist.coll.level)(p) >= 0
    {
      SharesNonNegative(p, s.redist);
    }
    TotalNonNegative(ArtShares(s.redist.art.level), s.ps);
    TotalNonNegative(CollShares(s.redist.coll.level), s.ps);
  }

  lemma {:induction false} PaymentsNonNegative(clock: int, steps: seq<Step>)
    ensures var b := RunBooks(clock, steps); b.art.paid >= 0 && b.coll.paid >= 0
  {
    hide BooksNext, Run;
    if steps != [] {
      var last := |steps| - 1;
      PaymentsNonNegative(clock, steps[..last]);
      StepPays(Run(Fresh(clock), steps[..last]), RunBooks(clock, steps[..last]), steps[last].op, steps[last].now);
    }
  }

  lemma StepPays(s: State, b: Books, op: Op, now: int)
    ensures var b' := BooksNext(s, b, op, now); b'.art.paid >= b.art.paid && b'.coll.paid >= b.coll.paid
  {
    hide Settle, CloseOut, Realize, MintInterest, RedistributedDebt, ArtFolded, CollFolded;
  }

  /** Redistribution loses nothing over any run at any clock: what liquidations fed in is what touches have
      folded into positions, what is still pending for them, and the residual carried, to within one unit
      per operation left behind by floors; for debt and for collateral. */
  lemma RedistributionConserves(clock: int, steps: seq<Step>)
    ensures var s, st := Run(Fresh(clock), steps), RunBooks(clock, steps).art;
            var placed := st.paid * WAD + Total(ArtShares(s.redist.art.level), s.ps) + s.redist.art.error;
            placed <= st.fed * WAD <= placed + |steps| * WAD
    ensures var s, st := Run(Fresh(clock), steps), RunBooks(clock, steps).coll;
            var placed := st.paid * WAD + Total(CollShares(s.redist.coll.level), s.ps) + s.redist.coll.error;
            placed <= st.fed * WAD <= placed + |steps| * WAD
    ensures forall p <- Run(Fresh(clock), steps).ps ::
              var s := Run(Fresh(clock), steps);
              ShareOf(p, s.redist.art.level, p.snapArt) >= 0 && ShareOf(p, s.redist.coll.level, p.snapColl) >= 0
  {
    hide Run, RunBooks, PositionSound, Total, ShareOf;
    RunKeepsInv(clock, steps);
    var s := Run(Fresh(clock), steps);
    forall p | p in s.ps
      ensures ShareOf(p, s.redist.art.level, p.snapArt) >= 0 && ShareOf(p, s.redist.coll.level, p.snapColl) >= 0
    {
      SharesNonNegative(p, s.redist);
    }
  }

  /** Interest booked for the whole market is never short of interest charged to positions and still due from
      them, and exceeds it by less than two units per operation. At any clock the same holds of what was
      booked together with what was charged twice, and a clock that does not run backwards charges nothing
      twice. */
  lemma InterestNeverShort(clock: int, steps: seq<Step>)
    ensures var s, a := Run(Fresh(clock), steps), RunBooks(clock, steps).interest;
            var due := a.realized * INTEREST_DENOM + Total(Interests(s.clock), s.ps);
            due <= a.booked * INTEREST_DENOM + a.recharged <= due + 2 * |steps| * INTEREST_DENOM
    ensures TimelyRun(Fresh(clock), steps) ==>
              var s, a := Run(Fresh(clock), steps), RunBooks(clock, steps).interest;
              a.recharged == 0 && forall p <- s.ps :: InterestOwed(p, s.clock) >= 0
  {
    hide Run, RunBooks, TimelyRun, PositionSound, Total, InterestOwed;
    var s, b := Run(Fresh(clock), steps), RunBooks(clock, steps);
    RunKeepsInv(clock, steps);
    if TimelyRun(Fresh(clock), steps) {
      RunKeepsOnTime(clock, steps);
      forall p | p in s.ps
        ensures InterestOwed(p, s.clock) >= 0
      {
        InterestNonNegative(p, s.clock);
      }
    }
  }

  lemma InterestNonNegative(p: Position, clock: int)
    requires p.debt > 0 ==> p.since <= clock
    ensures InterestOwed(p, clock) >= 0
  {
    if p.debt > 0 {
      NonNegativeProduct(p.debt, p.rate);
      NonNegativeProduct(Weight(p), clock - p.since);
    }
  }

  lemma DebtsWithinAggregate(s: State, b: Books)
    requires Inv(s, b) && OnTime(s, b)
    ensures Total(Debts(), s.ps) <= s.agg
  {
    hide Total, PositionsSound, InterestOwed;
    forall p | p in s.ps
      ensures Interests(s.clock)(p) >= 0
    {
      InterestNonNegative(p, s.clock);
    }
    TotalNonNegative(Interests(s.clock), s.ps);
    PendingIsNonNegative(s);
  }

  /** At any clock the collateral counted for positions is never below what they hold together, and never
      above it by more than one unit per operation. */
  lemma CollateralTracksPositions(clock: int, steps: seq<Step>)
    ensures var s := Run(Fresh(clock), steps);
            && AllHeld(s) <= s.totalColl * WAD <= AllHeld(s) + |steps| * WAD
            && Total(Inks(), s.ps) <= s.totalColl
            && s.totalStakes == Total(Stakes(), s.ps) <= s.totalColl
  {
    hide Run, RunBooks, PositionsSound, Balanced, AllHeld;
    var s, b := Run(Fresh(clock), steps), RunBooks(clock, steps);
    RunKeepsInv(clock, steps);
    InvCovers(s, b);
    StakesWithinCollateral(s, b);
  }

  /** fUSD minted through the market is its debt less the interest not yet minted, plus the bad debt
      that no position owes. */
  lemma SupplyIsBacked(clock: int, steps: seq<Step>)
    ensures var s := Run(Fresh(clock), steps);
            s.minted == s.agg - s.unminted + s.badDebt
  {
    hide Run, RunBooks, PositionsSound, Balanced;
    RunKeepsInv(clock, steps);
  }

  /** After any run at any clock, a touch is never turned away because the weighted sum, the total of stakes
      or the collateral runs short; and, while the clock does not run backwards, neither because the debt
      does: what a position may give up, the aggregates can give up too. */
  lemma TouchNeverUnderflows(clock: int, steps: seq<Step>, i: nat, change: Change, now: int)
    requires i < |Run(Fresh(clock), steps).ps|
    requires Accrue(Run(Fresh(clock), steps), now).Ok?
    requires var s := Accrue(Run(Fresh(clock), steps), now).value; Realize(s, s.ps[i], now).Ok?
    ensures var s := Accrue(Run(Fresh(clock), steps), now).value;
            var p := Realize(s, s.ps[i], now).value;
            var m := MoveOf(p, change);
            && Weight(s.ps[i]) <= s.weighted
            && p.stake <= s.totalStakes
            && (m.inkDown <= p.ink + m.inkUp ==> m.inkDown <= s.totalColl + m.inkUp)
            && (TimelyRun(Fresh(clock), steps) && Timely(Run(Fresh(clock), steps), now) ==>
                  m.down <= p.debt + m.up ==> m.down <= s.agg + m.up)
  {
    hide Run, TimelyRun, Realize, Accrue, Weight, Timely, MoveOf, RunBooks, Core, OnTime, BooksAccrued, CapOf;
    var s0, b0 := Run(Fresh(clock), steps), RunBooks(clock, steps);
    RunKeepsInv(clock, steps);
    AccruedInv(s0, b0, now);
    var s, b := Accrue(s0, now).value, BooksAccrued(s0, b0, now);
    CoversEach(s, b, i, now);
    if TimelyRun(Fresh(clock), steps) && Timely(s0, now) {
      RunKeepsOnTime(clock, steps);
      AccrueKeepsOnTime(s0, b0, now);
      DebtCovered(s, b, i, now);
    }
  }

  /** The market just before one of its positions is brought current. */
  lemma AccruedInv(s: State, b: Books, now: int)
    requires Inv(s, b) && Accrue(s, now).Ok?
    ensures var (s1, b1) := (Accrue(s, now).value, BooksAccrued(s, b, now));
            Core(s1, b1) && NoRoundingAgainst(b1)
    ensures Accrue(s, now).value.ps == s.ps
  {
    hide Core, Accrue, BooksAccrued;
    AccrueKeeps(s, b, now);
    AccrueCounts(s, b, now);
  }

  ghost predicate NoRoundingAgainst(b: Books) {
    b.interest.rounding >= 0 && b.art.rounding >= 0 && b.coll.rounding >= 0
  }

  /** At any clock a market holds what one position holds, stakes and weighs. */
  lemma CoversEach(s: State, b: Books, i: nat, now: int)
    requires i < |s.ps| && Core(s, b) && NoRoundingAgainst(b)
    requires Realize(s, s.ps[i], now).Ok?
    ensures var q := Realize(s, s.ps[i], now).value;
            && q.ink <= s.totalColl && q.stake == s.ps[i].stake <= s.totalStakes
            && 0 <= Weight(s.ps[i]) <= s.weighted
  {
    hide Total, Realize, PositionSound, ShareOf, Weight;
    var p := s.ps[i];
    forall p | p in s.ps
      ensures Weights()(p) >= 0
      ensures CollShares(s.redist.coll.level)(p) >= 0
    {
      SharesNonNegative(p, s.redist);
      WeightIs(p);
    }
    RealizeSplits(s, p, now);
    FloorsLeave(s, p, now);
    TermWithinTotal(Weights(), s.ps, i);
    TermWithinTotal(Stakes(), s.ps, i);
    TermWithinTotal(Inks(), s.ps, i);
    TermWithinTotal(CollShares(s.redist.coll.level), s.ps, i);
  }

  /** And what it owes, if the clock has not run backwards. */
  lemma DebtCovered(s: State, b: Books, i: nat, now: int)
    requires i < |s.ps| && Core(s, b) && NoRoundingAgainst(b)
    requires Realize(s, s.ps[i], now).Ok?
    requires OnTime(s, b) && CapOf(s, now) == s.clock
    ensures Realize(s, s.ps[i], now).value.debt <= s.agg
  {
    hide Total, Realize, PositionSound, ShareOf, Weight, InterestOwed, InterestCharged, ArtFolded, CollFolded;
    var p := s.ps[i];
    forall p | p in s.ps
      ensures Interests(s.clock)(p) >= 0
      ensures ArtShares(s.redist.art.level)(p) >= 0
    {
      SharesNonNegative(p, s.redist);
      InterestNonNegative(p, s.clock);
    }
    RealizeSplits(s, p, now);
    FloorsLeave(s, p, now);
    PeriodOnTime(s, p, now);
    TermWithinTotal(Debts(), s.ps, i);
    TermWithinTotal(Interests(s.clock), s.ps, i);
    TermWithinTotal(ArtShares(s.redist.art.level), s.ps, i);
  }

  lemma PeriodOnTime(s: State, p: Position, now: int)
    requires CapOf(s, now) == s.clock && (p.debt > 0 ==> p.since <= s.clock)
    ensures Weight(p) * PeriodOf(s, p, now) == InterestOwed(p, s.clock)
  {
    if p.debt == 0 {
      assert Weight(p) == 0;
    }
  }

  /** No counter the change moves passes its width. */
  predicate WithinWidths(s: State, i: nat, p: Position, m: Move)
    requires i < |s.ps| && m.down <= p.debt + m.up && m.inkDown <= p.ink + m.inkUp
  {
    var debt, ink := p.debt + m.up - m.down, p.ink + m.inkUp - m.inkDown;
    && debt <= U128_MAX && ink <= U64_MAX
    && s.agg + m.up <= U128_MAX && s.unminted + m.fee <= U128_MAX && s.totalColl + m.inkUp <= U128_MAX
    && s.ps[i].debt * s.ps[i].rate <= U128_MAX && s.weighted + debt * m.rate <= U128_MAX
    && s.totalStakes + ink <= U128_MAX
  }

  /** The aggregate holds what is to come off it, or the clock has not run backwards. */
  ghost predicate DebtAtHand(s: State, b: Books, now: int, off: int) {
    off <= s.agg || (OnTime(s, b) && CapOf(s, now) == s.clock)
  }

  /** A change goes through if it takes off no more than the position has and stays within widths;
      taking off more is always refused. No other failure is reachable, at any clock but for the debt
      aggregate, and while the clock does not run backwards not for that either. */
  lemma SettleSucceeds(s: State, b: Books, i: nat, p: Position, m: Move, now: int)
    requires i < |s.ps| && Core(s, b) && NoRoundingAgainst(b) && Realize(s, s.ps[i], now) == Ok(p)
    ensures m.down > p.debt + m.up || m.inkDown > p.ink + m.inkUp ==> Settle(s, i, s.ps[i], p, m) == Err(Refused)
    ensures m.down <= p.debt + m.up && m.inkDown <= p.ink + m.inkUp && WithinWidths(s, i, p, m)
            && DebtAtHand(s, b, now, m.down - m.up)
            ==> Settle(s, i, s.ps[i], p, m).Ok?
  {
    hide PositionsSound, Balanced, Realize, OnTime, NoRoundingAgainst;
    CoversEach(s, b, i, now);
    if m.down <= p.debt + m.up && m.inkDown <= p.ink + m.inkUp && WithinWidths(s, i, p, m)
       && DebtAtHand(s, b, now, m.down - m.up) {
      if m.down - m.up > s.agg {
        DebtCovered(s, b, i, now);
      }
      StakeFits(s, p.ink + m.inkUp - m.inkDown);
      WeightIs(p.(debt := p.debt + m.up - m.down, rate := m.rate));
    }
  }

  lemma StakeFits(s: State, ink: nat)
    requires Aggregated(s) && ink <= U64_MAX
    ensures var stake := ComputeStake(ink, s.stakesSnapshot, s.collSnapshot); stake.Some? && stake.value <= ink
  {
    if s.collSnapshot > 0 {
      StakeWithinCollateral(ink, s.stakesSnapshot, s.collSnapshot);
    }
  }

  /** A position in debt can always be liquidated, however little its collateral is worth and whatever
      covers it, until a counter passes its width: the aggregates never run short, but for the debt
      aggregate of a clock that ran backwards. */
  lemma LiquidationNeverStalls(s: State, b: Books, i: nat, p: Position, backing: Backing, now: int)
    requires i < |s.ps| && Core(s, b) && NoRoundingAgainst(b) && Realize(s, s.ps[i], now) == Ok(p)
    requires DebtAtHand(s, b, now, p.debt - RedistributedDebt(s, p, backing))
    requires p.debt > 0 && backing.collRest <= p.ink
    requires s.ps[i].debt * s.ps[i].rate <= U128_MAX && s.badDebt + p.debt <= U128_MAX
    requires RedistributedDebt(s, p, backing) > 0 ==>
               Redistribute(s.redist, s.totalStakes - p.stake, backing.collRest, RedistributedDebt(s, p, backing)).Ok?
    ensures CloseOut(s, i, s.ps[i], p, backing).Ok?
  {
    hide PositionsSound, Balanced, Aggregated, Realize, OnTime, NoRoundingAgainst, Redistribute;
    CoversEach(s, b, i, now);
    if p.debt - RedistributedDebt(s, p, backing) > s.agg {
      DebtCovered(s, b, i, now);
    }
  }

  /** Liquidated debt reaches every other position in proportion to its stake, to within one
      accumulator unit per unit staked. */
  lemma RedistributionIsProRata(s: State, stakes: nat, coll: nat, art: nat, p: Position, clock: int)
    requires stakes > 0 && Redistribute(s.redist, stakes, coll, art).Ok?
    ensures var r := Redistribute(s.redist, stakes, coll, art).value;
            var gain := ShareOf(p, r.art.level, p.snapArt) - ShareOf(p, s.redist.art.level, p.snapArt);
            && gain * stakes <= p.stake * (art * WAD + s.redist.art.error)
            && p.stake * (art * WAD + s.redist.art.error) <= gain * stakes + p.stake * stakes
            && Owed(p, clock, r.art.level) - Owed(p, clock, s.redist.art.level) == gain * INTEREST_DENOM
  {
    hide Accumulate;
    var r := Redistribute(s.redist, stakes, coll, art).value;
    AccumulateExact(s.redist.art, stakes, art);
    ShareMoves(p.stake, s.redist.art.level - p.snapArt, r.art.level - s.redist.art.level,
               stakes, art * WAD + s.redist.art.error, r.art.error);
  }

  lemma ShareMoves(stake: nat, before: int, d: nat, stakes: nat, total: nat, residual: nat)
    requires d * stakes + residual == total && residual < stakes
    ensures stake * (before + d) - stake * before == stake * d
    ensures stake * d * stakes <= stake * total <= stake * d * stakes + stake * stakes
  {
    DistributeRight(stake, before, d);
    assert stake * d * stakes == stake * (d * stakes);
    DistributeRight(stake, d * stakes, residual);
    MulMonoNat(residual, stakes, stake);
    assert stake * residual <= stake * stakes;
  }

  /** An emptied position, after any run, has nothing pending: closing it loses nothing. */
  lemma ClosingLosesNothing(clock: int, steps: seq<Step>, i: nat)
    requires i < |Run(Fresh(clock), steps).ps|
    requires var p := Run(Fresh(clock), steps).ps[i]; p.debt == 0 && p.ink == 0
    ensures var s := Run(Fresh(clock), steps);
            && s.ps[i].stake == 0
            && Owed(s.ps[i], s.clock, s.redist.art.level) == 0
            && Held(s.ps[i], s.redist.coll.level) == 0
  {
    hide Run, RunBooks, Balanced, Aggregated;
    RunKeepsInv(clock, steps);
    var s := Run(Fresh(clock), steps);
    assert s.ps[i] in s.ps && PositionSound(s.ps[i], s.redist);
    EmptyOwesNothing(s.ps[i], s);
  }

  lemma EmptyOwesNothing(z: Position, s: State)
    requires z.debt == 0 && z.ink == 0 && z.stake == 0
    ensures Owed(z, s.clock, s.redist.art.level) == 0 && Held(z, s.redist.coll.level) == 0
  {
    EmptyWeighsNothing(z);
  }

  function Borrowed(rate: nat, debt: nat, since: int, weighted: nat): State {
    Fresh(100).(agg := 31_536_000, minted := 31_536_000, weighted := weighted,
                ps := [Position(0, debt, rate, since, 0, 0, 0)])
  }

  lemma TouchIs(s: State, change: Change, now: int, q: Position, t: State)
    requires |s.ps| == 1 && Accrue(s, now) == Ok(s) && Realize(s, s.ps[0], now) == Ok(q)
    requires Settle(s, 0, s.ps[0], q, MoveOf(q, change)) == Ok(t)
    ensures Next(s, Touch(0, change), now) == t
  {
    hide Accrue, Realize, Settle, MoveOf;
  }

  lemma RealizeIdle(s: State, p: Position, now: int)
    requires !s.shutdown && p.since == now && p.stake == 0 && p.ink <= U64_MAX && p.debt * p.rate <= U128_MAX
    requires p.debt <= U128_MAX && p.snapColl == s.redist.coll.level && p.snapArt == s.redist.art.level
    ensures Realize(s, p, now) == Ok(p)
  {
    assert AccruedInterest(p.debt, p.rate, 0) == Some(0);
  }

  lemma BorrowBeforeClock()
    ensures Next(Next(Fresh(100), OpenPosition(10_000), 50), Touch(0, Borrow(31_536_000, 0)), 50)
         == Borrowed(10_000, 31_536_000, 50, 315_360_000_000)
  {
    hide Next, Settle, Realize;
    OpenFirst();
    var p := Position(0, 0, 10_000, 50, 0, 0, 0);
    RealizeIdle(Fresh(100).(ps := [p]), p, 50);
    FirstBorrow(p);
    TouchIs(Fresh(100).(ps := [p]), Borrow(31_536_000, 0), 50, p, Borrowed(10_000, 31_536_000, 50, 315_360_000_000));
  }

  lemma FirstBorrow(p: Position)
    requires p == Position(0, 0, 10_000, 50, 0, 0, 0)
    ensures Settle(Fresh(100).(ps := [p]), 0, p, p, Move(31_536_000, 0, 0, 0, 0, 10_000))
         == Ok(Borrowed(10_000, 31_536_000, 50, 315_360_000_000))
  {
    hide WeightedDebt;
    assert WeightedDebt(0, 10_000) == Some(0) && WeightedDebt(31_536_000, 10_000) == Some(315_360_000_000) by {
      Weights10000();
    }
    assert [p][0 := p.(debt := 31_536_000)] == [p.(debt := 31_536_000)];
  }

  lemma Weights10000()
    ensures WeightedDebt(0, 10_000) == Some(0) && WeightedDebt(31_536_000, 10_000) == Some(315_360_000_000)
  {
  }

  lemma OpenFirst()
    ensures Next(Fresh(100), OpenPosition(10_000), 50) == Fresh(100).(ps := [Position(0, 0, 10_000, 50, 0, 0, 0)])
  {
  }

  lemma ChargedAgain()
    ensures Next(Borrowed(10_000, 31_536_000, 50, 315_360_000_000), Touch(0, Deposit(0)), 100)
         == Borrowed(10_000, 31_536_050, 100, 315_360_500_000)
  {
    hide Next;
    var s := Borrowed(10_000, 31_536_000, 50, 315_360_000_000);
    var q := Position(0, 31_536_050, 10_000, 100, 0, 0, 0);
    assert AccruedInterest(31_536_000, 10_000, 50) == Some(50);
    assert WeightedDebt(31_536_050, 10_000) == Some(315_360_500_000);
    assert WeightedDebt(31_536_000, 10_000) == Some(315_360_000_000);
    assert s.ps[0 := q] == [q];
    assert Realize(s, s.ps[0], 100) == Ok(q);
    assert Settle(s, 0, s.ps[0], q, MoveOf(q, Deposit(0))) == Ok(Borrowed(10_000, 31_536_050, 100, 315_360_500_000));
    TouchIs(s, Deposit(0), 100, q, Borrowed(10_000, 31_536_050, 100, 315_360_500_000));
  }

  /** The clock must not run backwards. A position touched before the market's clock is charged again
      for time the aggregate has already booked: its debt then exceeds the whole aggregate, and it
      can no longer be repaid. */
  lemma RewoundClockUnderstates()
    ensures var s1 := Next(Fresh(100), OpenPosition(10_000), 50);
            var s2 := Next(s1, Touch(0, Borrow(31_536_000, 0)), 50);
            var s3 := Next(s2, Touch(0, Deposit(0)), 100);
            && |s3.ps| == 1 && s3.ps[0].debt == 31_536_050
            && s3.agg == 31_536_000
            && Apply(s3, Touch(0, Repay(31_536_050)), 100) == Err(Overflow)
  {
    hide Next, Apply, Settle, Realize;
    BorrowBeforeClock();
    ChargedAgain();
    var s := Borrowed(10_000, 31_536_050, 100, 315_360_500_000);
    var m := MoveOf(s.ps[0], Repay(31_536_050));
    RealizeIdle(s, s.ps[0], 100);
    AggregateShort(s, s.ps[0], m);
    TouchFails(s, Repay(31_536_050), 100, s.ps[0], Overflow);
  }

  lemma AggregateShort(s: State, q: Position, m: Move)
    requires |s.ps| == 1 && m.down <= q.debt + m.up && m.inkDown <= q.ink + m.inkUp && s.agg + m.up < m.down
    ensures Settle(s, 0, s.ps[0], q, m) == Err(Overflow)
  {
    hide WeightedDebt, ComputeStake;
  }

  lemma TouchFails(s: State, change: Change, now: int, q: Position, e: Failure)
    requires |s.ps| == 1 && Accrue(s, now) == Ok(s) && Realize(s, s.ps[0], now) == Ok(q)
    requires Settle(s, 0, s.ps[0], q, MoveOf(q, change)) == Err(e)
    ensures Apply(s, Touch(0, change), now) == Err(e)
  {
    hide Accrue, Realize, Settle, MoveOf;
  }
}
