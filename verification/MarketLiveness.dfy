/** When an operation on a market goes through, in plain arithmetic on its counters, and what minting and
    shutting down do to it. */
module MarketLiveness {
  import opened Arith
  import opened FixedPoint
  import opened Market
  import opened MarketInvariant
  import opened MarketRuns
  import opened MarketTheorems
  import opened Redistribution

  // ----- booking interest ------------------------------------------------------------------------

  /** The counters are within the widths the program keeps them in. */
  predicate CountersFit(s: State) {
    s.agg <= U128_MAX && s.unminted <= U128_MAX
  }

  /** The interest up to `now` fits above what is owed and what is unminted. */
  predicate AccrualFits(s: State, now: int) {
    s.shutdown || now <= s.clock
    || s.weighted * (now - s.clock) <= (U128_MAX - Max(s.agg, s.unminted)) * INTEREST_DENOM
  }

  /** Booking interest fails exactly if the interest passes a counter's width. */
  lemma AccrueFailsIff(s: State, now: int)
    requires CountersFit(s)
    ensures Accrue(s, now).Ok? <==> AccrualFits(s, now)
  {
    if now > s.clock && !s.shutdown {
      CeilingWithin(s.weighted * (now - s.clock), U128_MAX - Max(s.agg, s.unminted));
    }
  }

  lemma CeilingWithin(n: nat, room: nat)
    requires room <= U128_MAX
    ensures n <= room * 315_360_000_000 <==>
              n / 315_360_000_000 + (if n % 315_360_000_000 != 0 then 1 else 0) <= room
  {
  }

  /** Every run keeps them there. */
  lemma {:induction false} RunKeepsCounters(clock: int, steps: seq<Step>)
    ensures CountersFit(Run(Fresh(clock), steps))
  {
    hide Next;
    if steps != [] {
      RunKeepsCounters(clock, steps[..|steps| - 1]);
      NextKeepsCounters(Run(Fresh(clock), steps[..|steps| - 1]), steps[|steps| - 1].op, steps[|steps| - 1].now);
    }
  }

  lemma NextKeepsCounters(s: State, op: Op, now: int)
    requires CountersFit(s)
    ensures CountersFit(Next(s, op, now))
  {
    hide Realize, Redistribute, WeightedDebt, ComputeStake, Cut, MoveOf, PendingAggregateInterest;
  }

  /** A market of at most 2^64 debt at rates of at most 100%, with as much owed and unminted, can book any
      number of seconds below 2^63. */
  lemma AccrualFitsForAges(s: State, now: int)
    requires s.weighted <= U64_MAX * 10_000 && s.agg <= U64_MAX * U64_MAX / 2 && s.unminted <= U64_MAX * U64_MAX / 2
    requires now - s.clock <= 0x7FFF_FFFF_FFFF_FFFF
    ensures CountersFit(s) && Accrue(s, now).Ok?
  {
    if now > s.clock {
      MulBoundNat(s.weighted, now - s.clock, U64_MAX * 10_000, 0x7FFF_FFFF_FFFF_FFFF);
    }
    AccrueFailsIff(s, now);
  }

  // ----- bringing a position current -------------------------------------------------------------

  /** Weight, interest, shares and the results all fit. */
  predicate Realizable(s: State, p: Position, now: int) {
    var interest := p.debt * p.rate * PeriodOf(s, p, now) / INTEREST_DENOM;
    var (art, coll) := (p.stake * SatSub(s.redist.art.level, p.snapArt) / WAD,
                        p.stake * SatSub(s.redist.coll.level, p.snapColl) / WAD);
    && p.debt * p.rate <= U128_MAX && interest <= U128_MAX && art <= U128_MAX && coll <= U128_MAX
    && p.ink + coll <= U64_MAX && p.debt + interest + art <= U128_MAX
  }

  lemma RealizeFailsIff(s: State, p: Position, now: int)
    ensures Realize(s, p, now).Ok? <==> Realizable(s, p, now)
  {
    PendingIs(p.stake, s.redist.art.level, p.snapArt);
    PendingIs(p.stake, s.redist.coll.level, p.snapColl);
  }

  lemma PendingIs(stake: nat, level: nat, snap: nat)
    ensures PendingOne(stake, level, snap) == Fits(U128_MAX, stake * SatSub(level, snap) / WAD)
  {
  }

  // ----- whole operations ------------------------------------------------------------------------

  /** After any run, a touch of a position anybody opened goes through if interest can be booked, the position
      can be brought current, the change takes off no more than is there, everything stays within its width,
      and the aggregate holds the debt; the last needs no asking while the clock does not run backwards. */
  lemma TouchGoesThrough(clock: int, steps: seq<Step>, i: nat, change: Change, now: int)
    requires var s := Run(Fresh(clock), steps); i < |s.ps| && AccrualFits(s, now)
    requires var s1 := Accrue(Run(Fresh(clock), steps), now);
             s1.Ok? && i < |s1.value.ps| && Realizable(s1.value, s1.value.ps[i], now)
    requires var s1 := Accrue(Run(Fresh(clock), steps), now).value;
             var p := Realize(s1, s1.ps[i], now);
             && p.Ok? && Covered(p.value, MoveOf(p.value, change))
             && WithinWidths(s1, i, p.value, MoveOf(p.value, change))
             && (MoveOf(p.value, change).down - MoveOf(p.value, change).up <= s1.agg
                 || (TimelyRun(Fresh(clock), steps) && Timely(Run(Fresh(clock), steps), now)))
    ensures Apply(Run(Fresh(clock), steps), Touch(i, change), now).Ok?
  {
    hide Run, RunBooks, TimelyRun, Realize, Settle, MoveOf, WithinWidths, Core, OnTime, BooksAccrued, Realizable,
         Timely;
    var s, b := Run(Fresh(clock), steps), RunBooks(clock, steps);
    var s1, b1 := Accrue(s, now).value, BooksAccrued(s, b, now);
    var p := Realize(s1, s1.ps[i], now).value;
    RunKeepsInv(clock, steps);
    RunKeepsCounters(clock, steps);
    AccrueFailsIff(s, now);
    AccruedInv(s, b, now);
    if TimelyRun(Fresh(clock), steps) && Timely(s, now) {
      RunKeepsOnTime(clock, steps);
      AccrueKeepsOnTime(s, b, now);
    }
    SettleSucceeds(s1, b1, i, p, MoveOf(p, change), now);
  }

  /** And so does the liquidation of a position in debt, if the tiers' collateral is within the victim's and
      the accumulators can take what is spread. */
  lemma LiquidationGoesThrough(clock: int, steps: seq<Step>, i: nat, backing: Backing, now: int)
    requires TimelyRun(Fresh(clock), steps) && Timely(Run(Fresh(clock), steps), now)
    requires var s := Run(Fresh(clock), steps); i < |s.ps| && AccrualFits(s, now)
    requires var s1 := Accrue(Run(Fresh(clock), steps), now);
             s1.Ok? && i < |s1.value.ps| && Realizable(s1.value, s1.value.ps[i], now)
    requires var s1 := Accrue(Run(Fresh(clock), steps), now).value;
             var p := Realize(s1, s1.ps[i], now);
             && p.Ok? && p.value.debt > 0 && backing.collRest <= p.value.ink && s1.badDebt + p.value.debt <= U128_MAX
             && (RedistributedDebt(s1, p.value, backing) > 0 ==>
                   Redistribute(s1.redist, s1.totalStakes - p.value.stake, backing.collRest,
                                RedistributedDebt(s1, p.value, backing)).Ok?)
    ensures Apply(Run(Fresh(clock), steps), Liquidate(i, backing), now).Ok?
  {
    hide Run, RunBooks, TimelyRun, Realize, CloseOut, Core, OnTime, BooksAccrued, Timely, Redistribute,
         RedistributedDebt;
    var s, b := Run(Fresh(clock), steps), RunBooks(clock, steps);
    var s1, b1 := Accrue(s, now).value, BooksAccrued(s, b, now);
    var p := Realize(s1, s1.ps[i], now).value;
    RunKeepsInv(clock, steps);
    RunKeepsCounters(clock, steps);
    AccrueFailsIff(s, now);
    AccruedInv(s, b, now);
    RunKeepsOnTime(clock, steps);
    AccrueKeepsOnTime(s, b, now);
    LiquidationNeverStalls(s1, b1, i, p, backing, now);
  }

  /** What is refused outright: a position nobody opened, one without debt, more collateral left over than the
      victim has, more bad debt settled than there is, and a second shutdown. */
  lemma RefusedOperations(s: State, i: nat, change: Change, backing: Backing, burned: nat, now: int)
    ensures i >= |s.ps| ==> Apply(s, Touch(i, change), now) == Err(Refused)
                            && Apply(s, Liquidate(i, backing), now) == Err(Refused)
    ensures Accrue(s, now).Ok? && i < |s.ps| ==>
              var s1 := Accrue(s, now).value;
              && |s1.ps| == |s.ps|
              && (Realize(s1, s1.ps[i], now).Ok? ==>
                    var p := Realize(s1, s1.ps[i], now).value;
                    Apply(s, Liquidate(i, backing), now) == Err(Refused) <==> p.debt == 0 || backing.collRest > p.ink)
    ensures Apply(s, SettleBadDebt(burned), now).Ok? <==> burned <= s.badDebt
    ensures s.shutdown ==> Apply(s, Shutdown, now) == Err(Refused)
    ensures !s.shutdown && CountersFit(s) ==> (Apply(s, Shutdown, now).Ok? <==> AccrualFits(s, now))
  {
    hide Realize, AccrualFits, PendingAggregateInterest, Redistribute, WeightedDebt;
    if CountersFit(s) {
      AccrueFailsIff(s, now);
    }
  }

  // ----- minting ---------------------------------------------------------------------------------

  /** The part of the interest that is minted in one go. */
  function Mintable(s: State): nat {
    Min(s.unminted, U64_MAX)
  }

  lemma CutWithin(amount: nat, bps: nat)
    requires bps <= 10_000
    ensures Cut(amount, bps) <= amount
  {
    MulMonoNat(bps, 10_000, amount);
    DivAtMost(amount * bps, 10_000, amount);
  }

  /** Minting never fails for cuts of at most 100% each, and pays bad debt down by exactly its cut of what is
      left after the keeper's, floored, or by all the bad debt there is. */
  lemma MintingPaysDown(s: State, c: Cuts)
    requires c.keeper <= 10_000 && c.paydown <= 10_000 && c.backstop <= 10_000
    ensures MintInterest(s, c).Ok?
    ensures var s' := MintInterest(s, c).value;
            var keeper := Mintable(s) * c.keeper / 10_000;
            && keeper <= Mintable(s)
            && s.badDebt - s'.badDebt == Min((Mintable(s) - keeper) * c.paydown / 10_000, s.badDebt)
            && s'.agg == s.agg && s'.ps == s.ps && s'.clock == s.clock
  {
    var amount := Mintable(s);
    CutWithin(amount, c.keeper);
    var rest := amount - Cut(amount, c.keeper);
    CutWithin(rest, c.paydown);
    CutWithin(rest - Min(Cut(rest, c.paydown), s.badDebt), c.backstop);
  }

  /** A refresh goes through whenever interest can be booked. */
  lemma RefreshGoesThrough(s: State, c: Cuts, now: int)
    requires c.keeper <= 10_000 && c.paydown <= 10_000 && c.backstop <= 10_000
    requires CountersFit(s) && AccrualFits(s, now)
    ensures Apply(s, Refresh(c), now).Ok?
  {
    hide AccrualFits, MintInterest, Accrue;
    AccrueFailsIff(s, now);
    MintingPaysDown(Accrue(s, now).value, c);
  }

  // ----- shutting down ---------------------------------------------------------------------------

  /** A market that is shut down stays so, at the same clock. */
  lemma StaysShut(s: State, op: Op, now: int)
    requires s.shutdown
    ensures Next(s, op, now).shutdown && Next(s, op, now).clock == s.clock
  {
    hide Realize, Redistribute, WeightedDebt, ComputeStake, Cut, MoveOf;
  }

  /** After a shutdown no run books interest any more, at any clock, and no position is charged past the
      moment of the shutdown. */
  lemma {:induction false} ShutdownStopsInterest(s: State, now: int, steps: seq<Step>, later: int)
    requires Apply(s, Shutdown, now).Ok?
    ensures var s1 := Apply(s, Shutdown, now).value;
            var t := Run(s1, steps);
            && t.shutdown && t.clock == s1.clock == Max(s.clock, now)
            && Accrue(t, later) == Ok(t)
            && forall p <- t.ps :: Realize(t, p, later).Ok? ==> Realize(t, p, later).value.since == t.clock
    decreases |steps|
  {
    hide Next;
    var s1 := Apply(s, Shutdown, now).value;
    if steps == [] {
      ShutAt(s, now);
    } else {
      ShutdownStopsInterest(s, now, steps[..|steps| - 1], later);
      StaysShut(Run(s1, steps[..|steps| - 1]), steps[|steps| - 1].op, steps[|steps| - 1].now);
    }
    var t := Run(s1, steps);
    forall p | p in t.ps && Realize(t, p, later).Ok?
      ensures Realize(t, p, later).value.since == t.clock
    {
      RealizeSplits(t, p, later);
    }
  }

  lemma ShutAt(s: State, now: int)
    requires Apply(s, Shutdown, now).Ok?
    ensures Apply(s, Shutdown, now).value.shutdown && Apply(s, Shutdown, now).value.clock == Max(s.clock, now)
  {
  }
}
