/** What callers of a market received and gave, added up over every run. */
module MarketFlows {
  import opened FixedPoint
  import opened Market
  import opened MarketRoundTrips
  import opened MarketTheorems

  /** What position `i` owes once it is brought current. */
  function CurrentDebt(s: State, i: nat, now: int): nat {
    if i >= |s.ps| then 0
    else
      match Accrue(s, now)
      case Err(_) => 0
      case Ok(s1) =>
        if i >= |s1.ps| then 0
        else match Realize(s1, s1.ps[i], now) case Ok(p) => p.debt case Err(_) => 0
  }

  /** The fUSD an operation hands out, less what it takes in, read off the operation itself: a borrower
      receives the amount and not the fee, a repayment is burned up to the debt, a redemption in full, a
      liquidation as far as the pool and the reserves cover it, and a refresh mints the interest it takes off
      the books except what pays bad debt down. */
  function HandedOut(s: State, op: Op, now: int): int {
    if Apply(s, op, now).Err? then 0
    else
      match op
      case OpenPosition(_) => 0
      case Refresh(_) =>
        var s' := Next(s, op, now);
        Accrue(s, now).value.unminted - s'.unminted - (s.badDebt - s'.badDebt)
      case SettleBadDebt(burned) => 0 - burned
      case Touch(i, change) =>
        (match change
         case Borrow(amount, _) => amount
         case Repay(amount) => 0 - Min(amount, CurrentDebt(s, i, now))
         case Redeem(amount, _) => 0 - amount
         case Deposit(_) => 0
         case Withdraw(_) => 0
         case AdjustRate(_, _) => 0)
      case Liquidate(i, b) =>
        var debt := CurrentDebt(s, i, now);
        0 - (if Next(s, op, now).totalStakes > 0 then Min(debt, b.reactor)
             else Min(debt, b.reactor + b.buffer + b.global))
      case Shutdown => 0
  }

  function TotalHandedOut(s: State, steps: seq<Step>): int {
    if steps == [] then 0
    else
      var before, last := steps[..|steps| - 1], steps[|steps| - 1];
      TotalHandedOut(s, before) + HandedOut(Run(s, before), last.op, last.now)
  }

  lemma TouchHandsOut(s: State, i: nat, change: Change, now: int)
    requires Apply(s, Touch(i, change), now).Ok?
    ensures Apply(s, Touch(i, change), now).value.minted == s.minted + HandedOut(s, Touch(i, change), now)
  {
    hide Realize, WeightedDebt, PendingAggregateInterest, Reweighed;
    var s1 := Accrue(s, now).value;
    var q := Realize(s1, s1.ps[i], now).value;
    ReweighedMinted(BookedMarket(s1, MoveOf(q, change)), i, s1.ps[i], BookedPosition(q, MoveOf(q, change)));
  }

  lemma ReweighedMinted(s: State, i: nat, was: Position, p: Position)
    requires i < |s.ps|
    ensures Reweighed(s, i, was, p).Ok? ==> Reweighed(s, i, was, p).value.minted == s.minted
  {
  }

  lemma LiquidationHandsOut(s: State, i: nat, b: Backing, now: int)
    requires Apply(s, Liquidate(i, b), now).Ok?
    ensures Apply(s, Liquidate(i, b), now).value.minted == s.minted + HandedOut(s, Liquidate(i, b), now)
  {
    hide Realize, WeightedDebt, PendingAggregateInterest, CloseOut;
    var s1 := Accrue(s, now).value;
    var q := Realize(s1, s1.ps[i], now).value;
    CloseOutBurns(s1, i, q, b);
  }

  lemma CloseOutBurns(s: State, i: nat, q: Position, b: Backing)
    requires i < |s.ps| && CloseOut(s, i, s.ps[i], q, b).Ok?
    ensures var s' := CloseOut(s, i, s.ps[i], q, b).value;
            s.minted - s'.minted
            == if s'.totalStakes > 0 then Min(q.debt, b.reactor) else Min(q.debt, b.reactor + b.buffer + b.global)
  {
    hide WeightedDebt, Redistribution.Redistribute;
  }

  lemma StepHandsOut(s: State, op: Op, now: int)
    ensures Next(s, op, now).minted == s.minted + HandedOut(s, op, now)
  {
    hide Realize, Settle, CloseOut, MintInterest, PendingAggregateInterest;
    if Apply(s, op, now).Ok? {
      match op
      case Touch(i, change) => TouchHandsOut(s, i, change, now);
      case Liquidate(i, b) => LiquidationHandsOut(s, i, b, now);
      case Refresh(cuts) => InterestIsUsedOnce(Accrue(s, now).value, cuts);
      case _ =>
    }
  }

  /** Over every run at any clock the market's debt less unminted interest, plus bad debt, is the fUSD its operations
      have handed out on balance: what the books say is owed is what is in circulation through it. */
  lemma {:induction false} BooksMatchCirculation(clock: int, steps: seq<Step>)
    ensures var s := Run(Fresh(clock), steps);
            s.agg - s.unminted + s.badDebt == TotalHandedOut(Fresh(clock), steps)
  {
    hide Next, HandedOut;
    SupplyIsBacked(clock, steps);
    MintedIsHandedOut(clock, steps);
  }

  lemma {:induction false} MintedIsHandedOut(clock: int, steps: seq<Step>)
    ensures Run(Fresh(clock), steps).minted == TotalHandedOut(Fresh(clock), steps)
  {
    hide Next, HandedOut;
    if steps != [] {
      MintedIsHandedOut(clock, steps[..|steps| - 1]);
      StepHandsOut(Run(Fresh(clock), steps[..|steps| - 1]), steps[|steps| - 1].op, steps[|steps| - 1].now);
    }
  }

  // ----- collateral ------------------------------------------------------------------------------

  /** What position `i` holds once it is brought current. */
  function CurrentInk(s: State, i: nat, now: int): nat {
    if i >= |s.ps| then 0
    else
      match Accrue(s, now)
      case Err(_) => 0
      case Ok(s1) =>
        if i >= |s1.ps| then 0
        else match Realize(s1, s1.ps[i], now) case Ok(p) => p.ink case Err(_) => 0
  }

  /** The collateral a change brings in, less what it takes out, read off the change. */
  function CollateralOf(change: Change): int {
    match change
    case Deposit(amount) => amount
    case Withdraw(amount) => 0 - amount
    case Redeem(_, coll) => 0 - coll
    case Borrow(_, _) => 0
    case Repay(_) => 0
    case AdjustRate(_, _) => 0
  }

  /** The collateral an operation brings under the market, less what leaves it: a liquidation takes all its
      victim holds, and leaves the rest for the others if some debt is left for them too. */
  function TakenIn(s: State, op: Op, now: int): int {
    if Apply(s, op, now).Err? then 0
    else
      match op
      case Touch(_, change) => CollateralOf(change)
      case Liquidate(i, b) =>
        (if Next(s, op, now).totalStakes > 0 && CurrentDebt(s, i, now) > b.reactor then b.collRest else 0)
        - CurrentInk(s, i, now)
      case _ => 0
  }

  function TotalTakenIn(s: State, steps: seq<Step>): int {
    if steps == [] then 0
    else
      var before, last := steps[..|steps| - 1], steps[|steps| - 1];
      TotalTakenIn(s, before) + TakenIn(Run(s, before), last.op, last.now)
  }

  /** The debt a change adds to a position that owes `debt`, read off the change: fees are added to the debt,
      and a repayment takes off no more than is owed. */
  function DebtOf(change: Change, debt: nat): int {
    match change
    case Borrow(amount, fee) => amount + fee
    case Repay(amount) => 0 - Min(amount, debt)
    case AdjustRate(_, fee) => fee
    case Redeem(amount, _) => 0 - amount
    case Deposit(_) => 0
    case Withdraw(_) => 0
  }

  /** Position `p` after a change to one that was current with `ink`, `debt` and `rate`. */
  predicate MovedBy(p: Position, change: Change, ink: nat, debt: nat, rate: nat) {
    && p.ink == ink + CollateralOf(change)
    && p.debt == debt + DebtOf(change, debt)
    && p.rate == if change.AdjustRate? then change.rate else rate
  }

  /** A touch moves its own position by exactly what the change says, on top of what it was current with, and
      the market's collateral by the same; every other position stays as it is. */
  lemma TouchMovesPosition(s: State, i: nat, change: Change, now: int)
    requires Apply(s, Touch(i, change), now).Ok?
    ensures var s' := Apply(s, Touch(i, change), now).value;
            && i < |s.ps| == |s'.ps|
            && MovedBy(s'.ps[i], change, CurrentInk(s, i, now), CurrentDebt(s, i, now), s.ps[i].rate)
            && s'.totalColl == s.totalColl + CollateralOf(change)
            && forall j :: 0 <= j < |s.ps| && j != i ==> s'.ps[j] == s.ps[j]
  {
    hide Realize, WeightedDebt, PendingAggregateInterest, Reweighed;
    var s1 := Accrue(s, now).value;
    var q := Realize(s1, s1.ps[i], now).value;
    RateStays(s1, s1.ps[i], now);
    ReweighedLeaves(BookedMarket(s1, MoveOf(q, change)), i, s1.ps[i], BookedPosition(q, MoveOf(q, change)));
  }

  lemma RateStays(s: State, p: Position, now: int)
    ensures Realize(s, p, now).Ok? ==> Realize(s, p, now).value.rate == p.rate
  {
  }

  lemma ReweighedLeaves(s: State, i: nat, was: Position, p: Position)
    requires i < |s.ps|
    ensures Reweighed(s, i, was, p).Ok? ==>
              var s' := Reweighed(s, i, was, p).value;
              && |s'.ps| == |s.ps| && s'.totalColl == s.totalColl
              && s'.ps[i].ink == p.ink && s'.ps[i].debt == p.debt && s'.ps[i].rate == p.rate
              && forall j :: 0 <= j < |s.ps| && j != i ==> s'.ps[j] == s.ps[j]
  {
    hide WeightedDebt, Redistribution.ComputeStake;
  }

  lemma LiquidationTakes(s: State, i: nat, b: Backing, now: int)
    requires Apply(s, Liquidate(i, b), now).Ok?
    ensures Apply(s, Liquidate(i, b), now).value.totalColl == s.totalColl + TakenIn(s, Liquidate(i, b), now)
  {
    hide Realize, WeightedDebt, PendingAggregateInterest, CloseOut;
    var s1 := Accrue(s, now).value;
    var q := Realize(s1, s1.ps[i], now).value;
    CloseOutTakes(s1, i, q, b);
  }

  lemma CloseOutTakes(s: State, i: nat, q: Position, b: Backing)
    requires i < |s.ps| && CloseOut(s, i, s.ps[i], q, b).Ok?
    ensures var s' := CloseOut(s, i, s.ps[i], q, b).value;
            s'.totalColl == s.totalColl - q.ink + if s'.totalStakes > 0 && q.debt > b.reactor then b.collRest else 0
  {
    hide WeightedDebt, Redistribution.Redistribute;
  }

  lemma StepTakesIn(s: State, op: Op, now: int)
    ensures Next(s, op, now).totalColl == s.totalColl + TakenIn(s, op, now)
  {
    hide Realize, Settle, CloseOut, MintInterest, PendingAggregateInterest, CurrentDebt, CurrentInk;
    if Apply(s, op, now).Ok? {
      match op
      case Touch(i, change) => TouchMovesPosition(s, i, change, now);
      case Liquidate(i, b) => LiquidationTakes(s, i, b, now);
      case Refresh(cuts) => MintLeavesCollateral(Accrue(s, now).value, cuts);
      case _ =>
    }
  }

  lemma MintLeavesCollateral(s: State, cuts: Cuts)
    requires MintInterest(s, cuts).Ok?
    ensures MintInterest(s, cuts).value.totalColl == s.totalColl
  {
    hide Cut;
  }

  /** Over every run at any clock the market's collateral is deposits less withdrawals, redeemed collateral and
      what liquidated positions held, plus what liquidations left for the others, each read off the
      operation. */
  lemma {:induction false} CollateralMatchesFlows(clock: int, steps: seq<Step>)
    ensures Run(Fresh(clock), steps).totalColl == TotalTakenIn(Fresh(clock), steps)
  {
    hide Next, TakenIn;
    if steps != [] {
      CollateralMatchesFlows(clock, steps[..|steps| - 1]);
      StepTakesIn(Run(Fresh(clock), steps[..|steps| - 1]), steps[|steps| - 1].op, steps[|steps| - 1].now);
    }
  }

  // ----- what a loan costs -----------------------------------------------------------------------

  /** A position opened now is empty, at the rate asked for, and owes from now on. */
  lemma OpensEmpty(s: State, rate: nat, now: int)
    ensures var r := Apply(s, OpenPosition(rate), now);
            && r.Ok? && |r.value.ps| == |s.ps| + 1
            && (forall j :: 0 <= j < |s.ps| ==> r.value.ps[j] == s.ps[j])
            && var p := r.value.ps[|s.ps|];
            && p.ink == p.debt == p.stake == 0 && p.rate == rate && p.since == now
            && p.snapColl == s.redist.coll.level && p.snapArt == s.redist.art.level
  {
  }

  /** Between two touches with nothing in between a position is charged its own rate on its debt for exactly
      the time between, floored. */
  lemma LoanCosts(s: State, i: nat, change: Change, t0: int, t1: int)
    requires !s.shutdown && t0 <= t1 && Apply(s, Touch(i, change), t0).Ok?
    requires var s1 := Apply(s, Touch(i, change), t0).value;
             i < |s1.ps| && Apply(s1, Touch(i, Deposit(0)), t1).Ok?
    ensures var p := Apply(s, Touch(i, change), t0).value.ps[i];
            var s2 := Apply(Apply(s, Touch(i, change), t0).value, Touch(i, Deposit(0)), t1).value;
            i < |s2.ps| && s2.ps[i].debt == p.debt + p.debt * p.rate * (t1 - t0) / INTEREST_DENOM
  {
    hide Settle, Accrue, MoveOf;
    var s1 := Apply(s, Touch(i, change), t0).value;
    TouchedAt(s, i, change, t0);
    TouchMovesPosition(s1, i, Deposit(0), t1);
    AccrueLeaves(s1, t1);
    var s1' := Accrue(s1, t1).value;
    ChargedOver(s1', s1'.ps[i], t1);
  }

  lemma TouchedAt(s: State, i: nat, change: Change, now: int)
    requires !s.shutdown && Apply(s, Touch(i, change), now).Ok?
    ensures var s' := Apply(s, Touch(i, change), now).value;
            && !s'.shutdown && i < |s'.ps| && s'.ps[i].since == now
            && s'.ps[i].snapArt == s'.redist.art.level
  {
    hide AccruedInterest, PendingAggregateInterest, Redistribution.PendingOne, Redistribution.ComputeStake,
         WeightedDebt, MoveOf;
  }

  lemma AccrueLeaves(s: State, now: int)
    ensures Accrue(s, now).Ok? ==>
              var s1 := Accrue(s, now).value;
              s1.ps == s.ps && s1.shutdown == s.shutdown && s1.redist == s.redist
  {
  }

  lemma ChargedOver(s: State, p: Position, now: int)
    requires !s.shutdown && p.since <= now && p.snapArt == s.redist.art.level && Realize(s, p, now).Ok?
    ensures Realize(s, p, now).value.debt == p.debt + p.debt * p.rate * (now - p.since) / INTEREST_DENOM
  {
  }
}
