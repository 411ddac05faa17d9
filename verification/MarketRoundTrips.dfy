/** What single market operations mean for the one who calls them: round trips, idempotence, and where
    interest, stakes and liquidated debt go. */
module MarketRoundTrips {
  import opened Arith
  import opened FixedPoint
  import opened Market
  import opened MarketInvariant
  import opened MarketRuns
  import opened Redistribution

  /** A state right after position `i` was touched at `now`: it is brought as far as `now` or the moment
      interest stopped, and its snapshots and stake are the market's own. */
  ghost predicate JustTouched(s: State, i: nat, now: int) {
    && i < |s.ps|
    && (s.shutdown || now <= s.clock)
    && s.ps[i].since == CapOf(s, now)
    && s.ps[i].snapColl == s.redist.coll.level && s.ps[i].snapArt == s.redist.art.level
    && ComputeStake(s.ps[i].ink, s.stakesSnapshot, s.collSnapshot) == Some(s.ps[i].stake)
  }

  lemma TouchLeavesJustTouched(s: State, i: nat, change: Change, now: int)
    requires Apply(s, Touch(i, change), now).Ok?
    ensures JustTouched(Apply(s, Touch(i, change), now).value, i, now)
  {
    hide AccruedInterest, PendingOne, ComputeStake, WeightedDebt, MoveOf;
  }

  /** Bringing a just-touched position current again changes nothing. */
  lemma RealizeAgain(s: State, i: nat, now: int)
    requires JustTouched(s, i, now) && Realize(s, s.ps[i], now).Ok?
    ensures Accrue(s, now) == Ok(s)
    ensures Realize(s, s.ps[i], now) == Ok(s.ps[i])
  {
    NoTimeNoInterest(s.ps[i].debt, s.ps[i].rate);
  }

  lemma NoTimeNoInterest(debt: nat, rate: nat)
    ensures AccruedInterest(debt, rate, 0) in {None, Some(0)}
  {
  }

  /** On a just-touched position an operation is its settlement alone. */
  lemma ApplyIsSettle(s: State, i: nat, change: Change, now: int)
    requires JustTouched(s, i, now) && Apply(s, Touch(i, change), now).Ok?
    ensures Apply(s, Touch(i, change), now) == Settle(s, i, s.ps[i], s.ps[i], MoveOf(s.ps[i], change))
  {
    hide Settle, MoveOf, ComputeStake, Realize;
    if s.shutdown || now <= s.clock {
      RealizeAgain(s, i, now);
    }
  }

  /** Touching again at the same moment, if it goes through, changes nothing: realizing is idempotent, and
      so a pass that only brings positions current may be repeated. */
  lemma TouchTwiceIsOnce(s: State, i: nat, change: Change, now: int)
    requires Apply(s, Touch(i, change), now).Ok?
    requires Apply(Apply(s, Touch(i, change), now).value, Touch(i, Deposit(0)), now).Ok?
    ensures Apply(Apply(s, Touch(i, change), now).value, Touch(i, Deposit(0)), now).value
         == Apply(s, Touch(i, change), now).value
  {
    hide ComputeStake, Realize, Accrue, WeightedDebt;
    TouchLeavesJustTouched(s, i, change, now);
    var s' := Apply(s, Touch(i, change), now).value;
    ApplyIsSettle(s', i, Deposit(0), now);
    assert s'.ps[i := s'.ps[i]] == s'.ps;
  }

  /** Two settlements in a row whose debt and collateral cancel are one that moves nothing, fees aside. */
  lemma SettlementsCancel(s: State, i: nat, q: Position, m: Move, n: Move)
    requires i < |s.ps| && m.rate == n.rate == q.rate && n.fee == 0
    requires m.up == n.down && m.down == n.up == 0 && m.inkUp == n.inkDown && m.inkDown == n.inkUp == 0
    requires Settle(s, i, s.ps[i], q, m).Ok?
    requires var s2 := Settle(s, i, s.ps[i], q, m).value; Settle(s2, i, s2.ps[i], s2.ps[i], n).Ok?
    requires Settle(s, i, s.ps[i], q, Move(0, 0, 0, 0, 0, q.rate)).Ok?
    ensures var s2 := Settle(s, i, s.ps[i], q, m).value;
            var s0 := Settle(s, i, s.ps[i], q, Move(0, 0, 0, 0, 0, q.rate)).value;
            Settle(s2, i, s2.ps[i], s2.ps[i], n).value
            == s0.(unminted := s0.unminted + m.fee, minted := s0.minted - m.fee)
  {
    hide ComputeStake, WeightedDebt;
  }

  /** Borrowing and repaying what was borrowed with its fee, at one moment, leaves exactly a bare touch
      behind, except that the fee was burned and is owed to the buffer. */
  lemma BorrowRepayRoundTrip(s: State, i: nat, amount: nat, fee: nat, now: int)
    requires Apply(s, Touch(i, Borrow(amount, fee)), now).Ok?
    requires Apply(Apply(s, Touch(i, Borrow(amount, fee)), now).value, Touch(i, Repay(amount + fee)), now).Ok?
    requires Apply(s, Touch(i, Deposit(0)), now).Ok?
    ensures var s0 := Apply(s, Touch(i, Deposit(0)), now).value;
            Apply(Apply(s, Touch(i, Borrow(amount, fee)), now).value, Touch(i, Repay(amount + fee)), now).value
            == s0.(unminted := s0.unminted + fee, minted := s0.minted - fee)
  {
    hide Settle, Realize, ComputeStake, PendingAggregateInterest;
    var s1 := Accrue(s, now).value;
    var q := Realize(s1, s1.ps[i], now).value;
    var s2 := Apply(s, Touch(i, Borrow(amount, fee)), now).value;
    TouchLeavesJustTouched(s, i, Borrow(amount, fee), now);
    ApplyIsSettle(s2, i, Repay(amount + fee), now);
    SettledDebt(s1, i, q, MoveOf(q, Borrow(amount, fee)));
    SettlementsCancel(s1, i, q, MoveOf(q, Borrow(amount, fee)), MoveOf(s2.ps[i], Repay(amount + fee)));
  }

  /** Depositing and withdrawing the same collateral at one moment leaves exactly a bare touch behind. */
  lemma DepositWithdrawRoundTrip(s: State, i: nat, amount: nat, now: int)
    requires Apply(s, Touch(i, Deposit(amount)), now).Ok?
    requires Apply(Apply(s, Touch(i, Deposit(amount)), now).value, Touch(i, Withdraw(amount)), now).Ok?
    requires Apply(s, Touch(i, Deposit(0)), now).Ok?
    ensures Apply(Apply(s, Touch(i, Deposit(amount)), now).value, Touch(i, Withdraw(amount)), now)
         == Apply(s, Touch(i, Deposit(0)), now)
  {
    hide Settle, Realize, ComputeStake, PendingAggregateInterest;
    var s1 := Accrue(s, now).value;
    var q := Realize(s1, s1.ps[i], now).value;
    var s2 := Apply(s, Touch(i, Deposit(amount)), now).value;
    TouchLeavesJustTouched(s, i, Deposit(amount), now);
    ApplyIsSettle(s2, i, Withdraw(amount), now);
    SettledDebt(s1, i, q, MoveOf(q, Deposit(amount)));
    SettlementsCancel(s1, i, q, MoveOf(q, Deposit(amount)), MoveOf(s2.ps[i], Withdraw(amount)));
  }

  lemma SettledDebt(s: State, i: nat, q: Position, m: Move)
    requires i < |s.ps| && Settle(s, i, s.ps[i], q, m).Ok?
    ensures var p := Settle(s, i, s.ps[i], q, m).value.ps[i];
            && p.debt == q.debt + m.up - m.down && p.ink == q.ink + m.inkUp - m.inkDown && p.rate == m.rate
            && |Settle(s, i, s.ps[i], q, m).value.ps| == |s.ps|
  {
  }

  /** Right after a liquidation, new collateral earns stakes in the proportion of all stakes to all
      collateral; and with no stake left, stakes start again at the collateral itself. */
  lemma StakesFollowCollateral(s: State, b: Books, i: nat, backing: Backing, ink: nat, now: int)
    requires i < |s.ps| && Core(s, b) && b.coll.rounding >= 0 && ink <= U128_MAX
    requires Realize(s, s.ps[i], now).Ok?
    requires CloseOut(s, i, s.ps[i], Realize(s, s.ps[i], now).value, backing).Ok?
    ensures var s' := CloseOut(s, i, s.ps[i], Realize(s, s.ps[i], now).value, backing).value;
            var stake := ComputeStake(ink, s'.stakesSnapshot, s'.collSnapshot);
            && stake.Some?
            && if s'.totalStakes == 0 then stake.value == ink
               else stake.value * s'.totalColl <= ink * s'.totalStakes < (stake.value + 1) * s'.totalColl
  {
    hide PositionsSound, Balanced, Realize, Redistribute, Absorb, RedistributedDebt, BooksTouched;
    CloseOutKeeps(s, b, i, backing, now);
    var s' := CloseOut(s, i, s.ps[i], Realize(s, s.ps[i], now).value, backing).value;
    if s'.totalStakes > 0 {
      StakeWithinCollateral(ink, s'.totalStakes, s'.totalColl);
      DivBounds(ink * s'.totalStakes, s'.totalColl);
    }
  }

  /** Booked interest is used up once: what is minted and what pays bad debt down add up to what leaves
      the books, the whole of it up to a 64-bit amount. */
  lemma InterestIsUsedOnce(s: State, c: Cuts)
    requires MintInterest(s, c).Ok?
    ensures var s' := MintInterest(s, c).value;
            && s.unminted - s'.unminted == Min(s.unminted, U64_MAX)
            && s'.minted - s.minted + (s.badDebt - s'.badDebt) == s.unminted - s'.unminted
            && s.minted <= s'.minted && s'.badDebt <= s.badDebt
  {
    hide Cut;
  }

  /** Where a liquidated debt goes: burned, booked as bad debt, or left in the aggregate for the others to
      owe. The market shuts down exactly when bad debt is booked, and only with nobody left to share it. */
  lemma LiquidationMoves(s: State, i: nat, q: Position, b: Backing)
    requires i < |s.ps| && CloseOut(s, i, s.ps[i], q, b).Ok?
    ensures var s' := CloseOut(s, i, s.ps[i], q, b).value;
            && (s.minted - s'.minted) + (s'.badDebt - s.badDebt) == s.agg - s'.agg
            && s.agg - s'.agg == (if s.totalStakes > q.stake then Min(q.debt, b.reactor) else q.debt)
            && (s'.shutdown <==> s.shutdown || s'.badDebt > s.badDebt)
            && (s'.badDebt > s.badDebt <==> s.totalStakes == q.stake && q.debt > b.reactor + b.buffer + b.global)
            && s'.totalStakes == s.totalStakes - q.stake
            && |s'.ps| == |s.ps| && s'.ps[i].debt == s'.ps[i].ink == s'.ps[i].stake == 0
            && forall j :: 0 <= j < |s.ps| && j != i ==> s'.ps[j] == s.ps[j]
  {
    hide Redistribute, WeightedDebt;
  }
}
