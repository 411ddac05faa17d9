# Fusion accounting, verified

This project models the accounting cores of the Fusion protocol and proves what they keep over every
run. It is plain Dafny 4.11; `dafny verify dfyconfig.toml` covers all of it.

**Reactor Pool** (`ReactorMath`, `ReactorClaims`, `ReactorLedger`, `ReactorSolvency`, `ReactorRuns`,
`ReactorTheorems`, `ReactorFlows`, `ReactorLiveness`, `ReactorPool`, `ReactorAccounts`).
The pool shares liquidation losses among any number of depositors in constant time: a product `P`, rescaled by 1e9 when it gets small, epochs for full
drains, a grid of sums for collateral, and two residuals fed back into the next liquidation. Beside it
runs a naive ledger that visits every depositor at every liquidation, with exact real balances. The
theorems compare the two after every run of openings, deposits, withdrawals, claims and liquidations.
The invariant is an equation: `C = D + surplus - residual - forgone`, where `C` is the sum of exact
balances, `D` the deposits, `residual` the loss error carried into the next liquidation, `surplus` an
average of the residuals past liquidations started from, and `forgone` what touches rounded away; `C <= D`
alone is not inductive. A second equation ties gains to the collateral seized. `ReactorPool` and
`ReactorAccounts` hold the same operations in place on fields and arrays, each proved equal to the
function the theorems speak of.

**Market** (`Market`, `MarketSums`, `MarketInvariant`, `MarketRuns`, `MarketTheorems`, `MarketRoundTrips`,
`MarketFlows`, `MarketLiveness`, `MarketRewinds`, `MarketAccounts`, `Redistribution`).
A market books interest for all its positions at once, brings a position current only when it is
touched, and spreads liquidated debt and collateral through two accumulators. Debt is measured without
rounding, in units of 1 / (315_360_000_000 * 10^18), so what every position owes at any moment is an
exact integer to compare the O(1) aggregates with. The invariant is three books that balance to the last
fraction at any clock: what the aggregates hold beside recorded amounts, interest booked against interest
charged and due, and what liquidations fed into each accumulator against what touches were paid from it.
`MarketAccounts` holds the same instructions in place
on account fields, each proved equal to the function the theorems speak of. Price, health, ceiling and
rate-limit checks are not modelled: they only refuse operations, so every run of the program is a run of
the model.

**Neutral rounds and epoch plan** (`NeutralRounds`, `NeutralDistribution`, `NeutralRotation`, `NeutralDriver`,
`Lifecycle`, `EpochPlan`).
Water-filling of neutral stake in resumable rounds with a rotated remainder, the validator lifecycle
over whole epoch traces, and the plan built from reserve, directed floors and neutral rounds.

**Arithmetic** (`WideMath`, `RayMath`, `BaseRate`, with `FixedPoint`, `Arith`, `Reals`). 256-bit products
and quotients out of 128-bit words, powers in RAY fixed point, and the redemption base rate.

**Oracle ring and rate bitmap** (`TwapMath`, `TwapRing`, `RateBits`, `RateBucket`). The observation ring
against the sequence of accepted observations, the time-weighted average against a second-by-second sum,
and the redemption bitmap against a set.

Machine integers are unbounded here; every bound the program checks is written out and is an error or a
saturation as in the program. A failed operation leaves the state as it was, because the runtime drops
the whole transaction.

## Where a promise fails

- Solvency holds exactly for every pool that never held more than 1e18 units (`Solvency`), and fails for one
  a billionth and one unit larger (`InsolventJustAbove`, 1_000_000_001_000_000_001 units, by one unit).
  Between the two only the general bounds are known.
- An offset can promise more collateral than it takes in, and the code can credit more than was seized:
  `OverpaidCollateral` credits 1799 of 1000. `OverPromiseCondition` gives the amount promised in excess
  after any run; it is positive only if the surplus, folded from the pool's own residuals, is above the
  residual carried, and exactly then where touches have forgone nothing. Promising more does not yet mean
  crediting more, because credits are rounded down: the second run of `OverpaidCollateral` promises 1.8 for
  one unit and credits one. For what the code credits, `CollateralConserved` shows that it exceeds the
  collateral seized by at most the drift, the exact sum of what offsets promised in excess, hence not at all
  as long as that is not positive.
- The aggregate debt covers the positions as long as the clock does not run backwards.
  `RewoundClockUnderstates` shows a position that owes more than the whole aggregate after a touch before
  the market's clock. `CoverOverRuns` says exactly what the cover is after any run at any clock, and so when
  it holds; `CoverThroughTouch` says by how much one touch changes it. Nothing else depends on the clock:
  sums, collateral, supply and the conservation of what is redistributed hold over every run.

- The documented half-life of the base rate, six hours, is that of an exact root. The constant is rounded:
  360 minutes leave 0.500000000000015 of the rate (`HalvesInSixHours`).

## Model

| member | source | states |
|---|---|---|
| `ReactorTheorems.Solvency` | crates/fusd-math/src/reactor_pool.rs:156-307 | after every run, what all depositors could withdraw exceeds the deposits by at most the surplus less the carried residual, both read off the pool account, and so by at most one unit per 1e18 units the pool ever held; a pool that never held more than 1e18 is exactly solvent |
| `ReactorTheorems.NothingGoesMissing` | crates/fusd-math/src/reactor_pool.rs:156-307 | after every run, what depositors could withdraw falls short of the deposits by no more than the carried loss residual and the stated rounding of touches |
| `ReactorTheorems.WithdrawNeverUnderflows` | programs/fusd-core/src/instructions/withdraw_from_reactor.rs:45-94 | after every run of a pool of at most 1e18, a withdrawal fails if and only if the collateral gain cannot be computed or passes its 64-bit counter |
| `ReactorLiveness.AbsorbOutcome` | crates/fusd-math/src/reactor_pool.rs:156-221 | after every run of a pool of at most 1e18, a liquidation goes through unless the current cell would pass 128 bits or the next cell is off the grid, both written in arithmetic on the pool account, and each failure has its own error; more debt than deposits is refused and none changes nothing |
| `ReactorLiveness.TouchOutcomes` | programs/fusd-core/src/instructions/provide_to_reactor.rs:45-91 | after every run, providing fails only for a zero amount, an unknown account, a gain that cannot be paid, or a deposit or total past its width, and claiming only for an unknown account or such a gain, both directions |
| `ReactorFlows.PendingIsUnpaid` | programs/fusd-core/src/reactor.rs:40-51 | over every run, what an account has pending is exactly what its touches credited less what its claims paid |
| `ReactorFlows.CreditedIsPendingOrPaid` | programs/fusd-core/src/instructions/claim_reactor_gains.rs:44-75 | over every run, all collateral ever credited is pending with some account or was paid out by a claim |
| `ReactorFlows.DepositsMatchFlows` | programs/fusd-core/src/instructions/withdraw_from_reactor.rs:45-94 | over every run the pool's total is what was provided less what was withdrawn and burned, each read off the operation |
| `ReactorFlows.TouchRecords` | programs/fusd-core/src/reactor.rs:40-60 | a touch records for its account what it was worth, moved by what the operation says, at the pool's present snapshot, and leaves every other account alone |
| `ReactorTheorems.CollateralConserved` | crates/fusd-math/src/reactor_pool.rs:171-202 | over every run, what the code has credited and still owes in collateral, with the carried residual and what touches lost in rounding, is at most what was seized plus the drift, the exact sum of what each offset promised beyond it; so it is within what was seized whenever the drift is not positive. The drift is within the gauge's slack, which is read off the pool account alone, is zero unless an offset starts from a surplus above the carried residual, and is at most `limit / 1e18` of one deposit unit's share per offset |
| `ReactorTheorems.CollateralReachesDepositors` | crates/fusd-math/src/reactor_pool.rs:171-332 | over every run, what was seized and is neither credited nor still owed is the carried residual, the dip left by balances below deposits and the stated rounding of touches |
| `ReactorTheorems.OverPromiseCondition` | crates/fusd-math/src/reactor_pool.rs:171-202 | after every run, by exactly how much the next offset promises more than it takes in; it does only if the surplus, an average of past residuals, is above the residual carried now, and exactly then where touches can have forgone nothing |
| `ReactorTheorems.TouchesAreFair` | programs/fusd-core/src/reactor.rs:40-51 | after every run, a touch pays the naive balance and credits the naive gain, never more, and short only by the stated rounding |
| `ReactorTheorems.BelowLimit` | crates/fusd-math/src/reactor_pool.rs:180-221 | below 1e18 the loss numerator never underflows and a partial offset never rolls the epoch |
| `ReactorTheorems.ProvideWithdrawRoundTrip` | programs/fusd-core/src/instructions/provide_to_reactor.rs:45-91 | right after providing, the account is worth exactly what it was worth before plus the amount |
| `ReactorTheorems.GridIsWriteOnce` | crates/fusd-math/src/reactor_pool.rs:136-221 | over every run `P` stays in [1e9, 1e18], cells after the current one are zero, earlier cells never change again, and (epoch, scale) only moves forward |
| `ReactorTheorems.InsolventJustAbove` | crates/fusd-math/src/reactor_pool.rs:180-221 | a pool one billionth and one unit above 1e18 in which a partial offset rolls the epoch with a residual of the whole pool; after one more offset it owes one unit more than it holds and refuses to pay |
| `ReactorTheorems.OverpaidCollateral` | crates/fusd-math/src/reactor_pool.rs:171-202 | a run that credits 1799 units of collateral out of 1000 seized, and the same run for one unit, which over-promises and credits one |
| `ReactorRuns.RunKeepsInv` | crates/fusd-math/src/reactor_pool.rs:156-332 | every run from a fresh pool keeps the refinement of the naive ledger and the two exact equations, of balances with deposits and of gains with collateral seized |
| `ReactorRuns.NextKeepsInv` | programs/fusd-core/src/reactor.rs:12-60 | every single operation, failed ones included, keeps that invariant |
| `ReactorRuns.AbsorbKeepsInv` | programs/fusd-core/src/instructions/liquidate.rs:274-282 | a liquidation through the pool keeps it |
| `ReactorRuns.ProvideKeepsInv` | programs/fusd-core/src/instructions/provide_to_reactor.rs:45-91 | a deposit keeps it |
| `ReactorRuns.WithdrawKeepsInv` | programs/fusd-core/src/instructions/withdraw_from_reactor.rs:45-94 | a withdrawal keeps it |
| `ReactorRuns.ClaimKeepsInv` | programs/fusd-core/src/instructions/claim_reactor_gains.rs:41-86 | a claim keeps it |
| `ReactorRuns.OpenKeepsInv` | programs/fusd-core/src/instructions/open_reactor_deposit.rs:30-46 | opening an account keeps it |
| `ReactorRuns.RealizeBounds` | programs/fusd-core/src/reactor.rs:40-51 | what a touch pays or credits is within the naive account and short of it only by rounding |
| `ReactorRuns.TouchLoss` | programs/fusd-core/src/reactor.rs:40-51 | what a touch does not pay or credit is within an allowance computed from the recorded deposit and the offsets since, and nothing when there were none |
| `ReactorRuns.OffsetKeepsBalance` | crates/fusd-math/src/reactor_pool.rs:180-221 | through one partial offset every claim loses the same fraction, up to one billionth, across rescales |
| `ReactorRuns.OffsetKeepsGain` | crates/fusd-math/src/reactor_pool.rs:195-202 | through one offset the cells a snapshot can see gain exactly its share, unless it is more than one rescale behind |
| `ReactorRuns.OffsetKeepsPool` | crates/fusd-math/src/reactor_pool.rs:195-221 | one offset moves only the current cell and moves the current cell forward |
| `ReactorSolvency.OffsetBalances` | crates/fusd-math/src/reactor_pool.rs:171-194 | balances are deposits plus surplus less residual less what was forgone, exactly, through one offset, partial or total |
| `ReactorSolvency.OffsetConserves` | crates/fusd-math/src/reactor_pool.rs:171-194 | what one offset promises is what was seized less the residual's change plus the share of whatever balances differ from deposits, exactly |
| `ReactorLedger.GaugeIsPools` | crates/fusd-math/src/reactor_pool.rs:180-194 | surplus and slack are functions of the pool account's own history, whoever the depositors are |
| `ReactorClaims.CompoundedBounds` | crates/fusd-math/src/reactor_pool.rs:289-307 | `compounded_deposit` is the exact claim, never above it, short by at most two units and a billionth of the deposit |
| `ReactorClaims.CollateralGainBounds` | crates/fusd-math/src/reactor_pool.rs:311-332 | `collateral_gain` is what the two cells stand for, never above, short by less than three units |
| `ReactorClaims.CompoundedExact` | crates/fusd-math/src/reactor_pool.rs:289-307 | a deposit at most one rescale old is worth the floor of one exact quotient, or nothing if that is below a billionth of it; an older one is worth nothing |
| `ReactorClaims.GainExact` | crates/fusd-math/src/reactor_pool.rs:311-332 | a gain is the floor of one exact quotient, and is refused exactly if the sum or the gain at 18 decimals passes 128 bits |
| `ReactorClaims.ClaimStep` | crates/fusd-math/src/reactor_pool.rs:203-221 | a claim scales by each loss factor through any number of rescales |
| `ReactorClaims.ProductStep` | crates/fusd-math/src/reactor_pool.rs:237-265 | one product update, with its rescales undone, is the exact product within a billionth, from below |
| `ReactorClaims.DeepClaim` | crates/fusd-math/src/reactor_pool.rs:289-307 | two rescales away a deposit is worth at most a billionth of itself, which is why it may be dropped |
| `ReactorMath.UpdateProductDomain` | crates/fusd-math/src/reactor_pool.rs:237-265 | on [1e9, 1e18] the update never fails, lands back in the range, needs at most two rescales and floors the exact product |
| `ReactorPool.RescaleLoop` | crates/fusd-math/src/reactor_pool.rs:237-265 | the loop computes the product update |
| `ReactorPool.RescaleLoopU128` | crates/fusd-math/src/reactor_pool.rs:271-285 | the 128-bit twin never overflows on the pool's range and equals the wide loop there; elsewhere it may only fail |
| `ReactorPool.Pool.constructor` | crates/fusd-math/src/reactor_pool.rs:111-123 | a new pool has `P` at 1e18 and an all-zero grid |
| `ReactorPool.Pool.Absorb` | crates/fusd-math/src/reactor_pool.rs:156-225 | the in-place offset reaches exactly the state the theorems speak of; on failure product, epoch, scale and deposits are untouched |
| `ReactorAccounts.DepositAccount.constructor` | programs/fusd-core/src/instructions/open_reactor_deposit.rs:30-46 | a new account is empty, snapshot at the pool's product, scale and epoch |
| `ReactorAccounts.DepositAccount.Realize` | programs/fusd-core/src/reactor.rs:40-51 | the in-place realize returns the compounded deposit and adds exactly the gain to the pending balance |
| `ReactorAccounts.DepositAccount.SetSnapshot` | programs/fusd-core/src/reactor.rs:54-60 | the account's snapshot becomes the pool's present one and nothing else moves |
| `ReactorAccounts.DepositAccount.Provide` | programs/fusd-core/src/instructions/provide_to_reactor.rs:45-91 | the in-place deposit reaches exactly the state of the run model, pending balance included, or fails with the model's error |
| `ReactorAccounts.DepositAccount.Withdraw` | programs/fusd-core/src/instructions/withdraw_from_reactor.rs:45-94 | the same for a withdrawal, and what is paid out is what leaves the pool's total |
| `ReactorAccounts.DepositAccount.ClaimGains` | programs/fusd-core/src/instructions/claim_reactor_gains.rs:41-86 | the same for a claim; it pays the old pending balance plus the gain just realized |
| `MarketTheorems.AggregateDebtTracksPositions` | programs/fusd-core/src/accrual.rs:29-95 | after every run the weighted sum is exact; while the clock does not run backwards the aggregate debt is at least all that positions owe, interest and pending redistribution included, and at most three units per operation more |
| `MarketTheorems.AggregatesInParts` | programs/fusd-core/src/accrual.rs:29-95 | after every run at any clock the debt is exactly what positions record, interest booked and not yet charged, and debt redistributed and not yet folded in; the collateral likewise; nothing is folded in that was not redistributed |
| `MarketTheorems.RedistributionConserves` | crates/fusd-math/src/redistribution.rs:88-156 | over every run at any clock, what liquidations fed into the accumulators is what touches folded into positions, what is pending for them and the residual, to within one unit per operation, for debt and for collateral |
| `MarketTheorems.InterestNeverShort` | crates/fusd-math/src/interest.rs:17-70 | over every run, interest booked for the market and interest charged twice are together at least what positions were charged and still owe, and at most two units per operation more; nothing is charged twice while the clock does not run backwards |
| `MarketTheorems.CollateralTracksPositions` | programs/fusd-core/src/redist.rs:48-81 | after every run at any clock the collateral total is at least all that positions hold with their redistributed shares, at most one unit per operation more, and covers all stakes |
| `MarketTheorems.SupplyIsBacked` | programs/fusd-core/src/supply_transition.rs:118-272 | after every run at any clock fUSD minted less burned is aggregate debt less unminted interest plus bad debt |
| `MarketTheorems.TouchNeverUnderflows` | programs/fusd-core/src/supply_transition.rs:135-140 | after every run at any clock, whatever collateral, stake and weight a current position may give up the aggregates can give up, and debt too while the clock does not run backwards |
| `MarketTheorems.SettleSucceeds` | programs/fusd-core/src/accrual.rs:110-119 | at any clock a change goes through if it takes off no more than the position has, fits the widths and finds the debt in the aggregate; the last is automatic while the clock does not run backwards; taking off more is always refused |
| `MarketTheorems.LiquidationNeverStalls` | programs/fusd-core/src/instructions/liquidate.rs:131-503 | a position in debt can always be closed out unless a counter or accumulator passes its width or, after a clock that ran backwards, the aggregate lacks the debt to come off |
| `MarketTheorems.RedistributionIsProRata` | crates/fusd-math/src/redistribution.rs:88-134 | each position's debt grows in proportion to its stake, to within one accumulator unit per unit staked |
| `MarketTheorems.ClosingLosesNothing` | programs/fusd-core/src/instructions/close_position.rs:29-36 | after every run at any clock an empty position has no stake, owes nothing and is owed nothing |
| `MarketRewinds.CoverThroughTouch` | programs/fusd-core/src/accrual.rs:63-95 | through any touch, early or not, the aggregate's cover of the positions moves by exactly what is recharged less what is rounded off, so it is kept if and only if that is within the cover there was |
| `MarketRewinds.CoverOverRuns` | programs/fusd-core/src/accrual.rs:29-95 | after every run at any clock the aggregate exceeds what positions owe by exactly the rounding of ceilings and floors less what touches and liquidations before the clock charged twice; so it covers them if and only if no more than the rounding was charged twice |
| `MarketRewinds.RechargedInSteps` | programs/fusd-core/src/accrual.rs:63-95 | what a run charged twice is the sum of what each of its touches and liquidations recharges in the state it finds |
| `MarketRuns.RechargesNothing` | programs/fusd-core/src/accrual.rs:63-95 | a touch at the market's clock recharges nothing, whatever it changes |
| `MarketRewinds.RewindRecharges` | programs/fusd-core/src/accrual.rs:63-95 | a bare touch before the clock recharges interest on what it folds in, and the whole weight for time the position was already ahead |
| `MarketTheorems.RewoundClockUnderstates` | programs/fusd-core/src/accrual.rs:63-95 | a touch before the market's clock leaves a debt above the aggregate that cannot be repaid |
| `MarketRoundTrips.BorrowRepayRoundTrip` | programs/fusd-core/src/instructions/borrow.rs:49-176 | borrowing and repaying amount plus fee at one moment, at any clock, leaves exactly a bare touch behind, the fee burned and owed to the buffer |
| `MarketRoundTrips.DepositWithdrawRoundTrip` | programs/fusd-core/src/instructions/deposit.rs:49-90 | depositing and withdrawing the same collateral at one moment, at any clock, leaves exactly a bare touch behind |
| `MarketRoundTrips.TouchTwiceIsOnce` | programs/fusd-core/src/accrual.rs:63-95 | a second touch at the same moment, at any clock, changes nothing |
| `MarketFlows.BooksMatchCirculation` | programs/fusd-core/src/supply_transition.rs:118-272 | over every run at any clock the market's debt less unminted interest, plus bad debt, is the fUSD its operations handed out less what they took in, each read off the operation: amounts borrowed without fees, repayments up to the debt, redemptions, absorbed liquidations, minted interest, settlements |
| `MarketFlows.CollateralMatchesFlows` | programs/fusd-core/src/instructions/redeem.rs:216-224 | over every run at any clock the market's collateral is deposits less withdrawals, redeemed collateral and what liquidated positions held, plus what liquidations left for the others, each read off the operation |
| `MarketFlows.TouchMovesPosition` | programs/fusd-core/src/instructions/redeem.rs:210-228 | a touch moves its position's collateral, debt and rate by exactly what the change says on top of what it was current with, moves the collateral total by the same, and leaves every other position alone |
| `MarketFlows.LoanCosts` | crates/fusd-math/src/interest.rs:44-70 | between two touches a position is charged its own rate on its debt for exactly the time between, floored |
| `MarketFlows.OpensEmpty` | programs/fusd-core/src/instructions/open_position.rs:38-74 | a position is opened empty at the rate asked for, owing from now on, and nobody else is touched |
| `MarketLiveness.AccrueFailsIff` | programs/fusd-core/src/accrual.rs:29-49 | booking interest fails if and only if it would pass the width of what is owed or unminted, in arithmetic on the counters |
| `MarketLiveness.AccrualFitsForAges` | programs/fusd-core/src/accrual.rs:29-49 | a market of at most 2^64 debt at rates up to 100% can book any 63-bit number of seconds |
| `MarketLiveness.RunKeepsCounters` | programs/fusd-core/src/accrual.rs:29-49 | every run keeps aggregate debt and unminted interest within 128 bits |
| `MarketLiveness.RealizeFailsIff` | programs/fusd-core/src/accrual.rs:63-95 | bringing a position current fails if and only if weight, interest, a share or a result passes its width |
| `MarketLiveness.TouchGoesThrough` | programs/fusd-core/src/instructions/repay.rs:44-96 | after every run a whole touch succeeds under those conditions if it takes off no more than is there and stays within widths; the debt aggregate need not be asked while the clock does not run backwards |
| `MarketLiveness.LiquidationGoesThrough` | programs/fusd-core/src/instructions/liquidate.rs:131-503 | after every run whose clock does not run backwards a whole liquidation of a position in debt succeeds under those conditions if the accumulators can take what is spread |
| `MarketLiveness.RefusedOperations` | programs/fusd-core/src/instructions/liquidate.rs:131-240 | exactly which operations are refused outright: unknown positions, victims without debt or with too little collateral, settling more bad debt than there is, a second shutdown |
| `MarketLiveness.MintingPaysDown` | programs/fusd-core/src/supply_transition.rs:162-204 | minting never fails for cuts of at most 100% and pays bad debt down by exactly its cut of what the keeper leaves, or by all of it |
| `MarketLiveness.RefreshGoesThrough` | programs/fusd-core/src/instructions/refresh_market.rs:59-140 | a refresh succeeds whenever interest can be booked |
| `MarketLiveness.ShutdownStopsInterest` | programs/fusd-core/src/instructions/shutdown.rs:62-64 | after a shutdown no run books interest any more, at any clock, and no position is charged past it |
| `MarketRoundTrips.LiquidationMoves` | programs/fusd-core/src/instructions/liquidate.rs:222-240 | a liquidated debt is burned, booked as bad debt or left for the others; bad debt is booked, and the market shut down, if and only if nobody shares and no tier covers |
| `MarketRoundTrips.StakesFollowCollateral` | programs/fusd-core/src/instructions/liquidate.rs:465-478 | right after a liquidation new collateral earns stakes in the proportion of all stakes to all collateral, and restarts at the collateral itself when no stake is left |
| `MarketRoundTrips.InterestIsUsedOnce` | programs/fusd-core/src/supply_transition.rs:162-204 | what is minted plus what pays bad debt down is exactly what leaves the unminted books |
| `MarketAccounts.MarketAccount.constructor` | programs/fusd-core/src/instructions/init_market.rs:149-170 | a new market owes, holds and stakes nothing |
| `MarketAccounts.MarketAccount.Accrue` | programs/fusd-core/src/accrual.rs:29-49 | the in-place accrual reaches the model's state or changes nothing |
| `MarketAccounts.PositionAccount.constructor` | programs/fusd-core/src/instructions/open_position.rs:38-74 | a new position is empty, with its clock and snapshots at the present |
| `MarketAccounts.PositionAccount.Realize` | programs/fusd-core/src/accrual.rs:63-95 | the in-place realize brings the account to the model's position |
| `MarketAccounts.PositionAccount.Reweight` | programs/fusd-core/src/accrual.rs:99-119 | the weighted sum moves by the difference of weights, or the call fails and nothing moves |
| `MarketAccounts.PositionAccount.SetStake` | programs/fusd-core/src/redist.rs:70-81 | stake and total move together, or the call fails and nothing moves |
| `MarketAccounts.PositionAccount.Touch` | programs/fusd-core/src/instructions/repay.rs:44-96 | a whole in-place instruction reaches exactly the state of the run model, moves the account's collateral, debt and rate by exactly what the change says, and keeps the market's invariant, or fails with the model's error |
| `MarketAccounts.PositionAccount.Liquidate` | programs/fusd-core/src/instructions/liquidate.rs:131-503 | the whole in-place liquidation, through the in-place accumulators, reaches exactly the state of the run model and keeps the market's invariant, or fails with the model's error |
| `MarketRuns.RunKeepsInv` | programs/fusd-core/src/accrual.rs:29-119 | every run from an empty market, at any clock, keeps the whole invariant: sound positions, exact sums, the supply identity, and three books that balance exactly with at most two units of interest, one of redistributed debt and one of collateral rounded per operation |
| `MarketRuns.NextKeepsInv` | programs/fusd-core/src/accrual.rs:29-119 | every single operation at any time, failed ones included, keeps it |
| `MarketRuns.RunKeepsOnTime` | programs/fusd-core/src/accrual.rs:29-95 | while the clock does not run backwards no position in debt is ahead of the market and nothing is charged twice |
| `MarketRuns.TouchKeepsInv` | programs/fusd-core/src/instructions/repay.rs:44-96 | accrue, realize, change, reweight and restake together keep it |
| `MarketRuns.LiquidateKeepsInv` | programs/fusd-core/src/instructions/liquidate.rs:131-503 | a liquidation keeps it |
| `MarketRuns.CloseOutKeeps` | programs/fusd-core/src/instructions/liquidate.rs:146-497 | taking the victim out, splitting its debt over the tiers, spreading the rest and resetting the snapshots keeps sums, supply and books, and leaves all stakes within the collateral |
| `MarketRuns.SpreadBalances` | crates/fusd-math/src/redistribution.rs:88-134 | spreading moves debt and collateral into accumulators and residuals without a remainder |
| `MarketRuns.SettleKeeps` | programs/fusd-core/src/redist.rs:70-81 | a settled change keeps sums, supply and books |
| `MarketRuns.TouchBalances` | programs/fusd-core/src/accrual.rs:63-95 | bringing a position current moves exactly what it is charged and paid from the books into its record |
| `MarketTheorems.CoversEach` | programs/fusd-core/src/supply_transition.rs:219-238 | at any clock collateral, stake and weight of any one position brought current are within the aggregates |
| `MarketTheorems.DebtCovered` | programs/fusd-core/src/supply_transition.rs:219-238 | and so is its debt while the clock does not run backwards |
| `MarketRuns.StakesWithinCollateral` | crates/fusd-math/src/redistribution.rs:161-172 | stakes never exceed recorded collateral, nor that the collateral total, so stake snapshots stay at a ratio of at most one |
| `MarketRuns.MintKeeps` | programs/fusd-core/src/supply_transition.rs:162-204 | minting booked interest, with its cuts and the bad-debt paydown, keeps sums, supply and books |
| `MarketRuns.OpenKeeps` | programs/fusd-core/src/instructions/open_position.rs:38-74 | opening a position keeps sums, supply and books |
| `MarketRuns.AccrueKeeps` | programs/fusd-core/src/accrual.rs:29-49 | booking the whole market's interest, rounded up, keeps sums, supply and books and adds at most one unit of rounding |
| `MarketInvariant.FloorsLeave` | programs/fusd-core/src/accrual.rs:63-95 | bringing a position current rounds away less than one unit each of interest, redistributed debt and collateral, never the other way |
| `MarketInvariant.CoverIs` | programs/fusd-core/src/accrual.rs:29-95 | balanced books give the aggregate's cover exactly: rounding less what was charged twice |
| `MarketInvariant.InterestFloor` | crates/fusd-math/src/interest.rs:44-70 | a position's accrued interest is the floor of its exact interest |
| `MarketSums.InterestsOverTime` | crates/fusd-math/src/interest.rs:17-57 | time adds to all interest due together exactly the weighted sum's interest |
| `MarketSums.ArtSharesOverLevel` | crates/fusd-math/src/redistribution.rs:136-156 | an accumulator's move adds to all pending debt together exactly the move per unit staked |
| `Market.Absorb` | crates/fusd-math/src/recovery.rs:64-82 | the five tiers add up to the debt, none exceeds its capacity, each is reached only when the ones before it are used up, and debt is left unhomed if and only if no tier can cover it |
| `Redistribution.AccumulateExact` | crates/fusd-math/src/redistribution.rs:104-134 | what all stakes gain plus the new residual is exactly what came in plus the old one, and the residual is below the stakes |
| `Redistribution.AccumulateFailsIff` | crates/fusd-math/src/redistribution.rs:88-134 | an accumulation fails if and only if it takes the level past 128 bits, and never while the level has room for the amount at 18 decimals |
| `Redistribution.RedistributeFailsIff` | crates/fusd-math/src/redistribution.rs:88-134 | a redistribution succeeds if and only if somebody has a stake and both accumulators have room |
| `Redistribution.StakeWithinCollateral` | crates/fusd-math/src/redistribution.rs:161-172 | at a snapshot ratio of at most one the stake is computed and is at most the collateral |
| `Redistribution.AccumulateInto` | crates/fusd-math/src/redistribution.rs:104-134 | the program's accumulation computes that level and residual, and fails exactly when the level passes 128 bits |
| `Redistribution.RedistAccount.constructor` | crates/fusd-math/src/redistribution.rs:73-76 | both accumulators and residuals start at zero |
| `Redistribution.RedistAccount.Of` | programs/fusd-core/src/redist.rs:25-32 | the accumulators taken out of a market are the market's |
| `Redistribution.RedistAccount.Apply` | crates/fusd-math/src/redistribution.rs:88-100 | the in-place redistribution reaches the model's state; without stakes it changes nothing |
| `NeutralRounds.FoldClosedForm` | crates/fusion-stake-math/src/targets.rs:176-201 | the step-by-step fold is the closed form for every slice of a round; no saturating addition saturates |
| `NeutralRounds.FoldGrantsClosed` | crates/fusion-stake-math/src/targets.rs:176-201 | each validator gets its base by ordinal, clipped to its capacity |
| `NeutralRounds.BasesSumToRemaining` | crates/fusion-stake-math/src/targets.rs:145-201 | exactly `remainder` ordinals fall in the rotated window and the bases sum to the round's lamports |
| `NeutralRounds.FoldConcat` | programs/fusion-stake-controller/src/instructions/plan_neutral_batch.rs:71-205 | folding batches one after another is folding them at once |
| `NeutralRounds.CompleteIsInert` | crates/fusion-stake-math/src/targets.rs:176-181 | steps after completion change nothing |
| `NeutralRounds.BaseFits` | crates/fusion-stake-math/src/targets.rs:186-189 | the one addition that could overflow a base never does |
| `NeutralDistribution.RoundOutcome` | crates/fusion-stake-math/src/targets.rs:168-175 | a round grants at most what it has, all of it unless it saturates somebody, and exactly the saturated leave |
| `NeutralDistribution.DistributionExact` | crates/fusion-stake-math/src/targets.rs:223-251 | grants plus shortfall equal the neutral pool, the shortfall is the excess over all capacity, and rounds never outnumber validators with room |
| `NeutralDistribution.Fairness` | crates/fusion-stake-math/src/targets.rs:223-251 | two unsaturated validators differ by at most the number of rounds, and a saturated one got at most that much more |
| `NeutralDistribution.AroundLevel` | crates/fusion-stake-math/src/targets.rs:223-251 | all grants are within the number of rounds of one common level, from below only for the saturated |
| `NeutralRotation.RoundGrants` | crates/fusion-stake-math/src/targets.rs:85-201 | every round grants each validator with room its even share of what remains, the extra lamport if and only if its ordinal less the epoch, modulo the members, is below the remainder, clipped to its room |
| `NeutralRotation.RoomySplit` | crates/fusion-stake-math/src/targets.rs:223-251 | with room for all a distribution is one round that grants exactly those shares |
| `NeutralRotation.RotationIsEven` | crates/fusion-stake-math/src/targets.rs:81-91 | over any n epochs in a row with the same pool and n members every ordinal falls in the window exactly remainder times, and gets exactly the whole pool once |
| `NeutralDriver.DistributeNeutral` | crates/fusion-stake-math/src/targets.rs:223-251 | the in-place driver ends with the distribution's capacities, rounds and shortfall, credits each target what its capacity lost, and with room for all grants every validator its even share by ordinal and epoch |
| `NeutralDriver.RunRound` | crates/fusion-stake-math/src/targets.rs:236-247 | one in-place pass leaves the round's capacities and credits its grants |
| `Lifecycle.TransitionRule` | crates/fusion-stake-math/src/lifecycle.rs:125-169 | every transition of every trace as a rule on the observed epochs alone, both directions; increases are frozen exactly in failed epochs |
| `Lifecycle.CountersAreStreaks` | crates/fusion-stake-math/src/lifecycle.rs:125-169 | the stored counters are the true streaks, capped at 255 |
| `Lifecycle.WindingIsForever` | crates/fusion-stake-math/src/lifecycle.rs:125-169 | once draining, a validator only winds down |
| `Lifecycle.GuardSuppressesLiveness` | crates/fusion-stake-math/src/lifecycle.rs:125-169 | under the global guard nobody with an honest commission drains |
| `EpochPlan.PlanConserves` | crates/fusion-stake-math/src/targets.rs:40-79 | reserve, targets and shortfall add up to the pool; targets lie between floor and cap; only Active validators get neutral stake; a shortfall means every Active one is at its cap |
| `EpochPlan.TargetsByStatus` | crates/fusion-stake-math/src/lifecycle.rs:181-197 | each target against basis points of the pool by status: a Candidate its directed share up to the candidate cap, an Active validator between that and the active cap and at the cap if anything is left over, everybody else nothing |
| `EpochPlan.PlanSplitsEvenly` | crates/fusion-stake-math/src/targets.rs:223-251 | with room for all each Active validator's target is its directed floor plus its even share by the epoch's rotation |
| `EpochPlan.RejectedIffOverdirected` | crates/fusion-stake-math/src/targets.rs:58-68 | a plan is rejected if and only if directed shares exceed the supply |
| `EpochPlan.DirectedWithinProductive` | crates/fusion-stake-math/src/targets.rs:40-46 | directed floors never exceed the productive lamports when shares are within supply |
| `EpochPlan.WindingGetsNothing` | crates/fusion-stake-math/src/lifecycle.rs:186-197 | from Draining on, cap, directed target and neutral capacity are zero in every later epoch |
| `EpochPlan.ReserveIsLeast` | crates/fusion-stake-math/src/reserve.rs:16-28 | the reserve is the least amount that meets both floors as far as the pool can, and the rest is productive |
| `EpochPlan.DirectedIsShare` | crates/fusion-stake-math/src/targets.rs:40-46 | a directed floor is the exact share rounded down, wherever neither cap nor width clips it |
| `WideMath.WideMulExact` | crates/fusd-math/src/lib.rs:105-118 | the two words are the exact product and fit 128 bits each |
| `WideMath.NoIntermediateOverflow` | crates/fusd-math/src/lib.rs:105-118 | no sum or product of limbs on the way overflows |
| `WideMath.Div256By128` | crates/fusd-math/src/lib.rs:127-151 | the division returns the true quotient and remainder, `None` exactly when the quotient needs more than 128 bits |
| `WideMath.DivStep` | crates/fusd-math/src/lib.rs:141-149 | one shift-and-subtract step with its lost carry bit is exact |
| `WideMath.QuotientFits` | crates/fusd-math/src/lib.rs:127-130 | the quotient fits if and only if the high word is below the divisor |
| `WideMath.WideMulAddDiv` | crates/fusd-math/src/lib.rs:159-169 | multiply, add and divide is exact; the carry never overflows the high word |
| `WideMath.MulDivFloorOfWords` | crates/fusd-math/src/lib.rs:62-87 | the word-wise path computes the same floor and failures as the exact 256-bit one |
| `WideMath.MulDivCeilOfWords` | crates/fusd-math/src/lib.rs:91-99 | the same for the ceiling, including a ceiling that no longer fits |
| `WideMath.RoundingsBracket` | crates/fusd-math/src/lib.rs:84-99 | the two roundings return `q` if and only if `q` is the largest multiple below or the smallest above and fits |
| `RayMath.RayPowLoop` | crates/fusd-math/src/lib.rs:218-230 | the squaring loop computes the floored power |
| `RayMath.NeverAboveTruePower` | crates/fusd-math/src/lib.rs:218-230 | for every base and exponent the result never exceeds the true power |
| `RayMath.WithinTruePower` | crates/fusd-math/src/lib.rs:218-230 | for a base of at most one it never fails and is below the true power by at most `exp - 1` units in the last place |
| `RayMath.WithinTruePowerAboveOne` | crates/fusd-math/src/lib.rs:218-230 | for a base of at least one it succeeds whenever the true power fits 128 bits and loses at most a fraction of 10^-27 per multiplication |
| `BaseRate.DecayFollowsExponential` | crates/fusd-math/src/redemption.rs:31-41 | decay stays within one unit per minute below the true exponential and never raises the rate |
| `BaseRate.HalvesInSixHours` | crates/fusd-math/src/redemption.rs:18-21 | 360 minutes leave half of the rate, short by at most the floor and above it by at most a part in 10^13 |
| `BaseRate.BumpBounds` | crates/fusd-math/src/redemption.rs:47-56 | a bump adds half the redeemed share of the debt, floored, or stops at 100%; with no debt or a share past 128 bits the rate stays |
| `BaseRate.RateStaysInRange` | crates/fusd-math/src/redemption.rs:31-56 | over every run of decays and redemptions the rate stays within 100%, and moves only the way each event may move it |
| `BaseRate.FeeBounds` | crates/fusd-math/src/redemption.rs:65-70 | the fee lies between min(floor, cap) and cap, is flat with the dynamic part disabled, is the floor plus the rate in whole basis points where unclamped, and is monotone in the rate |
| `TwapMath.TwapIsExactMean` | crates/fusd-oracle/src/twap.rs:150-179 | once all guards hold the weights sum to the window, the answer is the floor of the exact second-by-second mean, and it is withheld only when that sum needs more than 128 bits |
| `TwapMath.TwapAnswersIff` | crates/fusd-oracle/src/twap.rs:150-179 | an average is offered if and only if the window is positive and starts within 64 bits, enough samples are held, the newest is neither from the future nor too old, the oldest is no later than the window's start, and the second-by-second sum fits 128 bits |
| `TwapMath.RingAveragesHistory` | crates/fusd-oracle/src/twap.rs:117-179 | after every run of pushes a ring of any size averages the whole accepted history or gives no answer, and none later than its newest timestamp plus the staleness allowed |
| `TwapMath.AcceptedIffNewest` | crates/fusd-oracle/src/twap.rs:117-134 | a push is accepted if and only if it is newer than everything pushed before |
| `TwapMath.TwapWithinPrices` | crates/fusd-oracle/src/twap.rs:150-179 | the average lies within any bounds on the price in effect during the window |
| `TwapMath.NewestPriceMovesTwapLittle` | crates/fusd-oracle/src/twap.rs:147-179 | raising only the newest price raises the average by at most the rounded-up share of the window it has been in effect |
| `TwapMath.RingHoldsLastAccepted` | crates/fusd-oracle/src/twap.rs:117-134 | after every run of pushes the ring holds the last N accepted observations in strictly increasing time |
| `TwapRing.ObservationRing.constructor` | crates/fusd-oracle/src/twap.rs:82-92 | a new ring is empty |
| `TwapRing.ObservationRing.Last` | crates/fusd-oracle/src/twap.rs:101-107 | the slot before `next` is the newest observation |
| `TwapRing.ObservationRing.Nth` | crates/fusd-oracle/src/twap.rs:110-115 | the wrapped slot is the k-th oldest observation |
| `TwapRing.ObservationRing.Push` | crates/fusd-oracle/src/twap.rs:120-134 | a push appends and drops the oldest once full, or is refused and changes nothing |
| `TwapRing.ObservationRing.Twap` | crates/fusd-oracle/src/twap.rs:150-179 | the loop computes the average of the ring's contents with all its guards, and answers only within them |
| `TwapRing.UnrolledPush` | crates/fusd-oracle/src/twap.rs:120-134 | overwriting the next slot is appending to the unrolled contents |
| `RateBucket.Set` | crates/fusd-math/src/rate_bucket.rs:36-38 | adds exactly bucket `b` to the set |
| `RateBucket.Clear` | crates/fusd-math/src/rate_bucket.rs:42-44 | removes exactly bucket `b` from the set |
| `RateBucket.IsSet` | crates/fusd-math/src/rate_bucket.rs:48-50 | answers membership |
| `RateBucket.FirstSet` | crates/fusd-math/src/rate_bucket.rs:55-62 | returns the least member, `None` exactly for the empty set |
| `RateBucket.FirstSetFrom` | crates/fusd-math/src/rate_bucket.rs:66-83 | returns the least member at or above the cursor, `None` exactly when there is none |
| `RateBucket.Drain` | crates/fusd-math/src/rate_bucket.rs:64-83 | finding and clearing from a moving cursor empties the bitmap and returns its members, each once, strictly ascending |
| `RateBucket.BucketsOrderRates` | crates/fusd-math/src/rate_bucket.rs:21-25 | a bucket holds exactly the rates of its width, the last one all above, so a lower bucket holds only lower rates |
| `RateBucket.CmpComparesRatios` | crates/fusd-math/src/rate_bucket.rs:96-105 | comparing cross products compares the exact collateral ratios |
| `RateBucket.CmpIsTotalPreorder` | crates/fusd-math/src/rate_bucket.rs:96-105 | the comparison is a total preorder on positions in debt and blind to scaling a position |
| `RateBucket.SortAscends` | programs/fusd-core/src/instructions/redeem.rs:177-177 | the stable sort by it is a permutation of the candidates, ascending in exact collateral ratio |
| `RateBucket.SortIsStable` | programs/fusd-core/src/instructions/redeem.rs:177-177 | candidates of equal ratio keep their order |
| `RateBucket.SortedAscendsInRatio` | crates/fusd-math/src/rate_bucket.rs:90-105 | neighbours in order suffice for the whole sequence to ascend in collateral ratio |
| `RateBits.LowestBit` | crates/fusd-math/src/rate_bucket.rs:57-59 | a word is non-zero if and only if its trailing zeros name a set bit, the lowest |
| `RateBits.FromBit` | crates/fusd-math/src/rate_bucket.rs:72-73 | masking off below `from` keeps exactly the bits at or above it |

## Left out

- Prices, health checks, debt ceilings, CCR and SCR bands, rate limits and the order of redemption candidates: they only refuse operations of the market.
- Token transfers, mints and burns, account validation, events, liquidation bonds and `ink_nonce`: no accounting field of the model depends on them.
- Splitting seized collateral into surplus, gas compensation, the pool's share and the rest: the rest is a parameter of a liquidation, at most the victim's collateral.
- The Reactor Pool and the market are separate machines: a liquidation's pool capacity is a parameter of the market, and its collateral share a parameter of the pool.
- Closing a position: the emptied position stays in the model's list; `ClosingLosesNothing` says why that is the same.
- `bnum` big integers: unbounded naturals with the program's conversion checks.
- Oracle aggregation, price scaling, stake churn, rewards, preferences, governance, keepers and the SDK: straight-line policy or plumbing without a run-level property.
- How minted interest is divided among keeper, backstop and buffer: only the amounts minted and paid down enter the model's state.
- Bucket member counts beside the bitmap: one counter per bucket, settled by reading.
- ReactorPool.Pool.Absorb: a failed offset may have moved residuals and the current cell; only the untouched fields are stated, because the transaction is dropped.
- ReactorAccounts.DepositAccount.Withdraw: after a failure the account is not described, for the same reason.
- ReactorAccounts.DepositAccount.ClaimGains: after a failure the account is not described, for the same reason.
- MarketAccounts.PositionAccount.Realize: after a failure the account is not described, for the same reason.
- MarketAccounts.PositionAccount.Touch: after a failure the accounts are not described, for the same reason.
- MarketAccounts.PositionAccount.Liquidate: after a failure the accounts are not described, for the same reason.
- Redistribution.RedistAccount.Apply: after a failure only the debt accumulator is described, for the same reason.
- Aborts: where a checked subtraction of timestamps stops the program, the model gives no answer.
