/** What every operation on a market keeps, at any clock: positions are sound, aggregates are the sums they
    stand for, and three books balance to the last fraction of a unit. */
module MarketInvariant {
  import opened FixedPoint
  import opened Market
  import opened MarketSums
  import opened Redistribution

  /** No snapshot from the future, and a stake no larger than the collateral. */
  ghost predicate PositionSound(p: Position, redist: RedistState) {
    && p.snapColl <= redist.coll.level
    && p.snapArt <= redist.art.level
    && p.stake <= p.ink
  }

  ghost predicate PositionsSound(s: State) {
    forall p <- s.ps :: PositionSound(p, s.redist)
  }

  /** The O(1) aggregates are the sums they stand for. */
  ghost predicate Aggregated(s: State) {
    && s.weighted == Total(Weights(), s.ps)
    && s.totalStakes == Total(Stakes(), s.ps)
    && (s.collSnapshot == 0 || s.stakesSnapshot <= s.collSnapshot)
  }

  /** What was minted is the debt outside unminted interest, plus the bad debt nobody owes. */
  ghost predicate SupplyIdentity(s: State) {
    s.minted == s.agg - s.unminted + s.badDebt
  }

  /** One accumulator over a run: what was fed in, what touches folded into positions, and what their
      floors left behind, in units of 10^-18. */
  datatype Stream = Stream(fed: int, paid: int, rounding: int)

  /** Interest over a run: what the aggregate booked, what touches charged, what ceilings added and floors
      left behind, and what touches before the clock charged again; the last two in units of
      1 / INTEREST_DENOM. */
  datatype Accrual = Accrual(booked: int, realized: int, rounding: int, recharged: int)

  /** The books of a run of `ops` operations. */
  datatype Books = Books(ops: nat, interest: Accrual, art: Stream, coll: Stream)

  const EMPTY_BOOKS := Books(0, Accrual(0, 0, 0, 0), Stream(0, 0, 0), Stream(0, 0, 0))

  /** Nothing fed in is lost: it was paid, is still pending, is carried as residual, or was rounded off. */
  ghost predicate StreamBalances(st: Stream, pending: int, residual: int) {
    st.fed * 1_000_000_000_000_000_000 == st.paid * 1_000_000_000_000_000_000 + pending + residual + st.rounding
  }

  /** Interest booked is interest charged, still due, or rounding, less what was charged twice. */
  ghost predicate InterestBalances(a: Accrual, due: int) {
    a.booked * 315_360_000_000 + a.recharged == a.realized * 315_360_000_000 + due + a.rounding
  }

  /** The aggregates in terms of recorded debts and collateral: beside them, only interest booked and not
      yet charged, and what was redistributed and not yet folded in. */
  ghost predicate AggregatesBalance(agg: int, totalColl: int, ps: seq<Position>, b: Books) {
    && agg == Total(Debts(), ps) + (b.interest.booked - b.interest.realized) + (b.art.fed - b.art.paid)
    && totalColl == Total(Inks(), ps) + (b.coll.fed - b.coll.paid)
  }

  ghost predicate Balanced(agg: int, totalColl: int, clock: int, redist: RedistState, ps: seq<Position>, b: Books) {
    && AggregatesBalance(agg, totalColl, ps, b)
    && InterestBalances(b.interest, Total(Interests(clock), ps))
    && StreamBalances(b.art, Total(ArtShares(redist.art.level), ps), redist.art.error)
    && StreamBalances(b.coll, Total(CollShares(redist.coll.level), ps), redist.coll.error)
  }

  /** Rounding is never against the market, and costs at most two units of interest, one of redistributed
      debt and one of collateral per operation. */
  ghost predicate Rounded(b: Books) {
    && 0 <= b.interest.rounding <= 2 * b.ops * 315_360_000_000
    && 0 <= b.art.rounding <= b.ops * 1_000_000_000_000_000_000
    && 0 <= b.coll.rounding <= b.ops * 1_000_000_000_000_000_000
  }

  /** All that is kept, but for the bounds on rounding. */
  ghost predicate Core(s: State, b: Books) {
    && PositionsSound(s)
    && Aggregated(s)
    && SupplyIdentity(s)
    && Balanced(s.agg, s.totalColl, s.clock, s.redist, s.ps, b)
  }

  ghost predicate Inv(s: State, b: Books) {
    Core(s, b) && Rounded(b)
  }

  /** No position in debt is ahead of the market's clock, and nothing was ever charged twice. */
  ghost predicate OnTime(s: State, b: Books) {
    && (forall p <- s.ps :: p.debt > 0 ==> p.since <= s.clock)
    && b.interest.recharged == 0
  }

  /** Everything owed, down to the residual the accumulator carries. */
  ghost function AllOwed(s: State): int {
    Total(Owing(s.clock, s.redist.art.level), s.ps) + s.redist.art.error * 315_360_000_000
  }

  ghost function AllHeld(s: State): int {
    Total(Holding(s.redist.coll.level), s.ps) + s.redist.coll.error
  }

  /** By how much the aggregate exceeds what is owed, at any clock: interest and share rounding, less what
      was charged twice. And by how much the collateral exceeds what is held: share rounding. */
  lemma CoverIs(s: State, b: Books)
    requires Balanced(s.agg, s.totalColl, s.clock, s.redist, s.ps, b)
    ensures s.agg * DEBT_UNIT - AllOwed(s)
         == (b.interest.rounding - b.interest.recharged) * WAD + b.art.rounding * INTEREST_DENOM
    ensures s.totalColl * WAD - AllHeld(s) == b.coll.rounding
  {
    hide Total;
    TotalsSplit(s.ps, s.clock, s.redist.art.level, s.redist.coll.level);
  }

  /** The aggregate never understates what is owed and overstates it by at most `slack` units. */
  ghost predicate Backed(s: State, slack: nat) {
    AllOwed(s)
    <= s.agg * 315_360_000_000_000_000_000_000_000_000
    <= AllOwed(s) + slack * 315_360_000_000_000_000_000_000_000_000
  }

  ghost predicate Collateralized(s: State, slack: nat) {
    AllHeld(s)
    <= s.totalColl * 1_000_000_000_000_000_000
    <= AllHeld(s) + slack * 1_000_000_000_000_000_000
  }

  lemma InvCovers(s: State, b: Books)
    requires Inv(s, b)
    ensures Collateralized(s, b.ops)
    ensures b.interest.recharged == 0 ==> Backed(s, 3 * b.ops)
  {
    hide Total, PositionsSound, AllOwed, AllHeld, Balanced;
    CoverIs(s, b);
  }

  // ----- what bringing a position current does ---------------------------------------------------

  /** How far a position's interest is brought: `now`, or the moment interest stopped. */
  function CapOf(s: State, now: int): int {
    if s.shutdown then s.clock else now
  }

  function PeriodOf(s: State, p: Position, now: int): nat {
    Max(CapOf(s, now) - p.since, 0)
  }

  function InterestCharged(s: State, p: Position, now: int): nat {
    match AccruedInterest(p.debt, p.rate, PeriodOf(s, p, now)) case Some(x) => x case None => 0
  }

  function ArtFolded(s: State, p: Position): nat {
    match PendingOne(p.stake, s.redist.art.level, p.snapArt) case Some(x) => x case None => 0
  }

  function CollFolded(s: State, p: Position): nat {
    match PendingOne(p.stake, s.redist.coll.level, p.snapColl) case Some(x) => x case None => 0
  }

  /** Interest a touch leaves due at the market's clock, over what was due there before and not charged.
      The aggregate has booked none of it. */
  function Recharge(s: State, p: Position, p': Position, now: int): int {
    Weight(p') * (s.clock - CapOf(s, now)) - Weight(p) * (s.clock - Max(CapOf(s, now), p.since))
  }

  lemma RealizeSplits(s: State, p: Position, now: int)
    requires Realize(s, p, now).Ok?
    ensures var q := Realize(s, p, now).value;
            && q.debt == p.debt + InterestCharged(s, p, now) + ArtFolded(s, p)
            && q.ink == p.ink + CollFolded(s, p)
            && q.since == CapOf(s, now) && q.rate == p.rate && q.stake == p.stake
            && q.snapColl == s.redist.coll.level && q.snapArt == s.redist.art.level
    ensures AccruedInterest(p.debt, p.rate, PeriodOf(s, p, now)).Some?
    ensures PendingOne(p.stake, s.redist.art.level, p.snapArt).Some?
    ensures PendingOne(p.stake, s.redist.coll.level, p.snapColl).Some?
  {
    hide AccruedInterest, PendingOne;
  }

  /** What the three floors leave behind is less than one unit each. */
  lemma FloorsLeave(s: State, p: Position, now: int)
    requires PositionSound(p, s.redist) && Realize(s, p, now).Ok?
    ensures 0 <= Weight(p) * PeriodOf(s, p, now) - InterestCharged(s, p, now) * 315_360_000_000 <= 315_360_000_000
    ensures 0 <= ShareOf(p, s.redist.art.level, p.snapArt) - ArtFolded(s, p) * 1_000_000_000_000_000_000
              <= 1_000_000_000_000_000_000
    ensures 0 <= ShareOf(p, s.redist.coll.level, p.snapColl) - CollFolded(s, p) * 1_000_000_000_000_000_000
              <= 1_000_000_000_000_000_000
  {
    InterestFloor(p, PeriodOf(s, p, now));
    PendingFloor(p.stake, s.redist.art.level, p.snapArt);
    PendingFloor(p.stake, s.redist.coll.level, p.snapColl);
  }

  lemma InterestFloor(p: Position, period: nat)
    requires AccruedInterest(p.debt, p.rate, period).Some?
    ensures var accrued := AccruedInterest(p.debt, p.rate, period).value;
            accrued * 315_360_000_000 <= Weight(p) * period < (accrued + 1) * 315_360_000_000
  {
  }

  lemma PendingFloor(stake: nat, level: nat, snap: nat)
    requires snap <= level
    requires PendingOne(stake, level, snap).Some?
    ensures var got := PendingOne(stake, level, snap).value;
            got * 1_000_000_000_000_000_000 <= stake * (level - snap) < (got + 1) * 1_000_000_000_000_000_000
  {
  }

  // ----- how the books move ----------------------------------------------------------------------

  /** The books once the market's interest is booked. */
  function BooksAccrued(s: State, b: Books, now: int): Books {
    match Accrue(s, now)
    case Err(_) => b
    case Ok(s1) =>
      var pending := s1.agg - s.agg;
      b.(interest := b.interest.(
           booked := b.interest.booked + pending,
           rounding := b.interest.rounding + pending * 315_360_000_000 - s.weighted * (s1.clock - s.clock)))
  }

  /** The books once position `p` has been brought current and replaced by `p'`, with `fedArt` and `fedColl`
      fed into the accumulators. */
  function BooksTouched(s: State, b: Books, p: Position, p': Position, now: int, fedArt: int, fedColl: int): Books {
    var (charged, art, coll) := (InterestCharged(s, p, now), ArtFolded(s, p), CollFolded(s, p));
    b.(interest := b.interest.(
         realized := b.interest.realized + charged,
         rounding := b.interest.rounding + Weight(p) * PeriodOf(s, p, now) - charged * 315_360_000_000,
         recharged := b.interest.recharged + Recharge(s, p, p', now)),
       art := Stream(b.art.fed + fedArt, b.art.paid + art,
                     b.art.rounding + ShareOf(p, s.redist.art.level, p.snapArt) - art * 1_000_000_000_000_000_000),
       coll := Stream(b.coll.fed + fedColl, b.coll.paid + coll,
                      b.coll.rounding + ShareOf(p, s.redist.coll.level, p.snapColl) - coll * 1_000_000_000_000_000_000))
  }

  /** The debt a liquidation leaves for the other positions. */
  function RedistributedDebt(s: State, q: Position, b: Backing): nat {
    Absorb(q.debt, b.reactor, s.totalStakes > q.stake, b.buffer, b.global).redist
  }

  /** The books beside one operation. A failed one only counts. */
  function BooksNext(s: State, b: Books, op: Op, now: int): Books {
    var counted := b.(ops := b.ops + 1);
    match Apply(s, op, now)
    case Err(_) => counted
    case Ok(s') =>
      match op
      case OpenPosition(_) => counted
      case SettleBadDebt(_) => counted
      case Refresh(_) => BooksAccrued(s, counted, now)
      case Shutdown => BooksAccrued(s, counted, now)
      case Touch(i, _) =>
        var s1 := Accrue(s, now).value;
        BooksTouched(s1, BooksAccrued(s, counted, now), s1.ps[i], s'.ps[i], now, 0, 0)
      case Liquidate(i, backing) =>
        var s1 := Accrue(s, now).value;
        var fed := RedistributedDebt(s1, Realize(s1, s1.ps[i], now).value, backing);
        BooksTouched(s1, BooksAccrued(s, counted, now), s1.ps[i], s'.ps[i], now,
                     fed, if fed > 0 then backing.collRest else 0)
  }

  /** The books of a run from an empty market. */
  function RunBooks(clock: int, steps: seq<Step>): (b: Books)
    ensures b.ops == |steps|
  {
    if steps == [] then EMPTY_BOOKS
    else
      var before, last := steps[..|steps| - 1], steps[|steps| - 1];
      BooksNext(Run(Fresh(clock), before), RunBooks(clock, before), last.op, last.now)
  }
}
