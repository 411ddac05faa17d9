/** A market and its positions: aggregate interest booked in O(1), each position brought current
    only when it is touched, and liquidated debt spread lazily over the others. Price, health and
    ceiling checks are not modelled: they only refuse operations, so every run of the program is a
    run of this model. */
module Market {
  import opened FixedPoint
  import opened Redistribution

  /** 365 * 86400 * 10_000: interest is `debt * rate_bps * seconds` over this. */
  const INTEREST_DENOM: nat := 315_360_000_000

  function WeightedDebt(debt: nat, rate: nat): Option<nat> {
    Fits(U128_MAX, debt * rate)
  }

  function PendingAggregateInterest(weighted: nat, dt: nat): Option<nat> {
    MulDivCeil(weighted, dt, INTEREST_DENOM)
  }

  function AccruedInterest(debt: nat, rate: nat, period: nat): Option<nat> {
    match WeightedDebt(debt, rate)
    case None => None
    case Some(w) => MulDivFloor(w, period, INTEREST_DENOM)
  }

  datatype Position = Position(
    ink: nat,
    debt: nat,
    rate: nat,
    since: int,
    stake: nat,
    snapColl: nat,
    snapArt: nat)

  datatype State = State(
    agg: nat,
    unminted: nat,
    weighted: nat,
    clock: int,
    shutdown: bool,
    redist: RedistState,
    totalStakes: nat,
    totalColl: nat,
    stakesSnapshot: nat,
    collSnapshot: nat,
    badDebt: nat,
    minted: int,
    ps: seq<Position>)

  /** A market with no position yet. `minted` is what it has minted less what it has burned. */
  function Fresh(clock: int): State {
    State(0, 0, 0, clock, false, GENESIS, 0, 0, 0, 0, 0, 0, [])
  }

  datatype Failure = Overflow | Refused

  /** Book the whole market's interest up to `now`. */
  function Accrue(s: State, now: int): (r: Result<State, Failure>) {
    if now <= s.clock || s.shutdown then Ok(s)
    else
      match PendingAggregateInterest(s.weighted, now - s.clock)
      case None => Err(Overflow)
      case Some(pending) =>
        if s.agg + pending > U128_MAX || s.unminted + pending > U128_MAX then Err(Overflow)
        else Ok(s.(agg := s.agg + pending, unminted := s.unminted + pending, clock := now))
  }

  /** Bring one position current: its own interest and its pending redistribution. */
  function Realize(s: State, p: Position, now: int): (r: Result<Position, Failure>) {
    var cap := if s.shutdown then s.clock else now;
    var period := Max(cap - p.since, 0);
    match AccruedInterest(p.debt, p.rate, period)
    case None => Err(Overflow)
    case Some(accrued) =>
      match (PendingOne(p.stake, s.redist.coll.level, p.snapColl), PendingOne(p.stake, s.redist.art.level, p.snapArt))
      case (Some(coll), Some(art)) =>
        if p.ink + coll > U64_MAX || p.debt + accrued + art > U128_MAX then Err(Overflow)
        else Ok(p.(ink := p.ink + coll, debt := p.debt + accrued + art, since := cap,
                   snapColl := s.redist.coll.level, snapArt := s.redist.art.level))
      case _ => Err(Overflow)
  }

  /** What a touch may do to a current position. Fees are decided by the caller. */
  datatype Change =
    | Deposit(amount: nat)
    | Withdraw(amount: nat)
    | Borrow(amount: nat, fee: nat)
    | Repay(amount: nat)
    | AdjustRate(rate: nat, fee: nat)
    | Redeem(amount: nat, coll: nat)

  /** The amounts a change moves: onto and off the debt, the part booked as unminted interest, onto
      and off the collateral, and the rate from now on. */
  datatype Move = Move(up: nat, down: nat, fee: nat, inkUp: nat, inkDown: nat, rate: nat)

  function MoveOf(p: Position, c: Change): Move {
    match c
    case Deposit(amount) => Move(0, 0, 0, amount, 0, p.rate)
    case Withdraw(amount) => Move(0, 0, 0, 0, amount, p.rate)
    case Borrow(amount, fee) => Move(amount + fee, 0, fee, 0, 0, p.rate)
    case Repay(amount) => Move(0, Min(amount, p.debt), 0, 0, 0, p.rate)
    case AdjustRate(rate, fee) => Move(fee, 0, fee, 0, 0, rate)
    case Redeem(amount, coll) => Move(0, amount, 0, 0, coll, p.rate)
  }

  /** A move takes off no more than the position has. */
  predicate Covered(p: Position, m: Move) {
    m.down <= p.debt + m.up && m.inkDown <= p.ink + m.inkUp
  }

  /** Neither the aggregates run short nor a counter passes its width. */
  predicate Bookable(s: State, p: Position, m: Move)
    requires Covered(p, m)
  {
    && m.down <= s.agg + m.up <= U128_MAX && s.unminted + m.fee <= U128_MAX
    && m.inkDown <= s.totalColl + m.inkUp <= U128_MAX
    && p.debt + m.up - m.down <= U128_MAX && p.ink + m.inkUp - m.inkDown <= U64_MAX
  }

  function BookedPosition(p: Position, m: Move): Position
    requires Covered(p, m)
  {
    p.(debt := p.debt + m.up - m.down, ink := p.ink + m.inkUp - m.inkDown, rate := m.rate)
  }

  function BookedMarket(s: State, m: Move): State
    requires m.down <= s.agg + m.up && m.inkDown <= s.totalColl + m.inkUp
  {
    s.(agg := s.agg + m.up - m.down,
       unminted := s.unminted + m.fee,
       minted := s.minted + m.up - m.fee - m.down,
       totalColl := s.totalColl + m.inkUp - m.inkDown)
  }

  /** Put position `i` in its new form `p`: its weight and its stake replace the old ones. */
  function Reweighed(s: State, i: nat, was: Position, p: Position): (r: Result<State, Failure>)
    requires i < |s.ps|
  {
    match (WeightedDebt(was.debt, was.rate), WeightedDebt(p.debt, p.rate),
           ComputeStake(p.ink, s.stakesSnapshot, s.collSnapshot))
    case (Some(oldWeight), Some(newWeight), Some(stake)) =>
      if s.weighted + newWeight > U128_MAX || s.weighted + newWeight < oldWeight then Err(Overflow)
      else if s.totalStakes < p.stake || s.totalStakes - p.stake + stake > U128_MAX then Err(Overflow)
      else Ok(s.(weighted := s.weighted + newWeight - oldWeight,
                 totalStakes := s.totalStakes - p.stake + stake,
                 ps := s.ps[i := p.(stake := stake)]))
    case _ => Err(Overflow)
  }

  /** Apply a move to a current position. It refuses to take off what is not there. */
  function Settle(s: State, i: nat, was: Position, p: Position, m: Move): (r: Result<State, Failure>)
    requires i < |s.ps|
  {
    if !Covered(p, m) then Err(Refused)
    else if !Bookable(s, p, m) then Err(Overflow)
    else Reweighed(BookedMarket(s, m), i, was, BookedPosition(p, m))
  }

  /** The five tiers a liquidated debt is split over, in strict order. */
  datatype Absorption = Absorption(reactor: nat, redist: nat, buffer: nat, global: nat, unhomed: nat)

  function Absorb(debt: nat, reactorCapacity: nat, hasRecipients: bool, buffer: nat, global: nat): (a: Absorption)
    ensures a.reactor + a.redist + a.buffer + a.global + a.unhomed == debt
    ensures a.reactor <= reactorCapacity && a.buffer <= buffer && a.global <= global
    ensures a.redist > 0 ==> hasRecipients
    ensures a.reactor < debt ==> a.reactor == reactorCapacity
    ensures hasRecipients ==> a.buffer == a.global == a.unhomed == 0
    ensures a.global > 0 ==> a.buffer == buffer
    ensures a.unhomed > 0 <==> !hasRecipients && debt > reactorCapacity + buffer + global
  {
    var reactor := Min(debt, reactorCapacity);
    var rest := debt - reactor;
    var redist := if hasRecipients then rest else 0;
    var rest2 := rest - redist;
    var buffered := Min(rest2, buffer);
    var backstop := Min(rest2 - buffered, global);
    Absorption(reactor, redist, buffered, backstop, rest2 - buffered - backstop)
  }

  /** The capacities a liquidation finds, and the collateral left for redistribution after surplus,
      gas compensation and the Reactor Pool's share. */
  datatype Backing = Backing(reactor: nat, buffer: nat, global: nat, collRest: nat)

  function SplitOf(s: State, p: Position, b: Backing): Absorption
    requires p.stake <= s.totalStakes
  {
    Absorb(p.debt, b.reactor, s.totalStakes > p.stake, b.buffer, b.global)
  }

  /** The aggregates hold what the victim takes out of them. */
  predicate Strippable(s: State, p: Position, b: Backing, oldWeight: nat) {
    && p.stake <= s.totalStakes && p.ink <= s.totalColl
    && var split := SplitOf(s, p, b);
    && p.debt - split.redist <= s.agg && s.badDebt + split.unhomed <= U128_MAX && oldWeight <= s.weighted
  }

  /** The victim out of every aggregate, and all its debt but the part to be spread. */
  function Stripped(s: State, p: Position, b: Backing, oldWeight: nat): State
    requires Strippable(s, p, b, oldWeight)
  {
    var split := SplitOf(s, p, b);
    var gone := p.debt - split.redist;
    s.(agg := s.agg - gone, badDebt := s.badDebt + split.unhomed, minted := s.minted - (gone - split.unhomed),
       weighted := s.weighted - oldWeight, totalStakes := s.totalStakes - p.stake, totalColl := s.totalColl - p.ink)
  }

  /** The accumulators stored and the stake snapshots retaken. */
  function Finished(s: State, redist: RedistState, coll: nat, unhomed: bool): State {
    s.(redist := redist, totalColl := s.totalColl + coll, shutdown := s.shutdown || unhomed,
       stakesSnapshot := s.totalStakes, collSnapshot := if s.totalStakes == 0 then 0 else s.totalColl + coll)
  }

  function Emptied(p: Position, redist: RedistState): Position {
    p.(debt := 0, ink := 0, stake := 0, snapColl := redist.coll.level, snapArt := redist.art.level)
  }

  /** Close out position `i`, already current as `p`, in a market already accrued. */
  function CloseOut(s: State, i: nat, was: Position, p: Position, b: Backing): (r: Result<State, Failure>)
    requires i < |s.ps|
  {
    if p.debt == 0 || b.collRest > p.ink then Err(Refused)
    else
      match WeightedDebt(was.debt, was.rate)
      case None => Err(Overflow)
      case Some(oldWeight) =>
        if !Strippable(s, p, b, oldWeight) then Err(Overflow)
        else
          var split, t := SplitOf(s, p, b), Stripped(s, p, b, oldWeight);
          if split.redist > 0 then
            match Redistribute(t.redist, t.totalStakes, b.collRest, split.redist)
            case Err(_) => Err(Overflow)
            case Ok(redist) => Ok(Finished(t, redist, b.collRest, false).(ps := s.ps[i := Emptied(p, redist)]))
          else Ok(Finished(t, t.redist, 0, split.unhomed > 0).(ps := s.ps[i := Emptied(p, t.redist)]))
  }

  /** Basis points of booked interest handed to the keeper, to paying bad debt down and to the
      backstop, and the most the backstop takes. The rest goes to the insurance buffer. */
  datatype Cuts = Cuts(keeper: nat, paydown: nat, backstop: nat, headroom: nat)

  function Cut(amount: nat, bps: nat): nat {
    amount * bps / 10_000
  }

  /** Mint booked interest. The part that pays bad debt down is not minted. */
  function MintInterest(s: State, c: Cuts): (r: Result<State, Failure>) {
    var amount := Min(s.unminted, U64_MAX);
    var keeper := Cut(amount, c.keeper);
    if keeper > amount then Err(Overflow)
    else
      var paydown := Min(Cut(amount - keeper, c.paydown), s.badDebt);
      if paydown > amount - keeper then Err(Overflow)
      else
        var backstop := Min(Cut(amount - keeper - paydown, c.backstop), c.headroom);
        if backstop > amount - keeper - paydown then Err(Overflow)
        else
          var buffer := amount - keeper - paydown - backstop;
          Ok(s.(unminted := s.unminted - amount, badDebt := s.badDebt - paydown,
                minted := s.minted + keeper + backstop + buffer))
  }

  datatype Op =
    | OpenPosition(rate: nat)
    | Refresh(cuts: Cuts)
    | SettleBadDebt(burned: nat)
    | Touch(i: nat, change: Change)
    | Liquidate(i: nat, backing: Backing)
    | Shutdown

  function Apply(s: State, op: Op, now: int): (r: Result<State, Failure>) {
    match op
    case OpenPosition(rate) =>
      Ok(s.(ps := s.ps + [Position(0, 0, rate, now, 0, s.redist.coll.level, s.redist.art.level)]))
    case Refresh(cuts) =>
      (match Accrue(s, now)
       case Err(e) => Err(e)
       case Ok(s1) => MintInterest(s1, cuts))
    case SettleBadDebt(burned) =>
      if burned > s.badDebt then Err(Refused)
      else Ok(s.(badDebt := s.badDebt - burned, minted := s.minted - burned))
    case Touch(i, change) =>
      if i >= |s.ps| then Err(Refused)
      else
        (match Accrue(s, now)
         case Err(e) => Err(e)
         case Ok(s1) =>
           match Realize(s1, s1.ps[i], now)
           case Err(e) => Err(e)
           case Ok(p) => Settle(s1, i, s1.ps[i], p, MoveOf(p, change)))
    case Liquidate(i, backing) =>
      if i >= |s.ps| then Err(Refused)
      else
        (match Accrue(s, now)
         case Err(e) => Err(e)
         case Ok(s1) =>
           match Realize(s1, s1.ps[i], now)
           case Err(e) => Err(e)
           case Ok(p) => CloseOut(s1, i, s1.ps[i], p, backing))
    case Shutdown =>
      if s.shutdown then Err(Refused)
      else
        match Accrue(s, now)
        case Err(e) => Err(e)
        case Ok(s1) => Ok(s1.(shutdown := true))
  }

  /** A failed transaction is rolled back by the runtime. */
  function Next(s: State, op: Op, now: int): State {
    match Apply(s, op, now)
    case Ok(s') => s'
    case Err(_) => s
  }

  datatype Step = Step(op: Op, now: int)

  function Run(s: State, steps: seq<Step>): State {
    if steps == [] then s
    else
      var last := steps[|steps| - 1];
      Next(Run(s, steps[..|steps| - 1]), last.op, last.now)
  }
}
