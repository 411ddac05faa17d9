/** The depositor side of the Reactor Pool and its runs: opening, providing, withdrawing, claiming
    and absorbing liquidations in any order, by any number of depositors. Beside the pool runs a
    naive ledger that visits every depositor at every liquidation and knows nothing of products,
    scales, epochs or grids; the theorems compare the two after every run. */
module ReactorLedger {
  import opened FixedPoint
  import opened ReactorMath
  import opened Reals

  datatype FusdError = ZeroAmount | MathOverflow | ReactorPoolTooSmall | ReactorGridExhausted | UnknownAccount

  function MapErr(e: ReactorError): FusdError {
    match e
    case NoDeposits => ReactorPoolTooSmall
    case DebtExceedsDeposits => ReactorPoolTooSmall
    case ScaleOverflow => ReactorGridExhausted
    case EpochOverflow => ReactorGridExhausted
    case Math => MathOverflow
  }

  /** A depositor account: the deposit recorded at the last touch, the snapshot taken then, and
      the realized collateral not yet paid. */
  datatype ReactorDeposit = ReactorDeposit(deposited: nat, snap: Snapshot, pending: nat)

  /** The pool account, its sum grid and every depositor account, in order of opening. */
  datatype Reactor = Reactor(st: PoolState, grid: seq<nat>, stride: nat, deps: seq<ReactorDeposit>)

  datatype Op =
    | Open
    | Provide(who: nat, amount: nat)
    | Withdraw(who: nat, amount: nat)
    | ClaimGains(who: nat)
    | Absorb(debt: nat, coll: nat)

  function Genesis(stride: nat, cells: nat): Reactor {
    Reactor(FRESH_POOL, seq(cells, _ => 0), stride, [])
  }

  datatype Realized = Realized(compounded: nat, gain: nat)

  /** Fold the accrued gain into the pending balance and report the compounded deposit. */
  function Realize(w: Reactor, dep: ReactorDeposit): (r: Result<Realized, FusdError>) {
    match CompoundedDeposit(w.st, dep.deposited, dep.snap)
    case None => Err(MathOverflow)
    case Some(compounded) =>
      match CollateralGain(w.grid, w.stride, dep.deposited, dep.snap)
      case Err(e) => Err(MapErr(e))
      case Ok(gain) =>
        if gain > U64_MAX || dep.pending + gain > U64_MAX then Err(MathOverflow)
        else Ok(Realized(compounded, gain))
  }

  /** The account after a touch: a fresh snapshot around the new recorded deposit. */
  function Rerecord(w: Reactor, deposited: nat, pending: nat): ReactorDeposit {
    ReactorDeposit(deposited, TakeSnapshot(w.st, w.grid, w.stride), pending)
  }

  function Apply(w: Reactor, op: Op): (r: Result<Reactor, FusdError>) {
    match op
    case Open =>
      Ok(w.(deps := w.deps + [ReactorDeposit(0, Snapshot(w.st.p, 0, w.st.scale, w.st.epoch), 0)]))
    case Provide(who, amount) =>
      if amount == 0 then Err(ZeroAmount)
      else if who >= |w.deps| then Err(UnknownAccount)
      else
        var dep := w.deps[who];
        (match Realize(w, dep)
         case Err(e) => Err(e)
         case Ok(z) =>
           if z.compounded + amount > U64_MAX || w.st.totalDeposits + amount > U128_MAX then Err(MathOverflow)
           else Ok(w.(st := w.st.(totalDeposits := w.st.totalDeposits + amount),
                      deps := w.deps[who := Rerecord(w, z.compounded + amount, dep.pending + z.gain)])))
    case Withdraw(who, amount) =>
      if amount == 0 then Err(ZeroAmount)
      else if who >= |w.deps| then Err(UnknownAccount)
      else
        var dep := w.deps[who];
        (match Realize(w, dep)
         case Err(e) => Err(e)
         case Ok(z) =>
           var out := Min(amount, z.compounded);
           if w.st.totalDeposits < out || z.compounded - out > U64_MAX then Err(MathOverflow)
           else Ok(w.(st := w.st.(totalDeposits := w.st.totalDeposits - out),
                      deps := w.deps[who := Rerecord(w, z.compounded - out, dep.pending + z.gain)])))
    case ClaimGains(who) =>
      if who >= |w.deps| then Err(UnknownAccount)
      else
        var dep := w.deps[who];
        (match Realize(w, dep)
         case Err(e) => Err(e)
         case Ok(z) =>
           if z.compounded > U64_MAX then Err(MathOverflow)
           else Ok(w.(deps := w.deps[who := Rerecord(w, z.compounded, 0)])))
    case Absorb(debt, coll) =>
      if debt == 0 then Ok(w)
      else
        match Offset(w.st, w.grid, w.stride, debt, coll)
        case Err(e) => Err(MapErr(e))
        case Ok((st', grid')) => Ok(w.(st := st', grid := grid'))
  }

  /** A failed transaction is rolled back by the runtime. */
  function Next(w: Reactor, op: Op): Reactor {
    match Apply(w, op)
    case Ok(w') => w'
    case Err(_) => w
  }

  function Run(w: Reactor, ops: seq<Op>): Reactor {
    if ops == [] then w else Next(Run(w, ops[..|ops| - 1]), ops[|ops| - 1])
  }

  function TotalCompounded(st: PoolState, deps: seq<ReactorDeposit>): nat {
    if deps == [] then 0
    else
      var d := deps[|deps| - 1];
      TotalCompounded(st, deps[..|deps| - 1])
      + (match CompoundedDeposit(st, d.deposited, d.snap) case Some(c) => c case None => 0)
  }

  // ----- the naive ledger ----------------------------------------------------------------------

  /** One depositor of the naive ledger. `balance` and `gain` are exact; `sure` counts only the
      collateral earned while the balance stood above a billionth of the recorded deposit, and
      discounts it by a billionth per offset; `offsets` counts the offsets since the last touch. */
  datatype Account = Account(principal: nat, balance: real, gain: real, sure: real, offsets: nat)

  /** What the pool account alone tells an observer. `surplus` is how far balances may stand above
      deposits before the carried loss residual is taken off: an average of the residuals that past
      offsets started from. `slack` is the collateral that offsets may have promised beyond what they
      received, and `unitShares` what one deposit unit would have earned from every offset. */
  datatype Gauge = Gauge(surplus: real, slack: real, unitShares: real)

  /** `seized` is all collateral ever handed to the pool and `credited` all gains ever realized.
      `forgone` is the part of the balances that touches did not pay, shrinking with every offset, and
      `allowance` what it may at most be; `lost` and `lostAllowance` are the same for collateral.
      `drift` is what offsets promised beyond what they received, which may be negative, and `dip` how
      far below zero it may at most be. */
  datatype Ledger = Ledger(
    accounts: seq<Account>,
    seized: nat,
    credited: nat,
    gauge: Gauge,
    forgone: real,
    allowance: real,
    lost: real,
    lostAllowance: real,
    drift: real,
    dip: real)

  const EMPTY_LEDGER := Ledger([], 0, 0, Gauge(0.0, 0.0, 0.0), 0.0, 0.0, 0.0, 0.0, 0.0, 0.0)

  /** A billionth of the recorded deposit for every offset since the last touch. */
  function Exposure(a: Account): real {
    (a.principal * a.offsets) as real / 1_000_000_000.0
  }

  /** What a touch may at most fail to pay of a balance: nothing when no offset has happened since. */
  function TouchAllowance(a: Account): real {
    if a.principal == 0 || a.offsets == 0 then 0.0
    else 2.0 + Exposure(a) + a.principal as real / 1_000_000_000.0
  }

  /** What the exposed part of a deposit can have earned. */
  function Unsure(a: Account, unitShares: real): real {
    Exposure(a) * unitShares
  }

  /** What a touch may at most fail to credit of a gain. */
  function GainAllowance(a: Account, unitShares: real): real {
    if a.offsets == 0 then 0.0 else 3.0 + Unsure(a, unitShares)
  }

  /** What is left of an amount after an offset. */
  function Kept(x: real, u: PerUnit): real {
    x * Fraction(u.factor)
  }

  /** What an amount earns from an offset. */
  function Earned(x: real, u: PerUnit): real {
    x * Fraction(u.gain)
  }

  function Positive(x: real): real {
    if x > 0.0 then x else 0.0
  }

  function Discount(offsets: nat): real {
    1.0 - offsets as real / 1_000_000_000.0
  }

  /** Every balance loses the same fraction, and earns the same collateral per unit of balance. */
  function OffsetAccount(a: Account, u: PerUnit): Account {
    Account(a.principal,
            a.balance * Fraction(u.factor),
            a.gain + a.balance * Fraction(u.gain),
            if a.balance * Discount(a.offsets) > a.principal as real / 1_000_000_000.0
            then a.sure + a.balance * Discount(a.offsets) * Fraction(u.gain) else a.sure,
            a.offsets + 1)
  }

  function SumBalance(s: seq<Account>): real {
    if s == [] then 0.0 else SumBalance(s[..|s| - 1]) + s[|s| - 1].balance
  }

  function SumGain(s: seq<Account>): real {
    if s == [] then 0.0 else SumGain(s[..|s| - 1]) + s[|s| - 1].gain
  }

  function OffsetAll(s: seq<Account>, u: PerUnit): (r: seq<Account>)
    ensures |r| == |s|
    ensures forall i :: 0 <= i < |s| ==> r[i] == OffsetAccount(s[i], u)
  {
    if s == [] then [] else OffsetAll(s[..|s| - 1], u) + [OffsetAccount(s[|s| - 1], u)]
  }

  /** The gauge after an offset. A full drain starts it afresh. */
  function GaugeAfter(g: Gauge, st: PoolState, debt: nat, u: PerUnit): Gauge {
    var residual := Fraction(st.lastLossError);
    Gauge(if debt == st.totalDeposits then 0.0
          else Kept(g.surplus, u) + residual - Kept(residual, u),
          g.slack + Earned(Positive(g.surplus - residual), u),
          g.unitShares + Fraction(u.gain))
  }

  /** The ledger after an offset. */
  function LedgerAfter(w: Reactor, l: Ledger, debt: nat, coll: nat, u: PerUnit): Ledger {
    Ledger(OffsetAll(l.accounts, u), l.seized + coll, l.credited, GaugeAfter(l.gauge, w.st, debt, u),
           Kept(l.forgone, u), Kept(l.allowance, u),
           l.lost, l.lostAllowance,
           l.drift + Earned(SumBalance(l.accounts) - w.st.totalDeposits as real, u),
           l.dip + Earned(Fraction(w.st.lastLossError) + l.allowance, u))
  }

  function Touched(l: Ledger, who: nat, z: Realized, deposited: nat): Ledger
    requires who < |l.accounts|
  {
    var a := l.accounts[who];
    l.(accounts := l.accounts[who := Account(deposited, deposited as real, 0.0, 0.0, 0)],
       credited := l.credited + z.gain,
       forgone := l.forgone + a.balance - z.compounded as real,
       allowance := l.allowance + TouchAllowance(a),
       lost := l.lost + a.gain - z.gain as real,
       lostAllowance := l.lostAllowance + GainAllowance(a, l.gauge.unitShares))
  }

  /** The naive ledger's step beside the pool's. It takes from the pool only what the pool records
      or pays out: the per-unit amounts of an offset and the result of a touch. */
  function LedgerNext(w: Reactor, l: Ledger, op: Op): (l': Ledger)
    requires |l.accounts| == |w.deps|
    ensures |l'.accounts| == |Next(w, op).deps|
  {
    if Apply(w, op).Err? then l
    else
      match op
      case Open => l.(accounts := l.accounts + [Account(0, 0.0, 0.0, 0.0, 0)])
      case Provide(who, amount) =>
        var z := Realize(w, w.deps[who]).value;
        Touched(l, who, z, z.compounded + amount)
      case Withdraw(who, amount) =>
        var z := Realize(w, w.deps[who]).value;
        Touched(l, who, z, z.compounded - Min(amount, z.compounded))
      case ClaimGains(who) =>
        var z := Realize(w, w.deps[who]).value;
        Touched(l, who, z, z.compounded)
      case Absorb(debt, coll) =>
        if debt == 0 then l
        else
          LedgerAfter(w, l, debt, coll, ComputePerUnit(w.st, debt, coll).value)
  }

  /** The naive ledger after a run. */
  function RunLedger(w: Reactor, ops: seq<Op>): (l: Ledger)
    requires w.deps == []
    ensures |l.accounts| == |Run(w, ops).deps|
  {
    if ops == [] then EMPTY_LEDGER
    else
      var before := ops[..|ops| - 1];
      LedgerNext(Run(w, before), RunLedger(w, before), ops[|ops| - 1])
  }

  /** The gauge after a run, from the pool account alone. */
  function RunGauge(w: Reactor, ops: seq<Op>): Gauge {
    if ops == [] then Gauge(0.0, 0.0, 0.0)
    else
      var prior, op := Run(w, ops[..|ops| - 1]), ops[|ops| - 1];
      var g := RunGauge(w, ops[..|ops| - 1]);
      if op.Absorb? && op.debt > 0 && Apply(prior, op).Ok?
      then GaugeAfter(g, prior.st, op.debt, ComputePerUnit(prior.st, op.debt, op.coll).value)
      else g
  }

  lemma {:induction false} GaugeIsPools(w: Reactor, ops: seq<Op>)
    requires w.deps == []
    ensures RunLedger(w, ops).gauge == RunGauge(w, ops)
  {
    hide GaugeAfter, ComputePerUnit, LedgerNext, Next, Apply;
    if ops != [] {
      var before := ops[..|ops| - 1];
      GaugeIsPools(w, before);
      GaugeNext(Run(w, before), RunLedger(w, before), ops[|ops| - 1]);
    }
  }

  lemma GaugeNext(w: Reactor, l: Ledger, op: Op)
    requires |l.accounts| == |w.deps|
    ensures LedgerNext(w, l, op).gauge
         == if op.Absorb? && op.debt > 0 && Apply(w, op).Ok?
            then GaugeAfter(l.gauge, w.st, op.debt, ComputePerUnit(w.st, op.debt, op.coll).value)
            else l.gauge
  {
    hide GaugeAfter, ComputePerUnit, Realize, OffsetAll, Fraction;
  }
}
