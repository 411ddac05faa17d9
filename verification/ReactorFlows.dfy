/** What depositors put in, were credited and were paid, added up over every run of the Reactor Pool. */
module ReactorFlows {
  import opened FixedPoint
  import opened ReactorLedger
  import opened ReactorMath

  /** Whether an operation touches account `who`. */
  predicate Touches(op: Op, who: nat) {
    match op
    case Provide(x, _) => x == who
    case Withdraw(x, _) => x == who
    case ClaimGains(x) => x == who
    case _ => false
  }

  /** The collateral account `who` has earned since its last touch. */
  function EarnedBy(w: Reactor, who: nat): nat
    requires who < |w.deps|
  {
    match CollateralGain(w.grid, w.stride, w.deps[who].deposited, w.deps[who].snap)
    case Ok(g) => g
    case Err(_) => 0
  }

  /** What an operation credits to account `who`: all it has earned, at every touch. */
  function CreditedTo(w: Reactor, op: Op, who: nat): nat {
    if Apply(w, op).Err? || who >= |w.deps| || !Touches(op, who) then 0 else EarnedBy(w, who)
  }

  /** What an operation pays account `who` in collateral: a claim pays all the account has pending and all it
      has earned. */
  function PaidTo(w: Reactor, op: Op, who: nat): nat {
    if Apply(w, op).Err? || who >= |w.deps| || op != ClaimGains(who) then 0
    else w.deps[who].pending + EarnedBy(w, who)
  }

  function TotalCreditedTo(w: Reactor, ops: seq<Op>, who: nat): nat {
    if ops == [] then 0
    else
      var before := ops[..|ops| - 1];
      TotalCreditedTo(w, before, who) + CreditedTo(Run(w, before), ops[|ops| - 1], who)
  }

  function TotalPaidTo(w: Reactor, ops: seq<Op>, who: nat): nat {
    if ops == [] then 0
    else
      var before := ops[..|ops| - 1];
      TotalPaidTo(w, before, who) + PaidTo(Run(w, before), ops[|ops| - 1], who)
  }

  function PendingOf(w: Reactor, who: nat): nat {
    if who < |w.deps| then w.deps[who].pending else 0
  }

  lemma RealizeEarns(w: Reactor, who: nat)
    requires who < |w.deps| && Realize(w, w.deps[who]).Ok?
    ensures Realize(w, w.deps[who]).value.gain == EarnedBy(w, who)
  {
    hide CollateralGain, CompoundedDeposit;
  }

  lemma StepPending(w: Reactor, op: Op, who: nat)
    ensures PendingOf(Next(w, op), who) + PaidTo(w, op, who) == PendingOf(w, who) + CreditedTo(w, op, who)
  {
    hide Realize, EarnedBy, Offset, TakeSnapshot;
    if Apply(w, op).Ok? {
      match op
      case Provide(x, _) => RealizeEarns(w, x);
      case Withdraw(x, _) => RealizeEarns(w, x);
      case ClaimGains(x) => RealizeEarns(w, x);
      case _ =>
    }
  }

  /** Over every run, what an account has pending is exactly what it was credited less what claims paid it:
      no touch forgets a gain and no claim pays one twice. */
  lemma {:induction false} PendingIsUnpaid(w: Reactor, ops: seq<Op>, who: nat)
    requires w.deps == []
    ensures PendingOf(Run(w, ops), who) + TotalPaidTo(w, ops, who) == TotalCreditedTo(w, ops, who)
  {
    hide Next, CreditedTo, PaidTo;
    if ops != [] {
      var before := ops[..|ops| - 1];
      PendingIsUnpaid(w, before, who);
      StepPending(Run(w, before), ops[|ops| - 1], who);
    }
  }

  // ----- all accounts together -------------------------------------------------------------------

  function SumPending(deps: seq<ReactorDeposit>): nat {
    if deps == [] then 0 else SumPending(deps[..|deps| - 1]) + deps[|deps| - 1].pending
  }

  /** The collateral that leaves the pool in an operation. */
  function PaidOut(w: Reactor, op: Op): nat {
    match op
    case ClaimGains(who) => PaidTo(w, op, who)
    case _ => 0
  }

  function TotalPaidOut(w: Reactor, ops: seq<Op>): nat {
    if ops == [] then 0
    else
      var before := ops[..|ops| - 1];
      TotalPaidOut(w, before) + PaidOut(Run(w, before), ops[|ops| - 1])
  }

  lemma {:induction false} SumPendingUpdate(deps: seq<ReactorDeposit>, i: nat, d: ReactorDeposit)
    requires i < |deps|
    ensures SumPending(deps[i := d]) + deps[i].pending == SumPending(deps) + d.pending
  {
    var n := |deps| - 1;
    if i == n {
      assert deps[i := d][..n] == deps[..n];
    } else {
      assert deps[i := d][..n] == deps[..n][i := d];
      SumPendingUpdate(deps[..n], i, d);
    }
  }

  lemma SumPendingAppend(deps: seq<ReactorDeposit>, d: ReactorDeposit)
    ensures SumPending(deps + [d]) == SumPending(deps) + d.pending
  {
    assert (deps + [d])[..|deps|] == deps;
  }

  lemma StepCredits(w: Reactor, l: Ledger, op: Op)
    requires |l.accounts| == |w.deps|
    ensures LedgerNext(w, l, op).credited + SumPending(w.deps)
         == l.credited + SumPending(Next(w, op).deps) + PaidOut(w, op)
  {
    hide Realize, EarnedBy, Offset, TakeSnapshot, SumPending, LedgerAfter;
    if Apply(w, op).Ok? {
      match op
      case Open => SumPendingAppend(w.deps, Next(w, op).deps[|w.deps|]);
      case Provide(x, _) => RealizeEarns(w, x); SumPendingUpdate(w.deps, x, Next(w, op).deps[x]);
      case Withdraw(x, _) => RealizeEarns(w, x); SumPendingUpdate(w.deps, x, Next(w, op).deps[x]);
      case ClaimGains(x) => RealizeEarns(w, x); SumPendingUpdate(w.deps, x, Next(w, op).deps[x]);
      case Absorb(debt, coll) => OffsetCredits(w, l, op);
    }
  }

  lemma OffsetCredits(w: Reactor, l: Ledger, op: Op)
    requires |l.accounts| == |w.deps| && op.Absorb? && Apply(w, op).Ok?
    ensures LedgerNext(w, l, op).credited == l.credited && Next(w, op).deps == w.deps
  {
    hide Offset, ComputePerUnit, OffsetAll, GaugeAfter;
  }

  /** All collateral ever credited is pending with somebody or was paid out. */
  lemma {:induction false} CreditedIsPendingOrPaid(w: Reactor, ops: seq<Op>)
    requires w.deps == []
    ensures RunLedger(w, ops).credited == SumPending(Run(w, ops).deps) + TotalPaidOut(w, ops)
  {
    hide Next, LedgerNext, PaidOut;
    if ops != [] {
      var before := ops[..|ops| - 1];
      CreditedIsPendingOrPaid(w, before);
      StepCredits(Run(w, before), RunLedger(w, before), ops[|ops| - 1]);
    }
  }

  // ----- deposits --------------------------------------------------------------------------------

  /** The deposits an operation brings in, less what it takes out: a withdrawal takes what was asked for, up
      to what the account is worth, and a liquidation burns the debt. */
  function DepositsIn(w: Reactor, op: Op): int {
    if Apply(w, op).Err? then 0
    else
      match op
      case Open => 0
      case Provide(_, amount) => amount
      case Withdraw(who, amount) =>
        (if who >= |w.deps| then 0
         else
           match CompoundedDeposit(w.st, w.deps[who].deposited, w.deps[who].snap)
           case Some(worth) => 0 - Min(amount, worth)
           case None => 0)
      case ClaimGains(_) => 0
      case Absorb(debt, _) => 0 - debt
  }

  function TotalDepositsIn(w: Reactor, ops: seq<Op>): int {
    if ops == [] then 0
    else
      var before := ops[..|ops| - 1];
      TotalDepositsIn(w, before) + DepositsIn(Run(w, before), ops[|ops| - 1])
  }

  lemma StepDeposits(w: Reactor, op: Op)
    ensures Next(w, op).st.totalDeposits == w.st.totalDeposits + DepositsIn(w, op)
  {
    hide CollateralGain, CompoundedDeposit, ComputePerUnit, UpdateProduct, TakeSnapshot;
  }

  /** Over every run the pool's total is what was provided less what was withdrawn and burned, each read off
      the operation. */
  lemma {:induction false} DepositsMatchFlows(w: Reactor, ops: seq<Op>)
    ensures Run(w, ops).st.totalDeposits == w.st.totalDeposits + TotalDepositsIn(w, ops)
  {
    hide Next, DepositsIn;
    if ops != [] {
      var before := ops[..|ops| - 1];
      DepositsMatchFlows(w, before);
      StepDeposits(Run(w, before), ops[|ops| - 1]);
    }
  }

  /** And each touch records for its account what it was worth, moved by exactly that. */
  lemma TouchRecords(w: Reactor, op: Op, who: nat)
    requires who < |w.deps| && Touches(op, who) && Apply(w, op).Ok?
    ensures CompoundedDeposit(w.st, w.deps[who].deposited, w.deps[who].snap).Some?
    ensures Next(w, op).deps[who].deposited
         == CompoundedDeposit(w.st, w.deps[who].deposited, w.deps[who].snap).value + DepositsIn(w, op)
    ensures Next(w, op).deps[who].snap == TakeSnapshot(w.st, w.grid, w.stride)
    ensures |Next(w, op).deps| == |w.deps|
    ensures forall i :: 0 <= i < |w.deps| && i != who ==> Next(w, op).deps[i] == w.deps[i]
  {
    hide CollateralGain, CompoundedDeposit, TakeSnapshot;
  }
}
