/** The epoch plan: reserve, directed floors and neutral rounds over one finalized snapshot. */
module EpochPlan {
  import opened Arith
  import opened FixedPoint
  import opened Lifecycle
  import opened NeutralRounds
  import opened NeutralDistribution
  import opened NeutralRotation

  const BPS_DENOMINATOR: nat := 10_000

  /** `floor(amount * bps / 10_000)`, saturating up. */
  function BpsOf(amount: nat, bps: nat): (r: nat)
    ensures r <= U64_MAX
  {
    Min(amount * bps / BPS_DENOMINATOR, U64_MAX)
  }

  function ReserveTarget(total: nat, reserveMin: nat, reserveBps: nat): (r: nat)
    ensures r <= total
  {
    Min(total, Max(reserveMin, BpsOf(total, reserveBps)))
  }

  /** The least reserve that meets both floors as far as the pool can, and nothing else is kept back. */
  lemma ReserveIsLeast(total: nat, reserveMin: nat, reserveBps: nat, r: nat)
    requires total <= U64_MAX
    ensures r >= ReserveTarget(total, reserveMin, reserveBps) <==>
              r >= Min(total, reserveMin) && (r >= total || (r + 1) * 10_000 > total * reserveBps)
    ensures var reserve := ReserveTarget(total, reserveMin, reserveBps);
            ProductiveLamports(total, reserve) + reserve == total
  {
    hide ProductiveLamports;
    LeastReserve(total, reserveMin, total * reserveBps, r);
    TakenOff(total, ReserveTarget(total, reserveMin, reserveBps));
  }

  lemma LeastReserve(total: nat, reserveMin: nat, n: nat, r: nat)
    requires total <= U64_MAX
    ensures r >= Min(total, Max(reserveMin, Min(n / 10_000, U64_MAX))) <==>
              r >= Min(total, reserveMin) && (r >= total || (r + 1) * 10_000 > n)
  {
  }

  lemma TakenOff(total: nat, reserve: nat)
    requires reserve <= total
    ensures ProductiveLamports(total, reserve) == total - reserve
  {
  }

  function ProductiveLamports(total: nat, reserve: nat): nat {
    SatSub(total, reserve)
  }

  function LifecycleCap(status: ValidatorStatus, total: nat, candidateBps: nat, activeBps: nat): (r: nat)
    ensures r <= U64_MAX
  {
    match status
    case Candidate => BpsOf(total, candidateBps)
    case Active => BpsOf(total, activeBps)
    case _ => 0
  }

  function DirectedTarget(productive: nat, shares: nat, supply: nat, cap: nat): (r: nat)
    ensures r <= cap
  {
    if supply == 0 then 0 else Min(Min(productive * shares / supply, U64_MAX), cap)
  }

  /** A floor is the validator's share of the productive lamports, rounded down, wherever neither its cap
      nor the 64-bit width clips it. */
  lemma DirectedIsShare(productive: nat, shares: nat, supply: nat, cap: nat)
    requires supply > 0
    ensures var r := DirectedTarget(productive, shares, supply, cap);
            && r * supply <= productive * shares
            && (r < cap && r < U64_MAX ==> productive * shares < (r + 1) * supply)
  {
    var share := productive * shares / supply;
    DivBounds(productive * shares, supply);
    MulMonoNat(DirectedTarget(productive, shares, supply, cap), share, supply);
  }

  /** `None` rejects the plan. */
  function NeutralTotal(productive: nat, sumDirected: nat, totalShares: nat, supply: nat): Option<nat> {
    if totalShares > supply || productive < sumDirected then None else Some(productive - sumDirected)
  }

  function NeutralCapacity(status: ValidatorStatus, cap: nat, target: nat): nat {
    if status == Active then SatSub(cap, target) else 0
  }

  datatype Validator = Validator(status: ValidatorStatus, shares: nat)

  datatype Snapshot = Snapshot(
    total: nat,
    reserveMin: nat,
    reserveBps: nat,
    supply: nat,
    candidateBps: nat,
    activeBps: nat,
    epoch: nat,
    validators: seq<Validator>)

  function Productive(s: Snapshot): nat {
    ProductiveLamports(s.total, ReserveTarget(s.total, s.reserveMin, s.reserveBps))
  }

  function CapOf(s: Snapshot, i: nat): nat
    requires i < |s.validators|
  {
    LifecycleCap(s.validators[i].status, s.total, s.candidateBps, s.activeBps)
  }

  function DirectedOf(s: Snapshot, i: nat): nat
    requires i < |s.validators|
  {
    DirectedTarget(Productive(s), s.validators[i].shares, s.supply, CapOf(s, i))
  }

  function Directed(s: Snapshot): (d: seq<nat>)
    ensures |d| == |s.validators|
    ensures forall i :: 0 <= i < |d| ==> d[i] == DirectedOf(s, i)
  {
    seq(|s.validators|, i requires 0 <= i < |s.validators| => DirectedOf(s, i))
  }

  function Shares(s: Snapshot): (d: seq<nat>)
    ensures |d| == |s.validators|
    ensures forall i :: 0 <= i < |d| ==> d[i] == s.validators[i].shares
  {
    seq(|s.validators|, i requires 0 <= i < |s.validators| => s.validators[i].shares)
  }

  function Capacities(s: Snapshot): (d: seq<nat>)
    ensures |d| == |s.validators|
    ensures forall i :: 0 <= i < |d| ==> d[i] == NeutralCapacity(s.validators[i].status, CapOf(s, i), DirectedOf(s, i))
  {
    seq(|s.validators|, i requires 0 <= i < |s.validators| =>
        NeutralCapacity(s.validators[i].status, CapOf(s, i), DirectedOf(s, i)))
  }

  datatype Plan = Plan(targets: seq<nat>, rounds: nat, shortfall: nat)

  /** The whole plan, or its rejection. */
  function PlanEpoch(s: Snapshot): (p: Option<Plan>)
    requires s.total <= U64_MAX
  {
    match NeutralTotal(Productive(s), Sum(Directed(s)), Sum(Shares(s)), s.supply)
    case None => None
    case Some(neutral) =>
      var caps := Capacities(s);
      var out := Distribute(neutral, s.epoch, caps);
      Some(Plan(Credit(Directed(s), caps, out.caps), out.rounds, out.shortfall))
  }

  /** Targets after the rounds: each grows by what its capacity lost, saturating as in the program. */
  function Credit(targets: seq<nat>, before: seq<nat>, after: seq<nat>): (t: seq<nat>)
    requires |targets| == |before| == |after|
    ensures |t| == |targets|
    ensures forall i :: 0 <= i < |t| ==> t[i] == Min(U64_MAX, targets[i] + SatSub(before[i], after[i]))
  {
    seq(|targets|, i requires 0 <= i < |targets| => Min(U64_MAX, targets[i] + SatSub(before[i], after[i])))
  }

  // ----- directed floors -----------------------------------------------------------------------

  /** Floors of shares of `productive` cannot add up to more than the same share of the whole. */
  lemma {:induction false} FloorsWithinShare(productive: nat, supply: nat, shares: seq<nat>, floors: seq<nat>)
    requires |floors| == |shares|
    requires forall i :: 0 <= i < |shares| ==> floors[i] * supply <= shares[i] * productive
    ensures Sum(floors) * supply <= Sum(shares) * productive
  {
    if shares != [] {
      var n := |shares| - 1;
      FloorsWithinShare(productive, supply, shares[..n], floors[..n]);
      SumDistributes(Sum(floors[..n]), floors[n], supply);
      SumDistributes(Sum(shares[..n]), shares[n], productive);
    }
  }

  lemma FloorTimes(productive: nat, share: nat, supply: nat, floor: nat)
    requires supply > 0 && floor <= productive * share / supply
    ensures floor * supply <= share * productive
  {
    DivBounds(productive * share, supply);
    MulMonoNat(floor, productive * share / supply, supply);
  }

  lemma SumDistributes(a: nat, b: nat, c: nat)
    ensures (a + b) * c == a * c + b * c
  {
  }

  lemma {:induction false} SumOfZeros(s: seq<nat>)
    requires forall i :: 0 <= i < |s| ==> s[i] == 0
    ensures Sum(s) == 0
  {
    if s != [] { SumOfZeros(s[..|s| - 1]); }
  }

  lemma DirectedWithinProductive(s: Snapshot)
    requires Sum(Shares(s)) <= s.supply
    ensures Sum(Directed(s)) <= Productive(s)
  {
    hide Sum, Productive, CapOf;
    var p := Productive(s);
    if s.supply == 0 {
      SumOfZeros(Directed(s));
    } else {
      forall i | 0 <= i < |s.validators|
        ensures Directed(s)[i] * s.supply <= Shares(s)[i] * p
      {
        FloorTimes(p, Shares(s)[i], s.supply, Directed(s)[i]);
      }
      FloorsWithinShare(p, s.supply, Shares(s), Directed(s));
      MulMonoNat(Sum(Shares(s)), s.supply, p);
      CancelSupply(Sum(Directed(s)), p, s.supply);
    }
  }

  lemma CancelSupply(a: nat, b: nat, c: nat)
    requires c > 0 && a * c <= b * c
    ensures a <= b
  {
    if a > b { MulMonoNat(b + 1, a, c); }
  }

  /** A plan is rejected exactly when more shares direct than were supplied. */
  lemma RejectedIffOverdirected(s: Snapshot)
    requires s.total <= U64_MAX
    ensures PlanEpoch(s).None? <==> Sum(Shares(s)) > s.supply
  {
    hide Sum, Distribute, Productive;
    if Sum(Shares(s)) <= s.supply {
      DirectedWithinProductive(s);
    }
  }

  // ----- the whole plan ------------------------------------------------------------------------

  lemma {:induction false} SumOfCredit(targets: seq<nat>, before: seq<nat>, after: seq<nat>)
    requires |targets| == |before| == |after|
    requires forall i :: 0 <= i < |targets| ==> after[i] <= before[i] && targets[i] + before[i] <= U64_MAX
    ensures Sum(Credit(targets, before, after)) + Sum(after) == Sum(targets) + Sum(before)
  {
    hide Credit;
    if targets == [] {
      assert Credit(targets, before, after) == [];
    } else {
      var n := |targets| - 1;
      SumOfCredit(targets[..n], before[..n], after[..n]);
      assert Credit(targets, before, after)[..n] == Credit(targets[..n], before[..n], after[..n]);
    }
  }

  lemma CapacityFits(s: Snapshot, i: nat)
    requires i < |s.validators|
    ensures DirectedOf(s, i) <= CapOf(s, i) <= U64_MAX
    ensures DirectedOf(s, i) + Capacities(s)[i] <= U64_MAX
    ensures s.validators[i].status == Active ==> DirectedOf(s, i) + Capacities(s)[i] == CapOf(s, i)
    ensures s.validators[i].status != Active ==> Capacities(s)[i] == 0
  {
    hide Productive;
  }

  /** Whole-plan conservation: every lamport of the pool is reserve, a validator's target, or
      recorded shortfall; every target is within its lifecycle cap; validators that are not Active
      get their directed floor and nothing more; those outside Candidate and Active get nothing. */
  lemma PlanConserves(s: Snapshot)
    requires s.total <= U64_MAX && PlanEpoch(s).Some?
    ensures var plan := PlanEpoch(s).value;
            && |plan.targets| == |s.validators|
            && ReserveTarget(s.total, s.reserveMin, s.reserveBps) + Sum(plan.targets) + plan.shortfall == s.total
            && plan.rounds <= |s.validators|
            && (forall i :: 0 <= i < |s.validators| ==>
                  && DirectedOf(s, i) <= plan.targets[i] <= CapOf(s, i)
                  && (s.validators[i].status != Active ==> plan.targets[i] == DirectedOf(s, i))
                  && (s.validators[i].status in {Registered, Draining, Removable} ==> plan.targets[i] == 0))
            && (plan.shortfall > 0 ==>
                  forall i :: 0 <= i < |s.validators| && s.validators[i].status == Active ==>
                    plan.targets[i] == CapOf(s, i))
  {
    hide Sum, Distribute, ReserveTarget, DirectedTarget, Members, BpsOf;
    var neutral := NeutralTotal(Productive(s), Sum(Directed(s)), Sum(Shares(s)), s.supply).value;
    var caps := Capacities(s);
    DistributionExact(neutral, s.epoch, caps);
    MembersAtMostLength(caps);
    forall i | 0 <= i < |s.validators|
      ensures DirectedOf(s, i) <= CapOf(s, i) && DirectedOf(s, i) + caps[i] <= U64_MAX
      ensures s.validators[i].status == Active ==> DirectedOf(s, i) + caps[i] == CapOf(s, i)
      ensures s.validators[i].status != Active ==> caps[i] == 0
    {
      CapacityFits(s, i);
    }
    SumOfCredit(Directed(s), caps, Distribute(neutral, s.epoch, caps).caps);
  }

  /** Basis points of the pool, rounded down. */
  function PoolShare(total: nat, bps: nat): nat {
    total * bps / 10_000
  }

  /** Each target by status: a Candidate gets its directed share up to the candidate cap and nothing else, an
      Active validator its directed share up to the active cap and neutral lamports up to that cap, all of it
      if any lamport is left over, and everybody else nothing. */
  lemma TargetsByStatus(s: Snapshot, i: nat)
    requires s.total <= U64_MAX && PlanEpoch(s).Some? && i < |s.validators|
    ensures var plan, v := PlanEpoch(s).value, s.validators[i];
            var share := if s.supply == 0 then 0 else Min(Productive(s) * v.shares / s.supply, U64_MAX);
            && |plan.targets| == |s.validators|
            && match v.status
               case Candidate => plan.targets[i] == Min(share, PoolShare(s.total, s.candidateBps))
               case Active =>
                 && Min(share, PoolShare(s.total, s.activeBps)) <= plan.targets[i]
                 && plan.targets[i] <= PoolShare(s.total, s.activeBps)
                 && (plan.shortfall > 0 ==> plan.targets[i] == Min(PoolShare(s.total, s.activeBps), U64_MAX))
               case _ => plan.targets[i] == 0
  {
    hide PlanEpoch, Productive, Sum, Distribute, PoolShare;
    PlanConserves(s);
    CapByStatus(s, i);
    DirectedByCap(Productive(s), s.validators[i].shares, s.supply, CapOf(s, i));
  }

  lemma CapByStatus(s: Snapshot, i: nat)
    requires i < |s.validators|
    ensures CapOf(s, i)
         == match s.validators[i].status
            case Candidate => Min(PoolShare(s.total, s.candidateBps), U64_MAX)
            case Active => Min(PoolShare(s.total, s.activeBps), U64_MAX)
            case _ => 0
  {
  }

  lemma DirectedByCap(productive: nat, shares: nat, supply: nat, cap: nat)
    requires cap <= U64_MAX
    ensures DirectedTarget(productive, shares, supply, cap)
         == Min(if supply == 0 then 0 else Min(productive * shares / supply, U64_MAX), cap)
  {
  }

  /** Neutral lamports are split evenly over the Active validators with room, by the epoch's own rotation,
      wherever each has more room than an even share. */
  lemma PlanSplitsEvenly(s: Snapshot, i: nat)
    requires s.total <= U64_MAX && PlanEpoch(s).Some? && i < |s.validators|
    requires var neutral := Productive(s) - Sum(Directed(s)); 0 < neutral <= U64_MAX && Roomy(neutral, Capacities(s))
    ensures var plan, caps, neutral := PlanEpoch(s).value, Capacities(s), Productive(s) - Sum(Directed(s));
            && |plan.targets| == |s.validators| && Members(caps) > 0
            && plan.targets[i] == DirectedOf(s, i)
                 + (if caps[i] > 0 then EvenShare(neutral, Members(caps), Members(caps[..i]), s.epoch) else 0)
  {
    hide Sum, Distribute, Productive, DirectedOf, CapOf, Members, EvenShare, Roomy, NeutralCapacity;
    var neutral, caps := Productive(s) - Sum(Directed(s)), Capacities(s);
    RoomyHasMembers(neutral, caps);
    RoomySplit(neutral, s.epoch, caps);
    DistributionExact(neutral, s.epoch, caps);
    CapacityFits(s, i);
  }

  /** From Draining on a validator gets neither directed nor neutral stake, in any later epoch and
      under any snapshot. */
  lemma WindingGetsNothing(r: Record, history: seq<Observation>, productive: nat, shares: nat, supply: nat,
                           total: nat, candidateBps: nat, activeBps: nat, target: nat)
    requires Winding(r.status)
    ensures var status := Trace(r, history).status;
            var cap := LifecycleCap(status, total, candidateBps, activeBps);
            && cap == 0
            && DirectedTarget(productive, shares, supply, cap) == 0
            && NeutralCapacity(status, cap, target) == 0
  {
    hide Trace;
    WindingIsForever(r, history);
  }
}
