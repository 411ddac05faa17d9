/** The driver of the capacity rounds as the program runs it, in place on the two slices of capacities and
    targets. */
module NeutralDriver {
  import opened FixedPoint
  import opened NeutralDistribution
  import opened NeutralRotation
  import opened NeutralRounds

  ghost predicate AllFit(t: seq<nat>) {
    forall i :: 0 <= i < |t| ==> t[i] <= U64_MAX
  }

  /** Targets grew by exactly what capacities shrank, up to the 64-bit ceiling. */
  ghost predicate Credited(t0: seq<nat>, c0: seq<nat>, t: seq<nat>, c: seq<nat>) {
    && |t0| == |c0| == |t| == |c|
    && forall i :: 0 <= i < |c0| ==> c[i] <= c0[i] && t[i] <= U64_MAX && t[i] == Min(U64_MAX, t0[i] + c0[i] - c[i])
  }

  lemma CreditedStart(t: seq<nat>, c: seq<nat>)
    requires |t| == |c| && AllFit(t)
    ensures Credited(t, c, t, c)
  {
  }

  lemma CreditTwice(t0: seq<nat>, c0: seq<nat>, t1: seq<nat>, c1: seq<nat>, t2: seq<nat>, c2: seq<nat>)
    requires Credited(t0, c0, t1, c1) && Credited(t1, c1, t2, c2)
    ensures Credited(t0, c0, t2, c2)
  {
  }

  /** The program's driver, in place on the two slices. Targets saturate as in the program; when
      `target + capacity` fits, as it does for capacities derived from caps, the sum is exact. */
  method DistributeNeutral(neutral: nat, epoch: nat, capacity: array<nat>, targets: array<nat>)
    returns (rounds: nat, shortfall: nat)
    requires capacity.Length == targets.Length <= U64_MAX && capacity != targets
    requires neutral <= U64_MAX
    requires AllFit(targets[..])
    modifies capacity, targets
    ensures Outcome(capacity[..], rounds, shortfall) == Distribute(neutral, epoch, old(capacity[..]))
    ensures Credited(old(targets[..]), old(capacity[..]), targets[..], capacity[..])
    ensures SharedEvenly(neutral, epoch, old(capacity[..]), capacity[..])
  {
    var remaining: nat := neutral;
    rounds := 0;
    ghost var caps0: seq<nat>, targets0: seq<nat> := capacity[..], targets[..];
    hide *;
    CreditedStart(targets0, caps0);
    LeadsToStart(neutral, epoch, caps0);
    var done := false;
    while !done
      invariant remaining <= U64_MAX
      invariant LeadsTo(neutral, epoch, caps0, remaining, capacity[..], rounds)
      invariant Credited(targets0, caps0, targets[..], capacity[..])
      invariant AllFit(targets[..])
      invariant done ==> Distribute(neutral, epoch, caps0) == Outcome(capacity[..], rounds, remaining)
      decreases !done, Members(capacity[..]), remaining
    {
      done, remaining, rounds := OneRound(neutral, caps0, targets0, remaining, rounds, epoch, capacity, targets);
    }
    shortfall := remaining;
    OutcomeShared(neutral, epoch, caps0);
  }

  /** With room for all, every validator with room is granted its even share by ordinal and epoch. */
  ghost predicate SharedEvenly(neutral: nat, epoch: nat, before: seq<nat>, after: seq<nat>) {
    neutral > 0 && Roomy(neutral, before) ==>
      && |after| == |before|
      && forall i :: 0 <= i < |before| && before[i] > 0 ==>
           after[i] == before[i] - EvenShare(neutral, Members(before), Members(before[..i]), epoch)
  }

  lemma OutcomeShared(neutral: nat, epoch: nat, caps: seq<nat>)
    requires neutral <= U64_MAX
    ensures SharedEvenly(neutral, epoch, caps, Distribute(neutral, epoch, caps).caps)
  {
    hide Distribute, EvenShare, Members, Roomy;
    if neutral > 0 && Roomy(neutral, caps) {
      RoomyHasMembers(neutral, caps);
      RoomySplit(neutral, epoch, caps);
    }
  }

  /** One turn of the driver: open a round and run it, or find there is nothing to open. */
  method OneRound(ghost neutral: nat, ghost caps0: seq<nat>, ghost targets0: seq<nat>,
                  remaining: nat, rounds: nat, epoch: nat, capacity: array<nat>, targets: array<nat>)
    returns (done: bool, remaining': nat, rounds': nat)
    requires capacity.Length == targets.Length <= U64_MAX && capacity != targets
    requires remaining <= U64_MAX
    requires LeadsTo(neutral, epoch, caps0, remaining, capacity[..], rounds)
    requires Credited(targets0, caps0, targets[..], capacity[..])
    requires AllFit(targets[..])
    modifies capacity, targets
    ensures remaining' <= U64_MAX
    ensures LeadsTo(neutral, epoch, caps0, remaining', capacity[..], rounds')
    ensures Credited(targets0, caps0, targets[..], capacity[..])
    ensures AllFit(targets[..])
    ensures done ==> Distribute(neutral, epoch, caps0) == Outcome(capacity[..], rounds', remaining')
    ensures !done ==> Members(capacity[..]) < old(Members(capacity[..]))
                      || (remaining' < remaining && Members(capacity[..]) <= old(Members(capacity[..])))
  {
    hide *;
    ghost var caps: seq<nat>, ts: seq<nat> := capacity[..], targets[..];
    DriverStep(neutral, epoch, caps0, remaining, caps, rounds);
    var round := BeginRound(remaining, Members(capacity[..]), epoch);
    if round.None? {
      return true, remaining, rounds;
    }
    MembersAtMostLength(caps);
    var granted := RunRound(round.value, capacity, targets);
    CreditTwice(targets0, caps0, ts, caps, targets[..], capacity[..]);
    return false, remaining - granted, rounds + 1;
  }

  /** The driver, `rounds` rounds in, has exactly this much left to do. */
  ghost predicate LeadsTo(neutral: nat, epoch: nat, caps0: seq<nat>, remaining: nat, caps: seq<nat>, rounds: nat) {
    && neutral <= U64_MAX && remaining <= U64_MAX
    && Distribute(neutral, epoch, caps0)
       == var rest := Distribute(remaining, epoch, caps); rest.(rounds := rounds + rest.rounds)
  }

  lemma DriverStep(neutral: nat, epoch: nat, caps0: seq<nat>, remaining: nat, caps: seq<nat>, rounds: nat)
    requires remaining <= U64_MAX && LeadsTo(neutral, epoch, caps0, remaining, caps, rounds)
    ensures match BeginRound(remaining, Members(caps), epoch)
            case None => Distribute(neutral, epoch, caps0) == Outcome(caps, rounds, remaining)
            case Some(r) =>
              && Fresh(r) && r.start < r.nUnsaturated == Members(caps)
              && SumGrants(r, caps, |caps|) <= remaining
              && (Members(AfterRound(r, caps)) < Members(caps)
                  || (SumGrants(r, caps, |caps|) == remaining > 0 && Members(AfterRound(r, caps)) <= Members(caps)))
              && LeadsTo(neutral, epoch, caps0, remaining - SumGrants(r, caps, |caps|), AfterRound(r, caps), rounds + 1)
  {
    hide SumGrants, Saturated, Grant, AfterRound, Members, Distribute;
    DistributeUnfolded(remaining, epoch, caps);
  }

  lemma LeadsToStart(neutral: nat, epoch: nat, caps: seq<nat>)
    requires neutral <= U64_MAX
    ensures LeadsTo(neutral, epoch, caps, neutral, caps, 0)
  {
  }

  /** One more validator of a pass. */
  lemma Visit(r: NeutralRound, caps: seq<nat>, i: nat)
    requires Fresh(r) && r.start < r.nUnsaturated == Members(caps) <= U64_MAX && i < |caps|
    ensures Fold(r, caps[..i + 1])
            == if caps[i] == 0 then Fold(r, caps[..i]) else Step(Fold(r, caps[..i]), caps[i]).0
    ensures caps[i] == 0 ==> Grant(r, caps, i) == 0
    ensures caps[i] > 0 ==> Step(Fold(r, caps[..i]), caps[i]).1 == Grant(r, caps, i) <= caps[i]
  {
    hide Step;
    assert caps[..i + 1][..i] == caps[..i];
    FoldGrantsClosed(r, caps, i);
  }

  /** A pass that has reached index `i`: done before it, untouched from it on. */
  ghost predicate Passed(r: NeutralRound, c0: seq<nat>, t0: seq<nat>, c: seq<nat>, t: seq<nat>, i: nat)
    requires r.start < r.nUnsaturated
  {
    && |t0| == |c0| == |t| == |c| && i <= |c|
    && (forall j :: 0 <= j < i ==> c[j] == c0[j] - Grant(r, c0, j) && t[j] == Min(U64_MAX, t0[j] + Grant(r, c0, j)))
    && (forall j :: i <= j < |c| ==> c[j] == c0[j] && t[j] == t0[j])
  }

  lemma PassedNext(r: NeutralRound, c0: seq<nat>, t0: seq<nat>, c: seq<nat>, t: seq<nat>, i: nat)
    requires r.start < r.nUnsaturated && i < |c0| && Passed(r, c0, t0, c, t, i)
    ensures var g := Grant(r, c0, i);
            Passed(r, c0, t0, c[i := c0[i] - g], t[i := Min(U64_MAX, t0[i] + g)], i + 1)
  {
    hide Grant;
  }

  lemma PassedAll(r: NeutralRound, c0: seq<nat>, t0: seq<nat>, c: seq<nat>, t: seq<nat>)
    requires r.start < r.nUnsaturated && Passed(r, c0, t0, c, t, |c0|)
    ensures c == AfterRound(r, c0) && Credited(t0, c0, t, c)
    ensures AllFit(t)
  {
    hide Grant;
  }

  /** One slot of a round: grant, credit and move on, or pass over a validator without room. */
  method VisitSlot(round: NeutralRound, capacity: array<nat>, targets: array<nat>, i: nat,
                   ghost start: NeutralRound, ghost c0: seq<nat>, ghost t0: seq<nat>)
    returns (round': NeutralRound)
    requires capacity.Length == targets.Length && capacity != targets && i < capacity.Length == |c0|
    requires Fresh(start) && start.start < start.nUnsaturated == Members(c0) <= U64_MAX
    requires round == Fold(start, c0[..i]) && round.start < round.nUnsaturated
    requires Passed(start, c0, t0, capacity[..], targets[..], i) && AllFit(t0)
    modifies capacity, targets
    ensures round' == Fold(start, c0[..i + 1]) && round'.start < round'.nUnsaturated
    ensures Passed(start, c0, t0, capacity[..], targets[..], i + 1)
  {
    hide Members, Fresh, Grant, Fold, Step, InWindow, Passed, SumGrants, AfterRound, Saturated, Credited;
    ghost var c: seq<nat>, t: seq<nat> := capacity[..], targets[..];
    Visit(start, c0, i);
    PassedNext(start, c0, t0, c, t, i);
    PassedHere(start, c0, t0, c, t, i);
    round' := round;
    if capacity[i] != 0 {
      var (next, grant) := Step(round, capacity[i]);
      round' := next;
      targets[i] := SatAdd64(targets[i], grant);
      capacity[i] := SatSub(capacity[i], grant);
    }
    assert capacity[..] == c[i := c0[i] - Grant(start, c0, i)];
    assert targets[..] == t[i := Min(U64_MAX, t0[i] + Grant(start, c0, i))];
  }

  /** The slot a pass stands at is as the round found it. */
  lemma PassedHere(r: NeutralRound, c0: seq<nat>, t0: seq<nat>, c: seq<nat>, t: seq<nat>, i: nat)
    requires r.start < r.nUnsaturated && i < |c0| && Passed(r, c0, t0, c, t, i)
    ensures i < |c| == |t| && i < |t0| && c[i] == c0[i] && t[i] == t0[i]
  {
    hide Grant;
  }

  /** One round in place. No slot is read again after it was written, so the order of writing cannot change
      what any validator is granted. */
  method RunRound(start: NeutralRound, capacity: array<nat>, targets: array<nat>) returns (granted: nat)
    requires capacity.Length == targets.Length && capacity != targets
    requires Fresh(start) && start.start < start.nUnsaturated == Members(capacity[..]) <= U64_MAX
    requires AllFit(targets[..])
    modifies capacity, targets
    ensures capacity[..] == AfterRound(start, old(capacity[..]))
    ensures Credited(old(targets[..]), old(capacity[..]), targets[..], capacity[..])
    ensures AllFit(targets[..])
    ensures granted == SumGrants(start, old(capacity[..]), |old(capacity[..])|)
  {
    var round := start;
    ghost var c0: seq<nat>, t0: seq<nat> := capacity[..], targets[..];
    PassedNone(start, c0, t0);
    hide Members, Fresh, Grant, SumGrants, AfterRound, Saturated, Fold, Step, InWindow, Credited, Passed, AllFit;
    for i := 0 to capacity.Length
      invariant round.start < round.nUnsaturated
      invariant round == Fold(start, c0[..i])
      invariant Passed(start, c0, t0, capacity[..], targets[..], i)
    {
      round := VisitSlot(round, capacity, targets, i, start, c0, t0);
    }
    assert c0[..capacity.Length] == c0;
    PassedAll(start, c0, t0, capacity[..], targets[..]);
    FoldClosedForm(start, c0);
    granted := round.granted;
  }

  lemma PassedNone(r: NeutralRound, c0: seq<nat>, t0: seq<nat>)
    requires r.start < r.nUnsaturated && |c0| == |t0|
    ensures Fold(r, c0[..0]) == r && Passed(r, c0, t0, c0, t0, 0)
  {
  }
}
