/** The validator lifecycle: one decision per completed epoch, over two persisted streak counters. */
module Lifecycle {
  import opened FixedPoint

  const LIVENESS_FAILURE_EPOCHS: nat := 2
  const CANDIDATE_HEALTHY_EPOCHS: nat := 2
  const U8_MAX: nat := 255

  datatype ValidatorStatus = Registered | Candidate | Active | Draining | Removable

  /** What one completed epoch showed. */
  datatype Observation = Observation(
    commissionOk: bool,
    livenessOk: bool,
    hasPoolStake: bool,
    guardActive: bool,
    zeroStakeAndTarget: bool,
    removalDelayElapsed: bool)

  datatype LifecycleInput = LifecycleInput(obs: Observation, consecutiveFailures: nat, consecutiveHealthy: nat)

  datatype LifecycleOutcome = LifecycleOutcome(
    status: ValidatorStatus,
    consecutiveFailures: nat,
    consecutiveHealthy: nat,
    increasesFrozen: bool)

  function SatInc8(x: nat): nat {
    if x + 1 <= U8_MAX then x + 1 else U8_MAX
  }

  function AdvanceLifecycle(current: ValidatorStatus, input: LifecycleInput): (out: LifecycleOutcome) {
    var obs := input.obs;
    var failures := if obs.livenessOk then 0 else SatInc8(input.consecutiveFailures);
    var healthy := if obs.livenessOk && obs.hasPoolStake then SatInc8(input.consecutiveHealthy) else 0;
    var status :=
      match current
      case Registered => Registered
      case Removable => Removable
      case Draining => if obs.zeroStakeAndTarget && obs.removalDelayElapsed then Removable else Draining
      case _ =>
        if !obs.commissionOk then Draining
        else if failures >= LIVENESS_FAILURE_EPOCHS && !obs.guardActive then Draining
        else if current == Candidate && healthy >= CANDIDATE_HEALTHY_EPOCHS then Active
        else current;
    LifecycleOutcome(status, failures, healthy, !obs.livenessOk)
  }

  /** What the controller keeps per validator. */
  datatype Record = Record(status: ValidatorStatus, failures: nat, healthy: nat)

  function NextEpoch(r: Record, obs: Observation): Record {
    var out := AdvanceLifecycle(r.status, LifecycleInput(obs, r.failures, r.healthy));
    Record(out.status, out.consecutiveFailures, out.consecutiveHealthy)
  }

  function Trace(r: Record, history: seq<Observation>): Record {
    if history == [] then r else NextEpoch(Trace(r, history[..|history| - 1]), history[|history| - 1])
  }

  // ----- streaks, read off the history ---------------------------------------------------------

  /** Length of the run of failed epochs that ends the history. */
  function FailedTail(history: seq<Observation>): (n: nat)
    ensures n <= |history|
  {
    if history == [] || history[|history| - 1].livenessOk then 0
    else 1 + FailedTail(history[..|history| - 1])
  }

  /** Length of the run of live and staked epochs that ends the history. */
  function HealthyTail(history: seq<Observation>): (n: nat)
    ensures n <= |history|
  {
    if history == [] then 0
    else
      var last := history[|history| - 1];
      if last.livenessOk && last.hasPoolStake then 1 + HealthyTail(history[..|history| - 1]) else 0
  }

  /** The persisted counters are the true streaks, capped at their 8-bit width. */
  lemma {:induction false} CountersAreStreaks(status: ValidatorStatus, history: seq<Observation>)
    ensures Trace(Record(status, 0, 0), history).failures == Min(FailedTail(history), U8_MAX)
    ensures Trace(Record(status, 0, 0), history).healthy == Min(HealthyTail(history), U8_MAX)
  {
    if history != [] { CountersAreStreaks(status, history[..|history| - 1]); }
  }

  predicate Failed(history: seq<Observation>, back: nat) {
    back < |history| && !history[|history| - 1 - back].livenessOk
  }

  predicate HealthyStaked(history: seq<Observation>, back: nat) {
    && back < |history|
    && history[|history| - 1 - back].livenessOk && history[|history| - 1 - back].hasPoolStake
  }

  lemma TailsOfTwo(history: seq<Observation>)
    ensures FailedTail(history) >= 2 <==> Failed(history, 0) && Failed(history, 1)
    ensures HealthyTail(history) >= 2 <==> HealthyStaked(history, 0) && HealthyStaked(history, 1)
  {
    if |history| >= 2 {
      var before := history[..|history| - 1];
      assert before[|before| - 1] == history[|history| - 2];
    }
  }

  /** Every transition of every trace from fresh counters, as a rule on the observed epochs alone:
      a Candidate is promoted exactly after two good, staked epochs in a row; a Candidate or Active
      validator drains exactly on a commission breach or, with the guard off, on a second failed
      epoch in a row; Draining leads only to Removable, and Removable nowhere. Increases are frozen
      exactly in the failed epochs. */
  lemma TransitionRule(status: ValidatorStatus, history: seq<Observation>, obs: Observation)
    ensures var from := Trace(Record(status, 0, 0), history).status;
            var all := history + [obs];
            var to := Trace(Record(status, 0, 0), all).status;
            var breach := !obs.commissionOk || (Failed(all, 0) && Failed(all, 1) && !obs.guardActive);
            match from
            case Registered => to == Registered
            case Candidate =>
              && (to == Draining <==> breach)
              && (to == Active <==> obs.commissionOk && HealthyStaked(all, 0) && HealthyStaked(all, 1))
              && (to == Candidate || to == Active || to == Draining)
            case Active => to == if breach then Draining else Active
            case Draining => to == if obs.zeroStakeAndTarget && obs.removalDelayElapsed then Removable else Draining
            case Removable => to == Removable
    ensures var r := Trace(Record(status, 0, 0), history);
            AdvanceLifecycle(r.status, LifecycleInput(obs, r.failures, r.healthy)).increasesFrozen
            <==> Failed(history + [obs], 0)
  {
    var all := history + [obs];
    assert all[..|history|] == history;
    CountersAreStreaks(status, all);
    TailsOfTwo(all);
  }

  predicate Winding(s: ValidatorStatus) {
    s == Draining || s == Removable
  }

  /** Once draining, always winding down, whatever the counters were. */
  lemma {:induction false} WindingIsForever(r: Record, history: seq<Observation>)
    requires Winding(r.status)
    ensures Winding(Trace(r, history).status)
  {
    if history != [] { WindingIsForever(r, history[..|history| - 1]); }
  }

  /** Under the global guard nobody with an honest commission drains. */
  lemma {:induction false} GuardSuppressesLiveness(r: Record, history: seq<Observation>)
    requires r.status == Candidate || r.status == Active
    requires forall i :: 0 <= i < |history| ==> history[i].guardActive && history[i].commissionOk
    ensures !Winding(Trace(r, history).status) && Trace(r, history).status != Registered
    ensures r.status == Active ==> Trace(r, history).status == Active
  {
    if history != [] { GuardSuppressesLiveness(r, history[..|history| - 1]); }
  }
}
