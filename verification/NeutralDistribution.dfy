/** The driver of the capacity rounds: run rounds until the pool is empty or nobody has room. */
module NeutralDistribution {
  import opened FixedPoint
  import opened NeutralRounds

  function Sum(s: seq<nat>): nat {
    if s == [] then 0 else Sum(s[..|s| - 1]) + s[|s| - 1]
  }

  /** Capacities after a full round. */
  function AfterRound(r: NeutralRound, caps: seq<nat>): (out: seq<nat>)
    requires r.start < r.nUnsaturated
    ensures |out| == |caps|
    ensures forall i :: 0 <= i < |caps| ==> out[i] == caps[i] - Grant(r, caps, i)
  {
    seq(|caps|, i requires 0 <= i < |caps| => caps[i] - Grant(r, caps, i))
  }

  /** The round that opens on these capacities. */
  function Opening(remaining: nat, epoch: nat, caps: seq<nat>): (r: NeutralRound)
    requires 0 < remaining <= U64_MAX && 0 < Members(caps)
    ensures Fresh(r) && r.nUnsaturated == Members(caps) && r.remaining == remaining
  {
    BeginRound(remaining, Members(caps), epoch).value
  }

  lemma {:induction false} RoundMembers(r: NeutralRound, caps: seq<nat>, k: nat)
    requires r.start < r.nUnsaturated && k <= |caps|
    ensures Members(AfterRound(r, caps)[..k]) + Saturated(r, caps, k) == Members(caps[..k])
  {
    hide Grant;
    if k > 0 {
      RoundMembers(r, caps, k - 1);
      MembersStep(caps, k);
      MembersStep(AfterRound(r, caps), k);
    }
  }

  lemma {:induction false} RoundSum(r: NeutralRound, caps: seq<nat>, k: nat)
    requires r.start < r.nUnsaturated && k <= |caps|
    ensures Sum(AfterRound(r, caps)[..k]) + SumGrants(r, caps, k) == Sum(caps[..k])
  {
    hide Grant;
    if k > 0 {
      RoundSum(r, caps, k - 1);
      SumStep(caps, k);
      SumStep(AfterRound(r, caps), k);
    }
  }

  lemma SumStep(s: seq<nat>, k: nat)
    requires 0 < k <= |s|
    ensures Sum(s[..k]) == Sum(s[..k - 1]) + s[k - 1]
  {
    assert s[..k][..k - 1] == s[..k - 1];
  }

  /** One full round: it grants at most what it has, grants it all unless it saturates somebody, and
      exactly the saturated validators leave. */
  lemma RoundOutcome(r: NeutralRound, caps: seq<nat>)
    requires Fresh(r) && r.nUnsaturated == Members(caps)
    ensures var granted, left := SumGrants(r, caps, |caps|), Saturated(r, caps, |caps|);
            && granted <= r.remaining
            && (granted < r.remaining ==> left >= 1)
            && left <= Members(caps)
            && Members(AfterRound(r, caps)) == Members(caps) - left
            && Sum(AfterRound(r, caps)) == Sum(caps) - granted
  {
    hide Grant, Fresh, SumGrants, Saturated, SumBases, AfterRound, Members, Sum, InWindow;
    RoundStart(r);
    var after := AfterRound(r, caps);
    assert caps[..|caps|] == caps && after[..|caps|] == after;
    BasesSumToRemaining(r);
    GrantsWithinBases(r, caps, |caps|);
    RoundMembers(r, caps, |caps|);
    RoundSum(r, caps, |caps|);
  }

  lemma RoundStart(r: NeutralRound)
    requires Fresh(r)
    ensures r.start < r.nUnsaturated
  {
  }

  datatype Outcome = Outcome(caps: seq<nat>, rounds: nat, shortfall: nat)

  /** The whole distribution, round by round. It ends because a round that leaves something over
      saturates somebody. */
  function Distribute(remaining: nat, epoch: nat, caps: seq<nat>): (out: Outcome)
    requires remaining <= U64_MAX
    ensures |out.caps| == |caps|
    decreases Members(caps), remaining
  {
    if remaining == 0 || Members(caps) == 0 then Outcome(caps, 0, remaining)
    else
      var r := Opening(remaining, epoch, caps);
      RoundOutcome(r, caps);
      var rest := Distribute(remaining - SumGrants(r, caps, |caps|), epoch, AfterRound(r, caps));
      rest.(rounds := rest.rounds + 1)
  }

  /** The even share handed to every validator that still has room at the end. */
  function Level(remaining: nat, epoch: nat, caps: seq<nat>): nat
    requires remaining <= U64_MAX
    decreases Members(caps), remaining
  {
    if remaining == 0 || Members(caps) == 0 then 0
    else
      var r := Opening(remaining, epoch, caps);
      RoundOutcome(r, caps);
      r.tranche + Level(remaining - SumGrants(r, caps, |caps|), epoch, AfterRound(r, caps))
  }

  lemma DistributeUnfolded(remaining: nat, epoch: nat, caps: seq<nat>)
    requires remaining <= U64_MAX
    ensures match BeginRound(remaining, Members(caps), epoch)
            case None => Distribute(remaining, epoch, caps) == Outcome(caps, 0, remaining)
            case Some(r) =>
              && Fresh(r) && r.start < r.nUnsaturated == Members(caps) && r.remaining == remaining
              && SumGrants(r, caps, |caps|) <= remaining
              && (SumGrants(r, caps, |caps|) < remaining ==> Members(AfterRound(r, caps)) < Members(caps))
              && Members(AfterRound(r, caps)) <= Members(caps)
              && Distribute(remaining, epoch, caps)
                 == var rest := Distribute(remaining - SumGrants(r, caps, |caps|), epoch, AfterRound(r, caps));
                    rest.(rounds := rest.rounds + 1)
  {
    hide SumGrants, Saturated, Grant, AfterRound, Members;
    if remaining > 0 && Members(caps) > 0 {
      RoundOutcome(Opening(remaining, epoch, caps), caps);
    }
  }

  lemma {:induction false} NoMembersNoSum(caps: seq<nat>)
    requires Members(caps) == 0
    ensures Sum(caps) == 0 && forall i :: 0 <= i < |caps| ==> caps[i] == 0
  {
    if caps != [] { NoMembersNoSum(caps[..|caps| - 1]); }
  }

  /** Conservation, termination and shortfall: grants plus shortfall are exactly the pool, there are
      no more rounds than validators that had room, and lamports are left over only if the pool
      exceeds all capacity, and then by exactly the excess. */
  lemma {:induction false} DistributionExact(remaining: nat, epoch: nat, caps: seq<nat>)
    requires remaining <= U64_MAX
    ensures var out := Distribute(remaining, epoch, caps);
            && Sum(caps) - Sum(out.caps) + out.shortfall == remaining
            && out.shortfall == Max(0, remaining - Sum(caps))
            && out.rounds <= Members(caps)
            && (forall i :: 0 <= i < |caps| ==> out.caps[i] <= caps[i])
            && (out.shortfall > 0 ==> forall i :: 0 <= i < |caps| ==> out.caps[i] == 0)
    decreases Members(caps), remaining
  {
    hide SumGrants, Saturated, Members, Sum, Opening, AfterRound, Grant;
    if Members(caps) == 0 {
      NoMembersNoSum(caps);
    } else if remaining > 0 {
      var r := Opening(remaining, epoch, caps);
      RoundOutcome(r, caps);
      var left, after := remaining - SumGrants(r, caps, |caps|), AfterRound(r, caps);
      DistributionExact(left, epoch, after);
    }
  }

  lemma GrantNearTranche(r: NeutralRound, caps: seq<nat>, i: nat)
    requires r.start < r.nUnsaturated && i < |caps|
    ensures Grant(r, caps, i) <= r.tranche + 1
    ensures caps[i] > Grant(r, caps, i) ==> Grant(r, caps, i) >= r.tranche
  {
    hide InWindow;
  }

  /** Everybody who had room got within the number of rounds of the level, and everybody who still
      has room got at least the level. */
  lemma {:induction false} AroundLevel(remaining: nat, epoch: nat, caps: seq<nat>, i: nat)
    requires remaining <= U64_MAX && i < |caps|
    ensures var out, level := Distribute(remaining, epoch, caps), Level(remaining, epoch, caps);
            && out.caps[i] <= caps[i]
            && caps[i] - out.caps[i] <= level + out.rounds
            && (out.caps[i] > 0 ==> caps[i] - out.caps[i] >= level)
    decreases Members(caps), remaining
  {
    hide SumGrants, Saturated, Grant, Opening, Members, AfterRound;
    if remaining > 0 && Members(caps) > 0 {
      var r := Opening(remaining, epoch, caps);
      RoundOutcome(r, caps);
      GrantNearTranche(r, caps, i);
      AroundLevel(remaining - SumGrants(r, caps, |caps|), epoch, AfterRound(r, caps), i);
    }
  }

  /** Max-min fairness: two validators with room to spare differ by at most the number of rounds,
      and a full one got at most that much more than one with room. */
  lemma Fairness(remaining: nat, epoch: nat, caps: seq<nat>, u: nat, v: nat)
    requires remaining <= U64_MAX && u < |caps| && v < |caps|
    requires Distribute(remaining, epoch, caps).caps[v] > 0
    ensures var out := Distribute(remaining, epoch, caps);
            && caps[u] - out.caps[u] <= caps[v] - out.caps[v] + out.rounds
            && (out.caps[u] > 0 ==> caps[v] - out.caps[v] <= caps[u] - out.caps[u] + out.rounds)
  {
    AroundLevel(remaining, epoch, caps, u);
    AroundLevel(remaining, epoch, caps, v);
  }

  lemma MembersAtMostLength(caps: seq<nat>)
    ensures Members(caps) <= |caps|
  {
  }
}
