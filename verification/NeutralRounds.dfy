/** Equal capacity rounds: a pool of neutral lamports is split over the validators that still have
    capacity, round after round, until it is used up or nobody has room. A round is a fold that can
    stop after any validator and resume later. */
module NeutralRounds {
  import opened Arith
  import opened FixedPoint

  datatype NeutralRound = NeutralRound(
    remaining: nat,
    nUnsaturated: nat,
    tranche: nat,
    remainder: nat,
    start: nat,
    steps: nat,
    remainderUsed: nat,
    granted: nat,
    saturated: nat)

  function RotationStart(epoch: nat, n: nat): nat {
    if n == 0 then 0 else epoch % n
  }

  predicate IsComplete(r: NeutralRound) {
    r.steps >= r.nUnsaturated
  }

  function BeginRound(remaining: nat, nUnsaturated: nat, epoch: nat): (r: Option<NeutralRound>) {
    if remaining == 0 || nUnsaturated == 0 then None
    else Some(NeutralRound(remaining, nUnsaturated, remaining / nUnsaturated, remaining % nUnsaturated,
                           RotationStart(epoch, nUnsaturated), 0, 0, 0, 0))
  }

  /** Whether ordinal `o` falls in the rotated remainder window. */
  predicate InWindow(r: NeutralRound, o: nat)
    requires r.start < r.nUnsaturated
  {
    (o + r.nUnsaturated - r.start) % r.nUnsaturated < r.remainder
  }

  /** Fold one validator into the round. Every addition saturates, as in the program. */
  function Step(r: NeutralRound, capacity: nat): (out: (NeutralRound, nat))
    requires r.start < r.nUnsaturated
    ensures out.0.start < out.0.nUnsaturated
  {
    if IsComplete(r) then (r, 0)
    else
      var inWindow := InWindow(r, r.steps);
      var base := SatAdd64(r.tranche, if inWindow then 1 else 0);
      var grant := Min(base, capacity);
      (r.(steps := SatAdd64(r.steps, 1),
          remainderUsed := if inWindow then SatAdd64(r.remainderUsed, 1) else r.remainderUsed,
          granted := SatAdd64(r.granted, grant),
          saturated := if grant == capacity then SatAdd64(r.saturated, 1) else r.saturated),
       grant)
  }

  /** Visit a slice of validators in order; those without capacity are passed over. */
  function Fold(r: NeutralRound, caps: seq<nat>): (out: NeutralRound)
    requires r.start < r.nUnsaturated
    ensures out.start < out.nUnsaturated
  {
    if caps == [] then r
    else
      var before := Fold(r, caps[..|caps| - 1]);
      if caps[|caps| - 1] == 0 then before else Step(before, caps[|caps| - 1]).0
  }

  /** What the fold grants to the validator at index `i`. */
  function FoldGrant(r: NeutralRound, caps: seq<nat>, i: nat): nat
    requires r.start < r.nUnsaturated && i < |caps|
  {
    if caps[i] == 0 then 0 else Step(Fold(r, caps[..i]), caps[i]).1
  }

  // ----- the closed form -----------------------------------------------------------------------

  /** Validators with capacity in a slice. */
  function Members(caps: seq<nat>): (n: nat)
    ensures n <= |caps|
  {
    if caps == [] then 0 else Members(caps[..|caps| - 1]) + (if caps[|caps| - 1] > 0 then 1 else 0)
  }

  function Base(r: NeutralRound, o: nat): nat
    requires r.start < r.nUnsaturated
  {
    r.tranche + (if InWindow(r, o) then 1 else 0)
  }

  /** What index `i` is due: its base by its ordinal, clipped to its capacity. */
  function Grant(r: NeutralRound, caps: seq<nat>, i: nat): (g: nat)
    requires r.start < r.nUnsaturated && i < |caps|
    ensures g <= caps[i]
  {
    if caps[i] == 0 then 0 else Min(Base(r, Members(caps[..i])), caps[i])
  }

  function SumGrants(r: NeutralRound, caps: seq<nat>, k: nat): nat
    requires r.start < r.nUnsaturated && k <= |caps|
  {
    if k == 0 then 0 else SumGrants(r, caps, k - 1) + Grant(r, caps, k - 1)
  }

  function Saturated(r: NeutralRound, caps: seq<nat>, k: nat): nat
    requires r.start < r.nUnsaturated && k <= |caps|
  {
    if k == 0 then 0
    else Saturated(r, caps, k - 1)
         + (if caps[k - 1] > 0 && Grant(r, caps, k - 1) == caps[k - 1] then 1 else 0)
  }

  /** Ordinals below `k` that fall in the window. */
  function WindowCount(r: NeutralRound, k: nat): nat
    requires r.start < r.nUnsaturated
  {
    if k == 0 then 0 else WindowCount(r, k - 1) + (if InWindow(r, k - 1) then 1 else 0)
  }

  function SumBases(r: NeutralRound, k: nat): nat
    requires r.start < r.nUnsaturated
  {
    if k == 0 then 0 else SumBases(r, k - 1) + Base(r, k - 1)
  }

  lemma RotatedPosition(r: NeutralRound, o: nat)
    requires r.start < r.nUnsaturated && o < r.nUnsaturated
    ensures (o + r.nUnsaturated - r.start) % r.nUnsaturated
            == if o >= r.start then o - r.start else o + r.nUnsaturated - r.start
  {
    if o >= r.start {
      DivUnique(o + r.nUnsaturated - r.start, r.nUnsaturated, 1);
    } else {
      DivUnique(o + r.nUnsaturated - r.start, r.nUnsaturated, 0);
    }
  }

  /** The window as two intervals: it starts at `start` and wraps to the front. */
  lemma {:induction false} WindowCountClosed(r: NeutralRound, k: nat)
    requires r.start < r.nUnsaturated && r.remainder < r.nUnsaturated && k <= r.nUnsaturated
    ensures WindowCount(r, k)
            == Min(Min(k, r.start), Max(0, r.remainder - (r.nUnsaturated - r.start)))
               + (if k > r.start then Min(k - r.start, r.remainder) else 0)
  {
    if k > 0 {
      WindowCountClosed(r, k - 1);
      RotatedPosition(r, k - 1);
    }
  }

  lemma {:induction false} SumBasesSplit(r: NeutralRound, k: nat)
    requires r.start < r.nUnsaturated
    ensures SumBases(r, k) == r.tranche * k + WindowCount(r, k)
  {
    if k > 0 {
      SumBasesSplit(r, k - 1);
      assert r.tranche * k == r.tranche * (k - 1) + r.tranche;
    } else {
      assert r.tranche * 0 == 0;
    }
  }

  /** A round as `BeginRound` makes it. */
  predicate Fresh(r: NeutralRound) {
    && 0 < r.remaining <= U64_MAX && r.start < r.nUnsaturated
    && r.tranche == r.remaining / r.nUnsaturated && r.remainder == r.remaining % r.nUnsaturated
    && r.steps == 0 && r.remainderUsed == 0 && r.granted == 0 && r.saturated == 0
  }

  /** Exactly `remainder` of the round's ordinals fall in the window, so the bases sum to exactly
      what the round has to give. */
  lemma BasesSumToRemaining(r: NeutralRound)
    requires Fresh(r)
    ensures WindowCount(r, r.nUnsaturated) == r.remainder
    ensures SumBases(r, r.nUnsaturated) == r.remaining
  {
    DivBounds(r.remaining, r.nUnsaturated);
    WindowCountClosed(r, r.nUnsaturated);
    SumBasesSplit(r, r.nUnsaturated);
  }

  lemma {:induction false} SumBasesMono(r: NeutralRound, a: nat, b: nat)
    requires r.start < r.nUnsaturated && a <= b
    ensures SumBases(r, a) <= SumBases(r, b)
    decreases b - a
  {
    if a < b { SumBasesMono(r, a, b - 1); }
  }

  /** Grants stay within bases; with nobody saturated they are the bases. */
  lemma {:induction false} GrantsWithinBases(r: NeutralRound, caps: seq<nat>, k: nat)
    requires r.start < r.nUnsaturated && k <= |caps|
    ensures SumGrants(r, caps, k) <= SumBases(r, Members(caps[..k]))
    ensures Saturated(r, caps, k) == 0 ==> SumGrants(r, caps, k) == SumBases(r, Members(caps[..k]))
  {
    if k > 0 {
      GrantsWithinBases(r, caps, k - 1);
      MembersStep(caps, k);
    }
  }

  lemma MembersStep(caps: seq<nat>, k: nat)
    requires 0 < k <= |caps|
    ensures Members(caps[..k]) == Members(caps[..k - 1]) + (if caps[k - 1] > 0 then 1 else 0)
  {
    assert caps[..k][..k - 1] == caps[..k - 1];
  }

  lemma {:induction false} MembersMono(caps: seq<nat>, k: nat)
    requires k <= |caps|
    ensures Members(caps[..k]) <= Members(caps)
    decreases |caps| - k
  {
    if k < |caps| {
      MembersMono(caps, k + 1);
      MembersStep(caps, k + 1);
    } else {
      assert caps[..k] == caps;
    }
  }

  lemma {:induction false} SaturatedAtMostMembers(r: NeutralRound, caps: seq<nat>, k: nat)
    requires r.start < r.nUnsaturated && k <= |caps|
    ensures Saturated(r, caps, k) <= Members(caps[..k])
  {
    if k > 0 {
      SaturatedAtMostMembers(r, caps, k - 1);
      MembersStep(caps, k);
    }
  }

  lemma {:induction false} WindowCountAtMost(r: NeutralRound, k: nat)
    requires r.start < r.nUnsaturated
    ensures WindowCount(r, k) <= k
  {
    if k > 0 { WindowCountAtMost(r, k - 1); }
  }

  /** The round state after visiting `caps`, in closed form. */
  function Progress(r: NeutralRound, caps: seq<nat>): NeutralRound
    requires r.start < r.nUnsaturated
  {
    r.(steps := Members(caps),
       remainderUsed := WindowCount(r, Members(caps)),
       granted := SumGrants(r, caps, |caps|),
       saturated := Saturated(r, caps, |caps|))
  }

  /** The grants of one slice do not depend on what follows it. */
  lemma {:induction false} PrefixSums(r: NeutralRound, caps: seq<nat>, k: nat, j: nat)
    requires r.start < r.nUnsaturated && j <= k <= |caps|
    ensures SumGrants(r, caps[..k], j) == SumGrants(r, caps, j)
    ensures Saturated(r, caps[..k], j) == Saturated(r, caps, j)
  {
    if j > 0 {
      PrefixSums(r, caps, k, j - 1);
      assert caps[..k][..j - 1] == caps[..j - 1];
    }
  }

  /** The incremental fold is the closed form, for every slice of a round with at most the promised
      number of members: no saturating addition ever saturates. */
  lemma {:induction false} FoldClosedForm(r: NeutralRound, caps: seq<nat>)
    requires Fresh(r) && r.nUnsaturated <= U64_MAX && Members(caps) <= r.nUnsaturated
    ensures Fold(r, caps) == Progress(r, caps)
    ensures Progress(r, caps).granted <= r.remaining
  {
    GrantsWithinRemaining(r, caps);
    if caps != [] {
      var n := |caps| - 1;
      hide InWindow, Step, Base, SumGrants, Saturated, WindowCount, Grant;
      FoldClosedForm(r, caps[..n]);
      PrefixSums(r, caps, n, n);
      assert caps == caps[..n] + [caps[n]];
      FoldClosedStep(r, caps[..n], caps[n]);
    }
  }

  lemma GrantsWithinRemaining(r: NeutralRound, caps: seq<nat>)
    requires Fresh(r) && r.nUnsaturated <= U64_MAX && Members(caps) <= r.nUnsaturated
    ensures Progress(r, caps).granted <= r.remaining
  {
    hide InWindow, Base, SumGrants, Saturated, Grant, SumBases, Members;
    BasesSumToRemaining(r);
    GrantsWithinBases(r, caps, |caps|);
    assert caps[..|caps|] == caps;
    SumBasesMono(r, Members(caps), r.nUnsaturated);
  }

  lemma FoldClosedStep(r: NeutralRound, before: seq<nat>, cap: nat)
    requires Fresh(r) && r.start < r.nUnsaturated <= U64_MAX
    requires Members(before + [cap]) <= r.nUnsaturated
    requires Fold(r, before) == Progress(r, before)
    requires SumGrants(r, before + [cap], |before| + 1) <= r.remaining
    requires SumGrants(r, before + [cap], |before|) == SumGrants(r, before, |before|)
    requires Saturated(r, before + [cap], |before|) == Saturated(r, before, |before|)
    ensures Fold(r, before + [cap]) == Progress(r, before + [cap])
    ensures cap > 0 ==> Step(Fold(r, before), cap).1 == Grant(r, before + [cap], |before|)
  {
    hide InWindow, Fresh, Step, Base, Fold, Members, SumGrants, Saturated, WindowCount, Grant;
    Unfolded(r, before, cap);
    if cap > 0 {
      StepOfProgress(r, before, cap);
    }
  }

  /** One step from the closed form, for a validator with room. */
  lemma StepOfProgress(r: NeutralRound, before: seq<nat>, cap: nat)
    requires Fresh(r) && r.start < r.nUnsaturated <= U64_MAX && cap > 0
    requires Members(before) < r.nUnsaturated
    requires SumGrants(r, before, |before|) + Min(Base(r, Members(before)), cap) <= r.remaining
    ensures var m, grant := Members(before), Min(Base(r, Members(before)), cap);
            Step(Progress(r, before), cap)
            == (r.(steps := m + 1,
                   remainderUsed := WindowCount(r, m) + (if InWindow(r, m) then 1 else 0),
                   granted := SumGrants(r, before, |before|) + grant,
                   saturated := Saturated(r, before, |before|) + (if grant == cap then 1 else 0)), grant)
  {
    hide InWindow, Fresh, Step, Base, Members, SumGrants, Saturated, WindowCount;
    var m := Members(before);
    SaturatedAtMostMembers(r, before, |before|);
    assert before[..|before|] == before;
    WindowCountAtMost(r, m);
    StepScalars(r, m, WindowCount(r, m), SumGrants(r, before, |before|), Saturated(r, before, |before|), cap);
  }

  /** The definitions, one validator further. */
  lemma Unfolded(r: NeutralRound, before: seq<nat>, cap: nat)
    requires r.start < r.nUnsaturated
    ensures var caps, n, m := before + [cap], |before|, Members(before);
            && Fold(r, caps) == (if cap == 0 then Fold(r, before) else Step(Fold(r, before), cap).0)
            && Members(caps) == m + (if cap > 0 then 1 else 0)
            && Grant(r, caps, n) == (if cap == 0 then 0 else Min(Base(r, m), cap))
            && SumGrants(r, caps, n + 1) == SumGrants(r, caps, n) + Grant(r, caps, n)
            && Saturated(r, caps, n + 1)
               == Saturated(r, caps, n) + (if cap > 0 && Grant(r, caps, n) == cap then 1 else 0)
            && WindowCount(r, m + 1) == WindowCount(r, m) + (if InWindow(r, m) then 1 else 0)
  {
    hide InWindow, Step;
    var caps := before + [cap];
    assert caps[..|before|] == before;
    assert caps[..|caps| - 1] == before;
  }

  /** One step of a round whose counters are in range, without saturation. */
  lemma StepScalars(r: NeutralRound, m: nat, used: nat, granted: nat, saturated: nat, cap: nat)
    requires Fresh(r) && r.nUnsaturated <= U64_MAX && m < r.nUnsaturated && used <= m && saturated <= m
    requires granted + Min(Base(r, m), cap) <= r.remaining
    ensures var p := r.(steps := m, remainderUsed := used, granted := granted, saturated := saturated);
            var grant := Min(Base(r, m), cap);
            Step(p, cap) == (r.(steps := m + 1,
                                remainderUsed := used + (if InWindow(r, m) then 1 else 0),
                                granted := granted + grant,
                                saturated := saturated + (if grant == cap then 1 else 0)), grant)
  {
    var p := r.(steps := m, remainderUsed := used, granted := granted, saturated := saturated);
    WindowFrame(r, p, m);
    BaseFits(r, m);
    hide InWindow;
  }

  lemma WindowFrame(r: NeutralRound, p: NeutralRound, o: nat)
    requires r.start < r.nUnsaturated
    requires p.nUnsaturated == r.nUnsaturated && p.start == r.start && p.remainder == r.remainder
    ensures InWindow(p, o) == InWindow(r, o)
  {
  }

  /** The one place a base could overflow: one more than the tranche. It never does. */
  lemma BaseFits(r: NeutralRound, o: nat)
    requires Fresh(r)
    ensures Base(r, o) <= U64_MAX
  {
    DivBounds(r.remaining, r.nUnsaturated);
    if r.nUnsaturated >= 2 {
      MulMonoNat(2, r.nUnsaturated, r.tranche);
    }
  }

  /** Ordinal by ordinal: what the fold hands out is the closed-form grant. */
  lemma FoldGrantsClosed(r: NeutralRound, caps: seq<nat>, i: nat)
    requires Fresh(r) && r.nUnsaturated <= U64_MAX && Members(caps) <= r.nUnsaturated && i < |caps|
    ensures FoldGrant(r, caps, i) == Grant(r, caps, i)
  {
    hide Step, Base, InWindow, Fold, Members;
    if caps[i] > 0 {
      FoldGrantAt(r, caps, i);
      GrantOfSlice(r, caps, i);
    }
  }

  lemma FoldGrantAt(r: NeutralRound, caps: seq<nat>, i: nat)
    requires Fresh(r) && r.start < r.nUnsaturated <= U64_MAX && Members(caps) <= r.nUnsaturated
    requires i < |caps| && caps[i] > 0
    ensures Step(Fold(r, caps[..i]), caps[i]).1 == Grant(r, caps[..i + 1], i)
  {
    hide InWindow, Fresh, Step, Base, Fold, Members, SumGrants, Saturated, WindowCount, Grant, Progress;
    MembersMono(caps, i + 1);
    var slice := caps[..i + 1];
    MembersMono(slice, i);
    assert slice[..i] == caps[..i] && slice == caps[..i] + [caps[i]];
    FoldClosedForm(r, caps[..i]);
    FoldClosedForm(r, slice);
    GrantedByProgress(r, slice);
    PrefixSums(r, slice, i, i);
    FoldClosedStep(r, caps[..i], caps[i]);
  }

  lemma GrantedByProgress(r: NeutralRound, caps: seq<nat>)
    requires r.start < r.nUnsaturated
    ensures Progress(r, caps).granted == SumGrants(r, caps, |caps|)
  {
  }

  lemma GrantOfSlice(r: NeutralRound, caps: seq<nat>, i: nat)
    requires r.start < r.nUnsaturated && i < |caps|
    ensures Grant(r, caps[..i + 1], i) == Grant(r, caps, i)
  {
    assert caps[..i + 1][..i] == caps[..i];
  }

  /** Batches: folding two slices one after the other is folding their concatenation, so grants do
      not depend on where a crank stops. */
  lemma {:induction false} FoldConcat(r: NeutralRound, a: seq<nat>, b: seq<nat>)
    requires r.start < r.nUnsaturated
    ensures Fold(r, a + b) == Fold(Fold(r, a), b)
  {
    if b == [] {
      assert a + b == a;
    } else {
      var n := |b| - 1;
      assert (a + b)[..|a + b| - 1] == a + b[..n];
      FoldConcat(r, a, b[..n]);
    }
  }

  /** Steps past the end of a round are inert. */
  lemma {:induction false} CompleteIsInert(r: NeutralRound, caps: seq<nat>)
    requires r.start < r.nUnsaturated && IsComplete(r)
    ensures Fold(r, caps) == r
  {
    if caps != [] { CompleteIsInert(r, caps[..|caps| - 1]); }
  }
}
