/** Who gets the odd lamports: the remainder of a round is handed out by a window that moves on by one
    ordinal every epoch. */
module NeutralRotation {
  import opened Arith
  import opened FixedPoint
  import opened NeutralRounds
  import opened NeutralDistribution

  /** The odd lamport of ordinal `o` out of `n` in `epoch`: the window starts at the epoch's own ordinal. */
  function Extra(pool: nat, n: nat, o: nat, epoch: nat): nat
    requires n > 0
  {
    if (o - epoch) % n < pool % n then 1 else 0
  }

  function EvenShare(pool: nat, n: nat, o: nat, epoch: nat): nat
    requires n > 0
  {
    pool / n + Extra(pool, n, o, epoch)
  }

  /** Adding a multiple of the divisor leaves the remainder. */
  lemma SameResidue(x: int, k: int, n: nat)
    requires n > 0
    ensures (x + k * n) % n == x % n
  {
    var q := x / n;
    assert x == q * n + x % n;
    ResidueUnique(x + k * n, q + k, x % n, n);
  }

  lemma ResidueUnique(x: int, q: int, r: int, n: nat)
    requires 0 <= r < n && x == q * n + r
    ensures x % n == r
  {
    var d := x / n - q;
    assert x == (x / n) * n + x % n;
    assert d * n == r - x % n;
    if d >= 1 {
      MulMonoNat(1, d, n);
    } else if d <= -1 {
      MulMonoNat(1, -d, n);
    }
  }

  lemma WindowFollowsEpoch(pool: nat, n: nat, epoch: nat, o: nat)
    requires pool > 0 && n > 0
    ensures var r := BeginRound(pool, n, epoch).value;
            r.start < n == r.nUnsaturated && Base(r, o) == EvenShare(pool, n, o, epoch)
  {
    var r := BeginRound(pool, n, epoch).value;
    assert epoch == epoch / n * n + epoch % n;
    assert o + n - r.start == (o - epoch) + (epoch / n + 1) * n;
    SameResidue(o - epoch, epoch / n + 1, n);
  }

  /** Every round of every distribution grants by this rule: to each validator that still has room, its even
      share of what remains, clipped to its room. */
  lemma RoundGrants(remaining: nat, epoch: nat, caps: seq<nat>, i: nat)
    requires 0 < remaining <= U64_MAX && i < |caps| && Members(caps) > 0
    ensures var r := Opening(remaining, epoch, caps);
            Grant(r, caps, i)
            == if caps[i] == 0 then 0
               else Min(caps[i], EvenShare(remaining, Members(caps), Members(caps[..i]), epoch))
  {
    hide Members, Base, EvenShare;
    WindowFollowsEpoch(remaining, Members(caps), epoch, Members(caps[..i]));
  }

  /** Every validator with room has more of it than an even share. */
  predicate Roomy(neutral: nat, caps: seq<nat>) {
    Members(caps) > 0 && forall c <- caps :: c > 0 ==> c > neutral / Members(caps)
  }

  lemma RoomyHasMembers(neutral: nat, caps: seq<nat>)
    requires Roomy(neutral, caps)
    ensures Members(caps) > 0
  {
  }

  /** With room for all, one round does it: each validator with room gets exactly its even share, and the
      extra lamport exactly if its ordinal, counted from the epoch's, is below the remainder. */
  lemma RoomySplit(neutral: nat, epoch: nat, caps: seq<nat>)
    requires 0 < neutral <= U64_MAX && Roomy(neutral, caps)
    ensures var out := Distribute(neutral, epoch, caps);
            && out.rounds == 1 && out.shortfall == 0
            && forall i :: 0 <= i < |caps| ==>
                 out.caps[i] == if caps[i] == 0 then 0
                                else caps[i] - EvenShare(neutral, Members(caps), Members(caps[..i]), epoch)
  {
    hide Members, EvenShare, AfterRound, Grant, SumGrants;
    var r := Opening(neutral, epoch, caps);
    forall i | 0 <= i < |caps|
      ensures Grant(r, caps, i) == if caps[i] == 0 then 0 else Base(r, Members(caps[..i]))
      ensures Grant(r, caps, i)
           == if caps[i] == 0 then 0 else EvenShare(neutral, Members(caps), Members(caps[..i]), epoch)
    {
      RoundGrants(neutral, epoch, caps, i);
      WindowFollowsEpoch(neutral, Members(caps), epoch, Members(caps[..i]));
      if caps[i] > 0 {
        assert caps[i] in caps;
        ShareAtMost(neutral, Members(caps), Members(caps[..i]), epoch);
      }
    }
    GrantsAreBases(r, caps, |caps|);
    assert caps[..|caps|] == caps;
    BasesSumToRemaining(r);
    DistributeUnfolded(neutral, epoch, caps);
    NothingLeft(epoch, AfterRound(r, caps));
  }

  lemma ShareAtMost(pool: nat, n: nat, o: nat, epoch: nat)
    requires n > 0
    ensures EvenShare(pool, n, o, epoch) <= pool / n + 1
  {
  }

  lemma NothingLeft(epoch: nat, caps: seq<nat>)
    ensures Distribute(0, epoch, caps) == Outcome(caps, 0, 0)
  {
  }

  lemma {:induction false} GrantsAreBases(r: NeutralRound, caps: seq<nat>, k: nat)
    requires r.start < r.nUnsaturated && k <= |caps|
    requires forall i :: 0 <= i < |caps| ==>
               Grant(r, caps, i) == if caps[i] == 0 then 0 else Base(r, Members(caps[..i]))
    ensures SumGrants(r, caps, k) == SumBases(r, Members(caps[..k]))
  {
    hide Grant, Base, Members;
    if k > 0 {
      GrantsAreBases(r, caps, k - 1);
      MembersStep(caps, k);
    }
  }

  // ----- over consecutive epochs -----------------------------------------------------------------

  /** What ordinal `o` gets over `k` epochs from `epoch` on, the same pool being split each time. */
  function OverEpochs(pool: nat, n: nat, o: nat, epoch: nat, k: nat): nat
    requires n > 0
  {
    if k == 0 then 0 else OverEpochs(pool, n, o, epoch, k - 1) + EvenShare(pool, n, o, epoch + k - 1)
  }

  /** In how many of `k` epochs ordinal `o` is in the window. */
  function Hits(pool: nat, n: nat, o: nat, epoch: nat, k: nat): nat
    requires n > 0
  {
    if k == 0 then 0 else Hits(pool, n, o, epoch, k - 1) + Extra(pool, n, o, epoch + k - 1)
  }

  /** The window moves on by one per epoch, around the ordinals. */
  lemma PositionAfter(o: nat, epoch: nat, j: nat, n: nat)
    requires j < n
    ensures var x := (o - epoch) % n;
            (o - (epoch + j)) % n == if j <= x then x - j else x - j + n
  {
    var q, x := (o - epoch) / n, (o - epoch) % n;
    assert o - epoch == q * n + x;
    if j <= x {
      ResidueUnique(o - (epoch + j), q, x - j, n);
    } else {
      assert (q - 1) * n == q * n - n;
      ResidueUnique(o - (epoch + j), q - 1, x - j + n, n);
    }
  }

  /** Positions visited in `k` epochs are `x` down to zero and then `n - 1` down; those below `r`. */
  function Visited(x: nat, r: nat, n: nat, k: nat): int {
    if k <= x + 1 then Min(r, x + 1) - Min(r, x + 1 - k)
    else Min(r, x + 1) + r - Min(r, n - (k - x - 1))
  }

  lemma PositionWithin(x: int, n: nat)
    requires n > 0
    ensures 0 <= x % n < n
  {
  }

  lemma {:induction false} HitsAre(pool: nat, n: nat, o: nat, epoch: nat, k: nat)
    requires n > 0 && k <= n
    ensures Hits(pool, n, o, epoch, k) == Visited((o - epoch) % n, pool % n, n, k)
  {
    PositionWithin(o - epoch, n);
    if k > 0 {
      HitsAre(pool, n, o, epoch, k - 1);
      PositionAfter(o, epoch, k - 1, n);
    }
  }

  lemma {:induction false} OverEpochsIs(pool: nat, n: nat, o: nat, epoch: nat, k: nat)
    requires n > 0
    ensures OverEpochs(pool, n, o, epoch, k) == k * (pool / n) + Hits(pool, n, o, epoch, k)
  {
    hide Extra;
    if k > 0 {
      OverEpochsIs(pool, n, o, epoch, k - 1);
      OneMore(k, pool / n);
    }
  }

  lemma OneMore(k: nat, q: nat)
    requires k > 0
    ensures k * q == (k - 1) * q + q
  {
  }

  /** Over any `n` epochs in a row every ordinal is in the window exactly `remainder` times, and so gets
      exactly the whole pool once: the odd lamports favour nobody. */
  lemma RotationIsEven(pool: nat, n: nat, o: nat, epoch: nat)
    requires n > 0
    ensures Hits(pool, n, o, epoch, n) == pool % n
    ensures OverEpochs(pool, n, o, epoch, n) == pool
  {
    HitsAre(pool, n, o, epoch, n);
    OverEpochsIs(pool, n, o, epoch, n);
    DivBounds(pool, n);
  }
}
