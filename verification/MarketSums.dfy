/** What a market owes and holds, position by position, and how the totals move. Debt is measured
    in units of 1 / (INTEREST_DENOM * 10^18), collateral in units of 10^-18, so that nothing is
    rounded. */
module MarketSums {
  import opened Market

  /** INTEREST_DENOM * WAD, one unit of debt. */
  const DEBT_UNIT: nat := 315_360_000_000_000_000_000_000_000_000

  function Total(f: Position -> int, ps: seq<Position>): int {
    if ps == [] then 0 else f(ps[0]) + Total(f, ps[1..])
  }

  function Weight(p: Position): int {
    p.debt * p.rate
  }

  function InterestOwed(p: Position, clock: int): int {
    Weight(p) * (clock - p.since)
  }

  function ShareOf(p: Position, level: int, snap: int): int {
    p.stake * (level - snap)
  }

  /** All a position owes at `clock`: recorded debt, interest since its last touch, and its share of
      what was redistributed since. */
  function Owed(p: Position, clock: int, level: int): int {
    p.debt * 315_360_000_000_000_000_000_000_000_000
    + InterestOwed(p, clock) * 1_000_000_000_000_000_000
    + ShareOf(p, level, p.snapArt) * 315_360_000_000
  }

  /** All the collateral a position holds, with its share of what was redistributed. */
  function Held(p: Position, level: int): int {
    p.ink * 1_000_000_000_000_000_000 + ShareOf(p, level, p.snapColl)
  }

  ghost function Weights(): Position -> int {
    p => Weight(p)
  }

  ghost function Stakes(): Position -> int {
    (p: Position) => p.stake
  }

  ghost function Inks(): Position -> int {
    (p: Position) => p.ink
  }

  ghost function Debts(): Position -> int {
    (p: Position) => p.debt
  }

  ghost function Interests(clock: int): Position -> int {
    p => InterestOwed(p, clock)
  }

  ghost function ArtShares(level: int): Position -> int {
    (p: Position) => ShareOf(p, level, p.snapArt)
  }

  ghost function CollShares(level: int): Position -> int {
    (p: Position) => ShareOf(p, level, p.snapColl)
  }

  ghost function Owing(clock: int, level: int): Position -> int {
    p => Owed(p, clock, level)
  }

  ghost function Holding(level: int): Position -> int {
    p => Held(p, level)
  }

  lemma {:induction false} TotalUpdate(f: Position -> int, ps: seq<Position>, i: nat, p: Position)
    requires i < |ps|
    ensures Total(f, ps[i := p]) == Total(f, ps) - f(ps[i]) + f(p)
  {
    if i == 0 {
      assert ps[i := p][1..] == ps[1..];
    } else {
      assert ps[i := p][1..] == ps[1..][i - 1 := p];
      TotalUpdate(f, ps[1..], i - 1, p);
    }
  }

  lemma {:induction false} TotalAppend(f: Position -> int, ps: seq<Position>, p: Position)
    ensures Total(f, ps + [p]) == Total(f, ps) + f(p)
  {
    if ps == [] {
      assert ps + [p] == [p];
      assert [p][1..] == [];
    } else {
      assert (ps + [p])[1..] == ps[1..] + [p];
      TotalAppend(f, ps[1..], p);
    }
  }

  /** A total of nothing negative bounds each term. */
  lemma {:induction false} TermWithinTotal(f: Position -> int, ps: seq<Position>, i: nat)
    requires i < |ps|
    requires forall p <- ps :: f(p) >= 0
    ensures 0 <= f(ps[i]) <= Total(f, ps)
  {
    TotalNonNegative(f, ps[1..]);
    if i > 0 {
      assert ps[i] == ps[1..][i - 1];
      TermWithinTotal(f, ps[1..], i - 1);
    }
  }

  lemma {:induction false} TotalNonNegative(f: Position -> int, ps: seq<Position>)
    requires forall p <- ps :: f(p) >= 0
    ensures Total(f, ps) >= 0
  {
    if ps != [] {
      TotalNonNegative(f, ps[1..]);
    }
  }

  lemma {:induction false} TotalMonotone(f: Position -> int, g: Position -> int, ps: seq<Position>, k: int)
    requires forall p <- ps :: f(p) * k <= g(p)
    ensures Total(f, ps) * k <= Total(g, ps)
  {
    if ps != [] {
      TotalMonotone(f, g, ps[1..], k);
      Distribute(f(ps[0]), Total(f, ps[1..]), k);
    }
  }

  lemma Distribute(a: int, b: int, k: int)
    ensures (a + b) * k == a * k + b * k
  {
  }

  lemma DistributeRight(k: int, a: int, b: int)
    ensures k * (a + b) == k * a + k * b
  {
  }

  /** Time passing adds exactly the weighted sum's interest. */
  lemma {:induction false} InterestsOverTime(ps: seq<Position>, clock: int, dt: int)
    ensures Total(Interests(clock + dt), ps) == Total(Interests(clock), ps) + Total(Weights(), ps) * dt
  {
    hide Weight;
    if ps != [] {
      InterestsOverTime(ps[1..], clock, dt);
      Distribute(Weight(ps[0]), Total(Weights(), ps[1..]), dt);
      DistributeRight(Weight(ps[0]), clock - ps[0].since, dt);
    }
  }

  /** An accumulator moving by `d` adds exactly `d` per unit staked. */
  lemma {:induction false} ArtSharesOverLevel(ps: seq<Position>, level: int, d: int)
    ensures Total(ArtShares(level + d), ps) == Total(ArtShares(level), ps) + Total(Stakes(), ps) * d
  {
    if ps != [] {
      ArtSharesOverLevel(ps[1..], level, d);
      Distribute(ps[0].stake, Total(Stakes(), ps[1..]), d);
      DistributeRight(ps[0].stake, level - ps[0].snapArt, d);
    }
  }

  lemma {:induction false} CollSharesOverLevel(ps: seq<Position>, level: int, d: int)
    ensures Total(CollShares(level + d), ps) == Total(CollShares(level), ps) + Total(Stakes(), ps) * d
  {
    if ps != [] {
      CollSharesOverLevel(ps[1..], level, d);
      Distribute(ps[0].stake, Total(Stakes(), ps[1..]), d);
      DistributeRight(ps[0].stake, level - ps[0].snapColl, d);
    }
  }

  /** What all positions owe and hold, part by part. */
  lemma {:induction false} TotalsSplit(ps: seq<Position>, clock: int, art: int, coll: int)
    ensures Total(Owing(clock, art), ps)
         == Total(Debts(), ps) * 315_360_000_000_000_000_000_000_000_000
            + Total(Interests(clock), ps) * 1_000_000_000_000_000_000
            + Total(ArtShares(art), ps) * 315_360_000_000
    ensures Total(Holding(coll), ps)
         == Total(Inks(), ps) * 1_000_000_000_000_000_000 + Total(CollShares(coll), ps)
  {
    hide InterestOwed, ShareOf;
    if ps != [] {
      TotalsSplit(ps[1..], clock, art, coll);
    }
  }
}
