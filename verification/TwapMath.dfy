/** Time-weighted averages over a chronological sequence of observations. Each price holds from its
    own second until the next observation; the newest holds until `now`. */
module TwapMath {
  import opened Arith
  import opened FixedPoint

  const I64_MIN: int := -0x8000_0000_0000_0000
  const I64_MAX: int := 0x7FFF_FFFF_FFFF_FFFF

  datatype TwapError = NonMonotonicTs

  datatype Observation = Observation(price: nat, ts: int)

  datatype TwapConfig = TwapConfig(minSamples: nat, maxStaleness: int)

  predicate Chronological(obs: seq<Observation>) {
    forall i, j :: 0 <= i < j < |obs| ==> obs[i].ts < obs[j].ts
  }

  function LastOf(obs: seq<Observation>, n: nat): seq<Observation> {
    if |obs| <= n then obs else obs[|obs| - n..]
  }

  /** Append an observation to the last `n`, or refuse one that is not newer. */
  function Pushed(obs: seq<Observation>, n: nat, o: Observation): Result<seq<Observation>, TwapError> {
    if |obs| > 0 && o.ts <= obs[|obs| - 1].ts then Err(NonMonotonicTs) else Ok(LastOf(obs + [o], n))
  }

  // ----- runs of pushes --------------------------------------------------------------------------

  /** All observations ever accepted, with nothing dropped. */
  function Accepted(os: seq<Observation>): seq<Observation> {
    if os == [] then []
    else
      var kept := Accepted(os[..|os| - 1]);
      var o := os[|os| - 1];
      if |kept| > 0 && o.ts <= kept[|kept| - 1].ts then kept else kept + [o]
  }

  /** What a ring of `n` slots holds after a run of pushes. */
  function RingAfter(n: nat, os: seq<Observation>): seq<Observation> {
    if os == [] then []
    else
      var held := RingAfter(n, os[..|os| - 1]);
      match Pushed(held, n, os[|os| - 1])
      case Ok(obs) => obs
      case Err(_) => held
  }

  /** After every run of pushes the ring holds the last `n` accepted observations, in strictly
      increasing time, and refuses exactly what an unbounded history would refuse. */
  lemma {:induction false} RingHoldsLastAccepted(n: nat, os: seq<Observation>)
    requires n > 0
    ensures RingAfter(n, os) == LastOf(Accepted(os), n)
    ensures Chronological(Accepted(os)) && Chronological(RingAfter(n, os))
  {
    hide LastOf, Chronological;
    if os == [] {
      EmptyRing(n);
    } else {
      RingHoldsLastAccepted(n, os[..|os| - 1]);
      var kept, o := Accepted(os[..|os| - 1]), os[|os| - 1];
      LastOfAppend(kept, n, o);
      if |kept| == 0 || kept[|kept| - 1].ts < o.ts {
        ChronologicalAppend(kept, o);
      }
      ChronologicalLast(Accepted(os), n);
    }
  }

  lemma EmptyRing(n: nat)
    ensures LastOf([], n) == [] && Chronological([])
  {
  }

  lemma ChronologicalAppend(kept: seq<Observation>, o: Observation)
    requires Chronological(kept) && (|kept| > 0 ==> kept[|kept| - 1].ts < o.ts)
    ensures Chronological(kept + [o])
  {
    var all := kept + [o];
    forall i, j | 0 <= i < j < |all|
      ensures all[i].ts < all[j].ts
    {
      assert i < |kept| - 1 ==> kept[i].ts < kept[|kept| - 1].ts;
    }
  }

  lemma ChronologicalLast(obs: seq<Observation>, n: nat)
    requires Chronological(obs)
    ensures Chronological(LastOf(obs, n))
  {
  }

  lemma LastOfAppend(kept: seq<Observation>, n: nat, o: Observation)
    requires n > 0
    ensures LastOf(LastOf(kept, n) + [o], n) == LastOf(kept + [o], n)
    ensures |LastOf(kept, n)| > 0 <==> |kept| > 0
    ensures |kept| > 0 ==> LastOf(kept, n)[|LastOf(kept, n)| - 1] == kept[|kept| - 1]
  {
  }

  /** The newest accepted observation is the newest ever pushed. */
  lemma {:induction false} NewestIsKept(os: seq<Observation>)
    ensures os != [] ==> Accepted(os) != []
    ensures forall p <- os :: Accepted(os) != [] && p.ts <= Accepted(os)[|Accepted(os)| - 1].ts
    ensures forall p <- Accepted(os) :: p in os
  {
    if os != [] {
      var before := os[..|os| - 1];
      NewestIsKept(before);
      assert os == before + [os[|os| - 1]];
    }
  }

  /** A push is accepted exactly if it is newer than everything pushed before, refused pushes included. */
  lemma AcceptedIffNewest(os: seq<Observation>, o: Observation)
    ensures Accepted(os + [o]) == if forall p <- os :: p.ts < o.ts then Accepted(os) + [o] else Accepted(os)
  {
    NewestIsKept(os);
    assert (os + [o])[..|os|] == os;
    var kept := Accepted(os);
    if |kept| > 0 {
      assert kept[|kept| - 1] in os;
    }
  }

  // ----- the average -----------------------------------------------------------------------------

  /** When the price of observation `k` stops holding. */
  function EndOf(obs: seq<Observation>, k: nat, now: int): int {
    if k + 1 < |obs| then Min(obs[k + 1].ts, now) else now
  }

  /** The seconds of `[start, now)` for which the price of observation `k` holds. */
  function Seconds(obs: seq<Observation>, k: nat, start: int, now: int): nat
    requires k < |obs|
  {
    var (from, to) := (Max(obs[k].ts, start), EndOf(obs, k, now));
    if to <= from then 0 else to - from
  }

  function Area(obs: seq<Observation>, k: nat, start: int, now: int): nat
    requires k <= |obs|
  {
    if k == 0 then 0 else Area(obs, k - 1, start, now) + obs[k - 1].price * Seconds(obs, k - 1, start, now)
  }

  function TotalSeconds(obs: seq<Observation>, k: nat, start: int, now: int): nat
    requires k <= |obs|
  {
    if k == 0 then 0 else TotalSeconds(obs, k - 1, start, now) + Seconds(obs, k - 1, start, now)
  }

  /** Whether an average is offered at all: a window, enough samples, none from the future, none too
      old, and none missing at the window's start. Where a difference of two timestamps passes 64 bits the
      program stops without an answer. */
  predicate Answerable(obs: seq<Observation>, now: int, window: int, cfg: TwapConfig) {
    && window > 0 && |obs| >= cfg.minSamples && |obs| > 0
    && 0 <= now - obs[|obs| - 1].ts <= Min(cfg.maxStaleness, I64_MAX)
    && now - window >= I64_MIN && obs[0].ts <= now - window
  }

  function TwapOf(obs: seq<Observation>, now: int, window: int, cfg: TwapConfig): (r: Option<nat>) {
    if !Answerable(obs, now, window, cfg) then None
    else
      match Fits(U128_MAX, Area(obs, |obs|, now - window, now))
      case None => None
      case Some(area) => Some(area / window)
  }

  lemma AreaStart(obs: seq<Observation>, start: int, now: int)
    ensures Area(obs, 0, start, now) == 0
  {
  }

  lemma AreaStep(obs: seq<Observation>, k: nat, start: int, now: int)
    requires k < |obs|
    ensures Area(obs, k + 1, start, now) == Area(obs, k, start, now) + obs[k].price * Seconds(obs, k, start, now)
    ensures Seconds(obs, k, start, now) == 0 ==> Area(obs, k + 1, start, now) == Area(obs, k, start, now)
  {
  }

  lemma {:induction false} AreaGrows(obs: seq<Observation>, j: nat, k: nat, start: int, now: int)
    requires j <= k <= |obs|
    ensures Area(obs, j, start, now) <= Area(obs, k, start, now)
    decreases k
  {
    hide Area, Seconds;
    if j < k {
      AreaGrows(obs, j, k - 1, start, now);
      AreaStep(obs, k - 1, start, now);
      ProductOfNats(obs[k - 1].price, Seconds(obs, k - 1, start, now));
    }
  }

  lemma ProductOfNats(a: nat, b: nat)
    ensures a * b >= 0
  {
  }

  /** The price in effect at second `t`: that of the newest observation not after it. */
  function PriceAt(obs: seq<Observation>, t: int): nat {
    if obs == [] then 0
    else if obs[|obs| - 1].ts <= t then obs[|obs| - 1].price
    else PriceAt(obs[..|obs| - 1], t)
  }

  /** The price in effect, summed second by second over `[start, end)`. */
  function SumOfSeconds(obs: seq<Observation>, start: int, end: int): nat
    decreases end - start
  {
    if end <= start then 0 else SumOfSeconds(obs, start, end - 1) + PriceAt(obs, end - 1)
  }

  lemma {:induction false} PriceAtIs(obs: seq<Observation>, k: nat, t: int)
    requires Chronological(obs) && k < |obs|
    requires obs[k].ts <= t && (k + 1 < |obs| ==> t < obs[k + 1].ts)
    ensures PriceAt(obs, t) == obs[k].price
  {
    if k + 1 < |obs| {
      PriceAtIs(obs[..|obs| - 1], k, t);
    }
  }

  /** A stretch with one price adds that price times its length. */
  lemma {:induction false} ConstantStretch(obs: seq<Observation>, start: int, from: int, until: int, price: nat)
    requires start <= from <= until
    requires forall t :: from <= t < until ==> PriceAt(obs, t) == price
    ensures SumOfSeconds(obs, start, until) == SumOfSeconds(obs, start, from) + price * (until - from)
    decreases until - from
  {
    if from < until {
      ConstantStretch(obs, start, from, until - 1, price);
      assert PriceAt(obs, until - 1) == price;
      assert price * (until - from) == price * (until - 1 - from) + price;
    }
  }

  /** How far the window is covered once the first `k` observations have been weighed. */
  function CoveredTo(obs: seq<Observation>, k: nat, start: int, now: int): int {
    if k < |obs| then Max(start, Min(obs[k].ts, now)) else now
  }

  lemma {:induction false} AreaIsSumOfSeconds(obs: seq<Observation>, k: nat, start: int, now: int)
    requires Chronological(obs) && |obs| > 0 && k <= |obs|
    requires obs[0].ts <= start <= now && obs[|obs| - 1].ts <= now
    ensures Area(obs, k, start, now) == SumOfSeconds(obs, start, CoveredTo(obs, k, start, now))
    ensures TotalSeconds(obs, k, start, now) == CoveredTo(obs, k, start, now) - start
  {
    if k > 0 {
      AreaIsSumOfSeconds(obs, k - 1, start, now);
      var (from, to) := (CoveredTo(obs, k - 1, start, now), CoveredTo(obs, k, start, now));
      forall t | from <= t < to
        ensures PriceAt(obs, t) == obs[k - 1].price
      {
        PriceAtIs(obs, k - 1, t);
      }
      ConstantStretch(obs, start, from, to, obs[k - 1].price);
    }
  }

  /** Whenever an average is offered, it is the floor of the exact mean of the price in effect over the
      window's seconds, weights covering the window exactly; and once every guard holds it is
      withheld only if that sum needs more than 128 bits. */
  lemma TwapIsExactMean(obs: seq<Observation>, now: int, window: int, cfg: TwapConfig)
    requires Chronological(obs) && Answerable(obs, now, window, cfg)
    ensures TotalSeconds(obs, |obs|, now - window, now) == window
    ensures var sum := SumOfSeconds(obs, now - window, now);
            TwapOf(obs, now, window, cfg) == if sum <= U128_MAX then Some(sum / window) else None
  {
    AreaIsSumOfSeconds(obs, |obs|, now - window, now);
  }

  /** When an average is offered: for a window that starts within 64 bits, with enough samples, the newest
      neither from the future nor too old, the oldest no later than the window's start, and a
      second-by-second sum that fits 128 bits; and in no other case. */
  lemma TwapAnswersIff(obs: seq<Observation>, now: int, window: int, cfg: TwapConfig)
    requires Chronological(obs)
    ensures TwapOf(obs, now, window, cfg).Some? <==>
              && window > 0 && now - window >= I64_MIN
              && |obs| >= 1 && |obs| >= cfg.minSamples
              && obs[|obs| - 1].ts <= now <= obs[|obs| - 1].ts + Min(cfg.maxStaleness, I64_MAX)
              && obs[0].ts <= now - window
              && SumOfSeconds(obs, now - window, now) <= U128_MAX
  {
    hide SumOfSeconds, Area, Chronological;
    if Answerable(obs, now, window, cfg) {
      TwapIsExactMean(obs, now, window, cfg);
    }
  }

  /** What was dropped from the front does not change the price in effect since. */
  lemma {:induction false} PriceSince(older: seq<Observation>, obs: seq<Observation>, t: int)
    requires obs != [] && obs[0].ts <= t
    ensures PriceAt(older + obs, t) == PriceAt(obs, t)
  {
    var n := |obs| - 1;
    assert (older + obs)[|older + obs| - 1] == obs[n];
    if obs[n].ts > t {
      assert (older + obs)[..|older + obs| - 1] == older + obs[..n];
      PriceSince(older, obs[..n], t);
    }
  }

  lemma {:induction false} SumSince(older: seq<Observation>, obs: seq<Observation>, start: int, end: int)
    requires obs != [] && obs[0].ts <= start
    ensures SumOfSeconds(older + obs, start, end) == SumOfSeconds(obs, start, end)
    decreases end - start
  {
    if start < end {
      SumSince(older, obs, start, end - 1);
      PriceSince(older, obs, end - 1);
    }
  }

  /** A ring of any size, after any run of pushes, averages the whole history of accepted prices, or gives no
      answer; and it gives none once its newest observation is older than the staleness allowed. */
  lemma RingAveragesHistory(n: nat, os: seq<Observation>, now: int, window: int, cfg: TwapConfig)
    requires n > 0
    ensures var r, all := TwapOf(RingAfter(n, os), now, window, cfg), Accepted(os);
            && (r.Some? ==> window > 0 && r.value == SumOfSeconds(all, now - window, now) / window)
            && (r.Some? ==> all != [] && all[|all| - 1].ts <= now <= all[|all| - 1].ts + cfg.maxStaleness)
  {
    hide SumOfSeconds, Area, Chronological, RingAfter, Accepted, TwapOf, LastOf;
    RingHoldsLastAccepted(n, os);
    var held, all := RingAfter(n, os), Accepted(os);
    if TwapOf(held, now, window, cfg).Some? {
      TwapAnswersIff(held, now, window, cfg);
      MeanOfHeld(held, now, window, cfg);
      var older := LastOfIsSuffix(all, n);
      SumSince(older, held, now - window, now);
    }
  }

  lemma MeanOfHeld(held: seq<Observation>, now: int, window: int, cfg: TwapConfig)
    requires Chronological(held) && TwapOf(held, now, window, cfg).Some?
    ensures window > 0 && TwapOf(held, now, window, cfg).value == SumOfSeconds(held, now - window, now) / window
  {
    hide SumOfSeconds, Area, Chronological;
    TwapIsExactMean(held, now, window, cfg);
  }

  lemma LastOfIsSuffix(all: seq<Observation>, n: nat) returns (older: seq<Observation>)
    ensures all == older + LastOf(all, n)
  {
    older := all[..|all| - |LastOf(all, n)|];
  }

  lemma {:induction false} SumBounds(obs: seq<Observation>, start: int, end: int, lo: nat, hi: nat)
    requires start <= end
    requires forall t :: start <= t < end ==> lo <= PriceAt(obs, t) <= hi
    ensures lo * (end - start) <= SumOfSeconds(obs, start, end) <= hi * (end - start)
    decreases end - start
  {
    if start < end {
      SumBounds(obs, start, end - 1, lo, hi);
      assert lo <= PriceAt(obs, end - 1) <= hi;
      assert lo * (end - start) == lo * (end - 1 - start) + lo;
      assert hi * (end - start) == hi * (end - 1 - start) + hi;
    }
  }

  /** The average lies between any bounds on the price in effect during the window. */
  lemma TwapWithinPrices(obs: seq<Observation>, now: int, window: int, cfg: TwapConfig, lo: nat, hi: nat)
    requires Chronological(obs) && TwapOf(obs, now, window, cfg).Some?
    requires forall t :: now - window <= t < now ==> lo <= PriceAt(obs, t) <= hi
    ensures lo <= TwapOf(obs, now, window, cfg).value <= hi
  {
    hide SumOfSeconds, Area, PriceAt;
    TwapIsExactMean(obs, now, window, cfg);
    SumBounds(obs, now - window, now, lo, hi);
    var sum := SumOfSeconds(obs, now - window, now);
    DivAtLeast(sum, window, lo);
    DivAtMost(sum, window, hi);
  }

  /** The seconds the newest observation can weigh. */
  function NewestWeight(obs: seq<Observation>, now: int, window: int): (w: int)
    requires |obs| > 0
    ensures obs[|obs| - 1].ts <= now && window >= 0 ==> w >= 0
  {
    Min(now - obs[|obs| - 1].ts, window)
  }

  lemma {:induction false} AreaOfPrefix(obs: seq<Observation>, obs': seq<Observation>, k: nat, start: int, now: int)
    requires |obs| == |obs'| && k <= |obs|
    requires forall i :: 0 <= i < |obs| ==> obs[i].ts == obs'[i].ts
    requires forall i :: 0 <= i < k ==> obs[i] == obs'[i]
    ensures Area(obs, k, start, now) == Area(obs', k, start, now)
  {
    if k > 0 {
      AreaOfPrefix(obs, obs', k - 1, start, now);
    }
  }

  /** Raising only the newest price by `delta` raises the average, by at most the rounded-up share of the
      window that the newest observation has been in effect. */
  lemma NewestPriceMovesTwapLittle(obs: seq<Observation>, delta: nat, now: int, window: int, cfg: TwapConfig)
    requires Chronological(obs) && |obs| > 0
    requires TwapOf(obs, now, window, cfg).Some? && TwapOf(Raised(obs, delta), now, window, cfg).Some?
    ensures var a, b := TwapOf(obs, now, window, cfg).value, TwapOf(Raised(obs, delta), now, window, cfg).value;
            a <= b && (b - a - 1) * window < delta * NewestWeight(obs, now, window)
  {
    hide Area, TwapOf, Answerable, NewestWeight;
    TwapIs(obs, now, window, cfg);
    TwapIs(Raised(obs, delta), now, window, cfg);
    RaisedArea(obs, delta, now - window, now);
    QuotientMoves(Area(obs, |obs|, now - window, now), delta * NewestWeight(obs, now, window), window);
  }

  lemma TwapIs(obs: seq<Observation>, now: int, window: int, cfg: TwapConfig)
    requires TwapOf(obs, now, window, cfg).Some?
    ensures window > 0 && |obs| > 0 && obs[|obs| - 1].ts <= now
    ensures TwapOf(obs, now, window, cfg).value == Area(obs, |obs|, now - window, now) / window
  {
    hide Area;
  }

  /** The same observations with the newest price raised. */
  function Raised(obs: seq<Observation>, delta: nat): seq<Observation>
    requires |obs| > 0
  {
    var last := |obs| - 1;
    obs[last := Observation(obs[last].price + delta, obs[last].ts)]
  }

  lemma RaisedArea(obs: seq<Observation>, delta: nat, start: int, now: int)
    requires |obs| > 0 && start <= now && obs[|obs| - 1].ts <= now
    ensures Area(Raised(obs, delta), |obs|, start, now)
         == Area(obs, |obs|, start, now) + delta * NewestWeight(obs, now, now - start)
  {
    hide Area;
    var obs' := Raised(obs, delta);
    var last := |obs| - 1;
    AreaOfPrefix(obs, obs', last, start, now);
    AreaStep(obs, last, start, now);
    AreaStep(obs', last, start, now);
    var w := Seconds(obs, last, start, now);
    assert w == NewestWeight(obs, now, now - start) == Seconds(obs', last, start, now);
    Raise(obs[last].price, delta, w);
  }

  lemma Raise(price: nat, delta: nat, w: nat)
    ensures (price + delta) * w == price * w + delta * w
  {
  }

  lemma QuotientMoves(n: nat, d: nat, w: nat)
    requires w > 0
    ensures n / w <= (n + d) / w
    ensures ((n + d) / w - n / w - 1) * w < d
  {
    DivMonoNat(n, n + d, w);
    DivBounds(n, w);
    DivBounds(n + d, w);
    var (p, q) := (n / w, (n + d) / w);
    assert (q - p - 1) * w == q * w - p * w - w;
  }
}
