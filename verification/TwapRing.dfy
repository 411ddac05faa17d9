/** The oracle's observation ring as the program runs it: two fixed arrays written in place. */
module TwapRing {
  import opened Arith
  import opened FixedPoint
  import opened TwapMath

  lemma Wrap(x: nat, n: nat)
    requires x < 2 * n
    ensures x % n == if x < n then x else x - n
  {
    if x < n {
      DivUnique(x, n, 0);
    } else {
      DivUnique(x, n, 1);
    }
  }

  function Zip(prices: seq<nat>, ts: seq<int>): (r: seq<Observation>)
    requires |prices| == |ts|
    ensures |r| == |ts|
  {
    seq(|prices|, i requires 0 <= i < |prices| => Observation(prices[i], ts[i]))
  }

  lemma ZipUpdate(prices: seq<nat>, ts: seq<int>, i: nat, price: nat, t: int)
    requires |prices| == |ts| && i < |ts|
    ensures Zip(prices[i := price], ts[i := t]) == Zip(prices, ts)[i := Observation(price, t)]
  {
  }

  predicate RingOk(n: nat, next: nat, count: nat) {
    next < n && count <= n && (count < n ==> next == count)
  }

  /** The slots in order of age: from zero while the ring fills, from `next` around once it is full. */
  function Unrolled(cells: seq<Observation>, next: nat, count: nat): (obs: seq<Observation>)
    requires RingOk(|cells|, next, count)
    ensures |obs| == count
  {
    if count < |cells| then cells[..count] else cells[next..] + cells[..next]
  }

  /** Overwriting the next slot appends, and drops the oldest once the ring is full. */
  lemma UnrolledPush(cells: seq<Observation>, next: nat, count: nat, o: Observation)
    requires RingOk(|cells|, next, count)
    ensures var n := |cells|;
            var (next', count') := (if next + 1 < n then next + 1 else 0, if count < n then count + 1 else count);
            && RingOk(n, next', count')
            && Unrolled(cells[next := o], next', count') == LastOf(Unrolled(cells, next, count) + [o], n)
  {
    var n := |cells|;
    if count == n {
      var before := Unrolled(cells, next, count) + [o];
      assert before[1..] == cells[next..][1..] + cells[..next] + [o];
    }
  }

  /** A fixed-size ring: `next` is the slot written next, `count` how many slots hold something. */
  class ObservationRing {
    const prices: array<nat>
    const ts: array<int>
    var next: nat
    var count: nat

    ghost predicate Valid()
      reads this
    {
      prices.Length == ts.Length && RingOk(prices.Length, next, count)
    }

    /** What the ring holds, oldest first. */
    ghost function Contents(): (obs: seq<Observation>)
      requires Valid()
      reads this, prices, ts
      ensures |obs| == count
    {
      Unrolled(Zip(prices[..], ts[..]), next, count)
    }

    constructor (n: nat)
      requires n > 0
      ensures Valid() && prices.Length == n && Contents() == []
      ensures fresh(prices) && fresh(ts)
    {
      prices := new nat[n](_ => 0);
      ts := new int[n](_ => 0);
      next, count := 0, 0;
    }

    /** The newest observation. */
    method Last() returns (r: Option<Observation>)
      requires Valid()
      ensures r == if count == 0 then None else Some(Contents()[count - 1])
    {
      if count == 0 {
        return None;
      }
      Wrap(next + prices.Length - 1, prices.Length);
      var i := (next + prices.Length - 1) % prices.Length;
      return Some(Observation(prices[i], ts[i]));
    }

    /** The `k`-th oldest observation. */
    method Nth(k: nat) returns (o: Observation)
      requires Valid() && k < count
      ensures o == Contents()[k]
    {
      var n := prices.Length;
      Wrap(next + n - count, n);
      var oldest := (next + n - count) % n;
      Wrap(oldest + k, n);
      var i := (oldest + k) % n;
      return Observation(prices[i], ts[i]);
    }

    /** Append an observation, overwriting the oldest; one that is not newer is refused. */
    method Push(price: nat, t: int) returns (r: Result<(), TwapError>)
      requires Valid()
      modifies this, prices, ts
      ensures Valid()
      ensures match Pushed(old(Contents()), prices.Length, Observation(price, t))
              case Ok(obs) => r == Ok(()) && Contents() == obs
              case Err(e) => r == Err(e) && Contents() == old(Contents())
    {
      hide LastOf, Unrolled, Zip;
      var last := Last();
      if last.Some? && t <= last.value.ts {
        return Err(NonMonotonicTs);
      }
      ghost var p0: seq<nat>, t0: seq<int> := prices[..], ts[..];
      ZipUpdate(p0, t0, next, price, t);
      UnrolledPush(Zip(p0, t0), next, count, Observation(price, t));
      Wrap(next + 1, prices.Length);
      prices[next], ts[next] := price, t;
      assert prices[..] == p0[next := price] && ts[..] == t0[next := t];
      next := (next + 1) % prices.Length;
      if count < prices.Length {
        count := count + 1;
      }
      return Ok(());
    }

    /** The time-weighted average over the `window` seconds before `now`. */
    method Twap(now: int, window: int, cfg: TwapConfig) returns (r: Option<nat>)
      requires Valid()
      ensures r == TwapOf(Contents(), now, window, cfg)
      ensures r.Some? ==> count >= cfg.minSamples && Contents()[0].ts <= now - window < now
                          && Contents()[count - 1].ts <= now <= Contents()[count - 1].ts + cfg.maxStaleness
    {
      hide Unrolled, Zip, Area;
      if window <= 0 || count < cfg.minSamples || count == 0 {
        return None;
      }
      var newest := Last();
      if now < newest.value.ts {
        return None;
      }
      var age := now - newest.value.ts;
      if age > I64_MAX || age > cfg.maxStaleness {
        return None;
      }
      var start := now - window;
      if start < I64_MIN {
        return None;
      }
      var oldest := Nth(0);
      if oldest.ts > start {
        return None;
      }
      var acc := Accumulate(now, start);
      return if acc.None? then None else Some(acc.value / window);
    }

    /** The seconds for which the `k`-th price holds within the window. */
    method SegmentSeconds(k: nat, now: int, start: int) returns (d: nat)
      requires Valid() && k < count
      ensures d == Seconds(Contents(), k, start, now)
    {
      hide Unrolled;
      var o := Nth(k);
      var segStart := Max(o.ts, start);
      var segEnd := now;
      if k + 1 < count {
        var following := Nth(k + 1);
        segEnd := Min(following.ts, now);
      }
      d := if segEnd <= segStart then 0 else segEnd - segStart;
    }

    /** Price times seconds over the window, or `None` once it passes 128 bits. */
    method Accumulate(now: int, start: int) returns (acc: Option<nat>)
      requires Valid()
      ensures acc == Fits(U128_MAX, Area(Contents(), count, start, now))
    {
      hide Unrolled, Area, Seconds;
      ghost var obs := Contents();
      var sum: nat := 0;
      var k := 0;
      AreaStart(obs, start, now);
      while k < count
        invariant k <= count && sum == Area(obs, k, start, now) <= U128_MAX
      {
        var o := Nth(k);
        var d := SegmentSeconds(k, now, start);
        AreaStep(obs, k, start, now);
        AreaGrows(obs, k + 1, count, start, now);
        if d > 0 {
          if sum + o.price * d > U128_MAX {
            return None;
          }
          sum := sum + o.price * d;
        }
        k := k + 1;
      }
      return Some(sum);
    }
  }
}
