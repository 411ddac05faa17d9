/** The redemption base rate: it spikes with volume, decays by a fixed factor per whole minute, and
    turns into a fee between a floor and a cap. */
module BaseRate {
  import opened Arith
  import opened FixedPoint
  import opened RayMath
  import opened Reals

  const BASE_RATE_DECAY_PER_MINUTE: nat := 998_076_443_575_628_823_990_894_592
  const BASE_RATE_BETA: nat := 2

  function Decay(rate: nat, secs: int): (r: nat) {
    if rate == 0 || secs <= 0 then rate
    else
      var minutes := secs / 60;
      if minutes == 0 then rate
      else
        var factor := match RayPow(BASE_RATE_DECAY_PER_MINUTE, minutes) case Some(f) => f case None => 0;
        match RayMul(rate, factor) case Some(r) => r case None => 0
  }

  function Bump(rate: nat, redeemed: nat, totalDebt: nat): (r: nat) {
    if totalDebt == 0 || redeemed == 0 then rate
    else
      var frac := (match MulDivFloor(redeemed, RAY, totalDebt) case Some(f) => f case None => 0) / BASE_RATE_BETA;
      Min(Min(rate + frac, U128_MAX), RAY)
  }

  function EffectiveFeeBps(rate: nat, floorBps: nat, dynamicMaxBps: nat, capBps: nat): (r: nat) {
    Min(floorBps + Min(rate / 100_000_000_000_000_000_000_000, dynamicMaxBps), capBps)
  }

  /** Decay follows the true exponential from below: over `m` whole minutes it never exceeds it, falls
      short of it by at most `m` units in the last place, and never raises the rate. */
  lemma DecayFollowsExponential(rate: nat, secs: nat)
    requires rate <= RAY
    ensures var m := secs / 60;
            var truth := Unit(rate) * Pow(Unit(BASE_RATE_DECAY_PER_MINUTE), m);
            truth - Unit(m) <= Unit(Decay(rate, secs)) <= truth
    ensures Decay(rate, secs) <= rate
  {
    hide Pow, RayPow, Unit, RayMul;
    var m := secs / 60;
    var x := Unit(BASE_RATE_DECAY_PER_MINUTE);
    PowZero(x);
    UnitNonNegative(m);
    if rate == 0 {
      ZeroRate(Pow(x, m));
    } else if m == 0 {
      TimesOne(Unit(rate), Pow(x, m));
    } else {
      WithinTruePower(BASE_RATE_DECAY_PER_MINUTE, m);
      DecayedOnce(rate, RayPow(BASE_RATE_DECAY_PER_MINUTE, m).value, Pow(x, m), m);
    }
  }

  /** One product by a factor that is short of `p` by at most `m - 1` units is short by at most `m`. */
  lemma DecayedOnce(rate: nat, factor: nat, p: real, m: nat)
    requires rate <= RAY && factor <= RAY && m > 0 && p - Unit(m - 1) <= Unit(factor) <= p
    ensures RayMul(rate, factor).Some? && RayMul(rate, factor).value <= rate
    ensures Times(Unit(rate), p) - Unit(m) <= Unit(RayMul(rate, factor).value) <= Times(Unit(rate), p)
  {
    hide Unit, RayMul, Times;
    RayMulWithin(rate, factor);
    RayMulTimes(rate, factor);
    UnitNonNegative(rate);
    UnitNonNegative(m - 1);
    AtMostOne(rate);
    ScaledShortfall(Unit(rate), Unit(factor), p, Unit(m - 1));
    UnitStep(m);
  }

  lemma RayMulTimes(a: nat, b: nat)
    requires RayMul(a, b).Some?
    ensures Times(Unit(a), Unit(b)) - Unit(1) <= Unit(RayMul(a, b).value) <= Times(Unit(a), Unit(b))
  {
    hide Unit, RayMul;
    RayMulUnit(a, b);
  }

  lemma PowZero(x: real)
    ensures Pow(x, 0) == 1.0
  {
  }

  lemma TimesOne(x: real, p: real)
    requires p == 1.0
    ensures x * p == x
  {
  }

  lemma ZeroRate(p: real)
    ensures Unit(0) * p == 0.0 && Unit(0) == 0.0
  {
    assert 0.0 * p == 0.0;
  }

  lemma AtMostOne(rate: nat)
    requires rate <= RAY
    ensures Unit(rate) <= 1.0
  {
  }

  lemma UnitStep(m: nat)
    requires m > 0
    ensures Unit(m) == Unit(m - 1) + Unit(1)
  {
  }

  lemma ScaledShortfall(r: real, f: real, p: real, d: real)
    requires 0.0 <= r <= 1.0 && p - d <= f <= p && d >= 0.0
    ensures Times(r, p) - d <= Times(r, f) <= Times(r, p)
  {
    MulNonNegative(r, p - f);
    MulNonNegative(r, f - p + d);
    MulNonNegative(1.0 - r, d);
    assert r * (p - f) == r * p - r * f && r * (f - p + d) == r * f - r * p + r * d;
    assert (1.0 - r) * d == d - r * d;
  }

  /** What is left after 360 minutes, in RAY: a half and 1.5e-14 more. */
  const HALF: nat := 500_000_000_000_015_355_248_610_297

  /** The squares the loop goes through for an exponent of 360. */
  lemma DecaySquares()
    ensures RayMul(998_076_443_575_628_823_990_894_592, 998_076_443_575_628_823_990_894_592)
         == Some(996_156_587_220_575_387_605_558_820)
    ensures RayMul(996_156_587_220_575_387_605_558_820, 996_156_587_220_575_387_605_558_820)
         == Some(992_327_946_262_943_819_635_364_654)
    ensures RayMul(992_327_946_262_943_819_635_364_654, 992_327_946_262_943_819_635_364_654)
         == Some(984_714_752_934_431_916_973_451_204)
    ensures RayMul(984_714_752_934_431_916_973_451_204, 984_714_752_934_431_916_973_451_204)
         == Some(969_663_144_646_719_291_639_956_193)
    ensures RayMul(969_663_144_646_719_291_639_956_193, 969_663_144_646_719_291_639_956_193)
         == Some(940_246_614_086_164_459_652_351_518)
    ensures RayMul(940_246_614_086_164_459_652_351_518, 940_246_614_086_164_459_652_351_518)
         == Some(884_063_695_300_496_678_877_950_577)
    ensures RayMul(884_063_695_300_496_678_877_950_577, 884_063_695_300_496_678_877_950_577)
         == Some(781_568_617_348_369_433_618_437_136)
    ensures RayMul(781_568_617_348_369_433_618_437_136, 781_568_617_348_369_433_618_437_136)
         == Some(610_849_503_623_841_921_997_831_698)
  {
  }

  lemma DecayProducts()
    ensures RayMul(RAY, 984_714_752_934_431_916_973_451_204) == Some(984_714_752_934_431_916_973_451_204)
    ensures RayMul(984_714_752_934_431_916_973_451_204, 940_246_614_086_164_459_652_351_518)
         == Some(925_874_712_287_293_588_546_110_774)
    ensures RayMul(925_874_712_287_293_588_546_110_774, 884_063_695_300_496_678_877_950_577)
         == Some(818_532_219_529_988_947_539_294_111)
    ensures RayMul(818_532_219_529_988_947_539_294_111, 610_849_503_623_841_921_997_831_698) == Some(HALF)
  {
  }

  lemma HalfByPow()
    ensures RayPow(BASE_RATE_DECAY_PER_MINUTE, 360) == Some(HALF)
  {
    hide RayMul;
    DecaySquares();
    DecayProducts();
    assert PowFrom(818_532_219_529_988_947_539_294_111, 781_568_617_348_369_433_618_437_136, 1) == Some(HALF);
    assert PowFrom(818_532_219_529_988_947_539_294_111, 884_063_695_300_496_678_877_950_577, 2) == Some(HALF);
    assert PowFrom(925_874_712_287_293_588_546_110_774, 940_246_614_086_164_459_652_351_518, 5) == Some(HALF);
    assert PowFrom(984_714_752_934_431_916_973_451_204, 969_663_144_646_719_291_639_956_193, 11) == Some(HALF);
    assert PowFrom(984_714_752_934_431_916_973_451_204, 984_714_752_934_431_916_973_451_204, 22) == Some(HALF);
    assert PowFrom(RAY, 992_327_946_262_943_819_635_364_654, 45) == Some(HALF);
    assert PowFrom(RAY, 996_156_587_220_575_387_605_558_820, 90) == Some(HALF);
  }

  /** The half-life is six hours: 360 minutes leave half of the rate, never less by more than the floor, and
      never more by above a part in 10^13. The per-minute constant is the rounded root, so the rest is not
      exactly a half. */
  lemma HalvesInSixHours(rate: nat, secs: nat)
    requires rate <= RAY && 21_600 <= secs < 21_660
    ensures rate - 2 < 2 * Decay(rate, secs)
    ensures 2 * Decay(rate, secs) * 10_000_000_000_000 <= rate * 10_000_000_000_001
  {
    hide RayPow;
    HalfByPow();
    if rate > 0 {
      assert secs / 60 == 360;
      HalfOf(rate);
    }
  }

  lemma HalfOf(rate: nat)
    requires rate <= RAY
    ensures RayMul(rate, HALF).Some?
    ensures var r := RayMul(rate, HALF).value;
            rate - 2 < 2 * r && 2 * r * 10_000_000_000_000 <= rate * 10_000_000_000_001
  {
    RayMulWithin(rate, HALF);
    assert RayMul(rate, HALF).value
        == rate * 500_000_000_000_015_355_248_610_297 / 1_000_000_000_000_000_000_000_000_000;
  }

  /** A bump raises the rate by half the redeemed share of the debt, floored, and stops at 100%, where it can
      stop only because half the share reaches that far. With nothing redeemed, no debt, or a share past 128
      bits, the rate stays. */
  lemma BumpBounds(rate: nat, redeemed: nat, totalDebt: nat)
    requires rate <= RAY
    ensures rate <= Bump(rate, redeemed, totalDebt) <= RAY
    ensures totalDebt > 0 && redeemed * RAY / totalDebt <= U128_MAX ==>
              var gain := Bump(rate, redeemed, totalDebt) - rate;
              && 2 * gain * totalDebt <= redeemed * RAY
              && (gain == RAY - rate || redeemed * RAY < 2 * (gain + 1) * totalDebt)
    ensures totalDebt == 0 || redeemed * RAY / totalDebt > U128_MAX ==> Bump(rate, redeemed, totalDebt) == rate
  {
    if totalDebt > 0 {
      DivBounds(redeemed * RAY, totalDebt);
      var half := redeemed * RAY / totalDebt / 2;
      HalfShare(redeemed * RAY, totalDebt);
      if redeemed > 0 && redeemed * RAY / totalDebt <= U128_MAX {
        var gain := Bump(rate, redeemed, totalDebt) - rate;
        assert gain <= half && (gain == half || gain == RAY - rate);
        MulMonoNat(gain, half, totalDebt);
      }
    }
  }

  /** Flooring twice is flooring once: `n / d / 2` is the floor of `n / (2 * d)`. */
  lemma HalfShare(n: nat, d: nat)
    requires d > 0
    ensures 2 * (n / d / 2) * d <= n < 2 * (n / d / 2 + 1) * d
  {
    var share := n / d;
    var h := share / 2;
    DivBounds(n, d);
    MulMonoNat(2 * h, share, d);
    MulMonoNat(share + 1, 2 * h + 2, d);
  }

  datatype Event = Elapsed(secs: int) | Redeemed(amount: nat, totalDebt: nat)

  function After(rate: nat, e: Event): nat {
    match e
    case Elapsed(secs) => Decay(rate, secs)
    case Redeemed(amount, totalDebt) => Bump(rate, amount, totalDebt)
  }

  function RateAfter(rate: nat, es: seq<Event>): nat {
    if es == [] then rate else After(RateAfter(rate, es[..|es| - 1]), es[|es| - 1])
  }

  /** Over any run of decays and redemptions the rate stays within 100%; without redemptions it never
      rises, and without time passing it never falls. */
  lemma {:induction false} RateStaysInRange(rate: nat, es: seq<Event>)
    requires rate <= RAY
    ensures RateAfter(rate, es) <= RAY
    ensures (forall e <- es :: e.Elapsed?) ==> RateAfter(rate, es) <= rate
    ensures (forall e <- es :: e.Redeemed?) ==> rate <= RateAfter(rate, es)
  {
    hide Decay, Bump;
    if es != [] {
      var rest, last := es[..|es| - 1], es[|es| - 1];
      RateStaysInRange(rate, rest);
      var before := RateAfter(rate, rest);
      assert last in es;
      match last
      case Elapsed(secs) =>
        DecayNeverRaises(before, secs);
      case Redeemed(amount, totalDebt) =>
        BumpBounds(before, amount, totalDebt);
    }
  }

  lemma DecayNeverRaises(rate: nat, secs: int)
    requires rate <= RAY
    ensures Decay(rate, secs) <= rate
    ensures secs < 60 ==> Decay(rate, secs) == rate
  {
    if secs >= 0 {
      DecayFollowsExponential(rate, secs);
    }
  }

  /** The fee is between the floor (or the cap, if lower) and the cap, at most the dynamic maximum above
      the floor, exactly the flat fee with the dynamic part disabled, the floor plus the rate in whole
      basis points where nothing clamps it, and never lower for a higher rate. */
  lemma FeeBounds(rate: nat, higher: nat, floorBps: nat, dynamicMaxBps: nat, capBps: nat)
    requires rate <= higher
    ensures Min(floorBps, capBps) <= EffectiveFeeBps(rate, floorBps, dynamicMaxBps, capBps)
    ensures EffectiveFeeBps(rate, floorBps, dynamicMaxBps, capBps) <= Min(capBps, floorBps + dynamicMaxBps)
    ensures EffectiveFeeBps(rate, floorBps, 0, capBps) == Min(floorBps, capBps)
    ensures var fee := EffectiveFeeBps(rate, floorBps, dynamicMaxBps, capBps);
            floorBps <= fee < Min(capBps, floorBps + dynamicMaxBps) ==>
              (fee - floorBps) * RAY <= rate * 10_000 < (fee - floorBps + 1) * RAY
    ensures EffectiveFeeBps(rate, floorBps, dynamicMaxBps, capBps)
         <= EffectiveFeeBps(higher, floorBps, dynamicMaxBps, capBps)
  {
    DivMonoNat(rate, higher, 100_000_000_000_000_000_000_000);
  }
}
