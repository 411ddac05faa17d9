/** One 64-bit word of the rate bitmap, bit by bit. Word operations are named so that the inductive
    proofs see only their laws. */
module RateBits {
  function Half(w: bv64): bv64 {
    w >> 1
  }

  function Twice(w: bv64): bv64 {
    w << 1
  }

  predicate Odd(w: bv64) {
    w & 1 == 1
  }

  function Join(w: bv64, m: bv64): bv64 {
    w | m
  }

  function Without(w: bv64, m: bv64): bv64 {
    w & !m
  }

  function Common(w: bv64, m: bv64): bv64 {
    w & m
  }

  /** `1 << k`. */
  function Mask(k: nat): bv64 {
    if k == 0 then 1 else Twice(Mask(k - 1))
  }

  /** Everything from bit `k` up: `u64::MAX << k`. */
  function From(k: nat): bv64 {
    if k == 0 then 0xFFFF_FFFF_FFFF_FFFF else Twice(From(k - 1))
  }

  predicate Bit(w: bv64, k: nat) {
    if k == 0 then Odd(w) else Bit(Half(w), k - 1)
  }

  function ZerosFrom(w: bv64, k: nat): (z: nat)
    requires k <= 64
    ensures k <= z <= 64 && (z < 64 ==> Bit(w, z)) && forall j :: k <= j < z ==> !Bit(w, j)
    decreases 64 - k
  {
    if k == 64 || Bit(w, k) then k else ZerosFrom(w, k + 1)
  }

  /** The number of low zero bits, 64 for a zero word. */
  function TrailingZeros(w: bv64): nat {
    ZerosFrom(w, 0)
  }

  // ----- laws of the word operations -------------------------------------------------------------

  /** A word with at most one bit set. */
  predicate Single(m: bv64) {
    m & (m - 1) == 0
  }

  predicate Small(m: bv64) {
    m < 0x8000_0000_0000_0000
  }

  lemma TwiceSingle(m: bv64)
    requires Single(m)
    ensures Single(Twice(m)) && (Twice(m) != 0 ==> Small(m))
  {
  }

  lemma CommonTwice(w: bv64, m: bv64)
    requires Small(m)
    ensures Common(w, Twice(m)) != 0 <==> Common(Half(w), m) != 0
  {
  }

  lemma JoinTwice(w: bv64, m: bv64)
    requires Small(m)
    ensures Half(Join(w, Twice(m))) == Join(Half(w), m)
  {
  }

  lemma JoinTwiceOdd(w: bv64, m: bv64)
    ensures Odd(Join(w, Twice(m))) == Odd(w)
  {
  }

  lemma WithoutTwice(w: bv64, m: bv64)
    requires Small(m)
    ensures Half(Without(w, Twice(m))) == Without(Half(w), m)
  {
  }

  lemma WithoutTwiceOdd(w: bv64, m: bv64)
    ensures Odd(Without(w, Twice(m))) == Odd(w)
  {
  }

  lemma CommonOne(w: bv64)
    ensures Common(w, 1) != 0 <==> Odd(w)
  {
  }

  lemma JoinOne(w: bv64)
    ensures Odd(Join(w, 1)) && Half(Join(w, 1)) == Half(w)
  {
  }

  lemma WithoutOne(w: bv64)
    ensures !Odd(Without(w, 1)) && Half(Without(w, 1)) == Half(w)
  {
  }

  lemma CommonTwiceOdd(w: bv64, f: bv64)
    ensures !Odd(Common(w, Twice(f)))
  {
  }

  lemma CommonTwiceHalf(w: bv64, f: bv64)
    ensures Half(Common(w, Twice(f))) == Common(Half(w), f)
  {
  }

  lemma CommonAll(w: bv64)
    ensures Common(w, 0xFFFF_FFFF_FFFF_FFFF) == w
  {
  }

  lemma HalfZero(w: bv64)
    ensures w == 0 <==> !Odd(w) && Half(w) == 0
  {
  }

  // ----- masks -----------------------------------------------------------------------------------

  function Up4(m: bv64): bv64 {
    m << 4
  }

  function Up16(m: bv64): bv64 {
    m << 16
  }

  lemma TwiceFour(m: bv64)
    ensures Twice(Twice(Twice(Twice(m)))) == Up4(m)
  {
  }

  lemma Up4Four(m: bv64)
    ensures Up4(Up4(Up4(Up4(m)))) == Up16(m)
  {
  }

  lemma MaskStep(k: nat)
    ensures Mask(k + 4) == Up4(Mask(k))
  {
    hide Twice, Up4;
    assert Mask(k + 2) == Twice(Twice(Mask(k)));
    assert Mask(k + 4) == Twice(Twice(Mask(k + 2)));
    TwiceFour(Mask(k));
  }

  lemma MaskSteps(k: nat)
    ensures Mask(k + 16) == Up16(Mask(k))
  {
    hide Mask, Up4, Up16;
    MaskStep(k);
    MaskStep(k + 4);
    MaskStep(k + 8);
    MaskStep(k + 12);
    Up4Four(Mask(k));
  }

  lemma TopValue()
    ensures Twice(Twice(Twice(Up4(Up4(Up4(Up16(Up16(Up16(1))))))))) == 0x8000_0000_0000_0000
  {
  }

  lemma TopMask()
    ensures Mask(63) == 0x8000_0000_0000_0000
  {
    hide Twice, Up4, Up16, Mask;
    MaskOne();
    MaskSteps(0);
    MaskSteps(16);
    MaskSteps(32);
    MaskStep(48);
    MaskStep(52);
    MaskStep(56);
    MaskThree(60);
    TopValue();
  }

  lemma MaskOne()
    ensures Mask(0) == 1
  {
  }

  lemma MaskThree(k: nat)
    ensures Mask(k + 3) == Twice(Twice(Twice(Mask(k))))
  {
    hide Twice;
    assert Mask(k + 2) == Twice(Twice(Mask(k)));
  }

  /** No mask of a bit in the word vanishes: one that did would take the top mask with it. */
  lemma {:induction false} MaskNonZero(k: nat)
    requires k < 64
    ensures Mask(k) != 0
    decreases 64 - k
  {
    hide Twice;
    if k == 63 {
      TopMask();
    } else {
      MaskNonZero(k + 1);
      TwiceZero();
    }
  }

  lemma TwiceZero()
    ensures Twice(0) == 0
  {
  }

  lemma {:induction false} MaskSmall(k: nat)
    requires k < 63
    ensures Single(Mask(k)) && Small(Mask(k))
  {
    hide Twice, Single, Small;
    if k == 0 {
      SingleOne();
    } else {
      MaskSmall(k - 1);
      TwiceSingle(Mask(k - 1));
    }
    MaskNonZero(k + 1);
    TwiceSingle(Mask(k));
  }

  lemma SingleOne()
    ensures Single(1)
  {
  }

  // ----- bits ------------------------------------------------------------------------------------

  /** Testing against a mask reads the bit. */
  lemma {:induction false} MaskReadsBit(w: bv64, k: nat)
    requires k < 64
    ensures Common(w, Mask(k)) != 0 <==> Bit(w, k)
    decreases k
  {
    hide Half, Twice, Odd, Common, Single, Small;
    if k == 0 {
      CommonOne(w);
    } else {
      MaskReadsBit(Half(w), k - 1);
      MaskSmall(k - 1);
      CommonTwice(w, Mask(k - 1));
    }
  }

  lemma {:induction false} SetBit(w: bv64, k: nat, j: nat)
    requires k < 64
    ensures Bit(Join(w, Mask(k)), j) <==> j == k || Bit(w, j)
    decreases k
  {
    hide Half, Twice, Odd, Join, Single, Small;
    if k == 0 {
      JoinOne(w);
    } else {
      MaskSmall(k - 1);
      JoinTwice(w, Mask(k - 1));
      JoinTwiceOdd(w, Mask(k - 1));
      if j > 0 {
        SetBit(Half(w), k - 1, j - 1);
      }
    }
  }

  lemma {:induction false} ClearBit(w: bv64, k: nat, j: nat)
    requires k < 64
    ensures Bit(Without(w, Mask(k)), j) <==> j != k && Bit(w, j)
    decreases k
  {
    hide Half, Twice, Odd, Without, Single, Small;
    if k == 0 {
      WithoutOne(w);
    } else {
      MaskSmall(k - 1);
      WithoutTwice(w, Mask(k - 1));
      WithoutTwiceOdd(w, Mask(k - 1));
      if j > 0 {
        ClearBit(Half(w), k - 1, j - 1);
      }
    }
  }

  /** Masking from `k` up keeps exactly the bits at or above `k`. */
  lemma {:induction false} FromBit(w: bv64, k: nat, j: nat)
    ensures Bit(Common(w, From(k)), j) <==> j >= k && Bit(w, j)
    decreases k
  {
    hide Half, Twice, Odd, Common;
    if k == 0 {
      CommonAll(w);
    } else {
      CommonTwiceOdd(w, From(k - 1));
      CommonTwiceHalf(w, From(k - 1));
      if j > 0 {
        FromBit(Half(w), k - 1, j - 1);
      }
    }
  }

  function HalfTimes(w: bv64, n: nat): bv64 {
    if n == 0 then w else HalfTimes(Half(w), n - 1)
  }

  lemma {:induction false} ClearBelow(w: bv64, n: nat)
    requires forall j :: 0 <= j < n ==> !Bit(w, j)
    ensures w == 0 <==> HalfTimes(w, n) == 0
    decreases n
  {
    hide Half, Odd;
    if n > 0 {
      assert !Bit(w, 0);
      forall j | 0 <= j < n - 1
        ensures !Bit(Half(w), j)
      {
        assert !Bit(w, j + 1);
      }
      ClearBelow(Half(w), n - 1);
      HalfZero(w);
    }
  }

  function Down4(w: bv64): bv64 {
    w >> 4
  }

  function Down16(w: bv64): bv64 {
    w >> 16
  }

  lemma HalfFour(w: bv64)
    ensures Half(Half(Half(Half(w)))) == Down4(w)
  {
  }

  lemma Down4Four(w: bv64)
    ensures Down4(Down4(Down4(Down4(w)))) == Down16(w)
  {
  }

  lemma Down16Four(w: bv64)
    ensures Down16(Down16(Down16(Down16(w)))) == 0
  {
  }

  lemma HalfStep(w: bv64, n: nat)
    ensures HalfTimes(w, n + 4) == HalfTimes(Down4(w), n)
  {
    hide Half, Down4;
    assert HalfTimes(w, n + 4) == HalfTimes(Half(Half(w)), n + 2);
    assert HalfTimes(w, n + 4) == HalfTimes(Half(Half(Half(Half(w)))), n);
    HalfFour(w);
  }

  lemma HalfSteps(w: bv64, n: nat)
    ensures HalfTimes(w, n + 16) == HalfTimes(Down16(w), n)
  {
    hide HalfTimes, Down4, Down16;
    HalfStep(w, n + 12);
    HalfStep(Down4(w), n + 8);
    HalfStep(Down4(Down4(w)), n + 4);
    HalfStep(Down4(Down4(Down4(w))), n);
    Down4Four(w);
  }

  /** Nothing is left of a word after 64 halvings. */
  lemma AllHalved(w: bv64)
    ensures HalfTimes(w, 64) == 0
  {
    hide Down16, HalfTimes;
    HalfSteps(w, 48);
    HalfSteps(Down16(w), 32);
    HalfSteps(Down16(Down16(w)), 16);
    HalfSteps(Down16(Down16(Down16(w))), 0);
    Down16Four(w);
    NoHalving(0);
  }

  lemma NoHalving(w: bv64)
    ensures HalfTimes(w, 0) == w
  {
  }

  /** A non-zero word has a bit set, and its trailing zeros name the lowest one. */
  lemma LowestBit(w: bv64)
    ensures w != 0 <==> TrailingZeros(w) < 64
  {
    hide Half;
    AllHalved(w);
    if TrailingZeros(w) == 64 {
      ClearBelow(w, 64);
    } else {
      ZeroHasNoBit(TrailingZeros(w));
    }
  }

  lemma {:induction false} ZeroHasNoBit(k: nat)
    ensures !Bit(0, k)
  {
    if k > 0 {
      ZeroHasNoBit(k - 1);
    }
  }
}
