/** 256-bit products and quotients out of 128-bit words: schoolbook limbs and restoring binary long
    division. Shifts, masks and wraps are written out over the naturals. */
module WideMath {
  import opened Arith
  import opened FixedPoint

  /** `a * b` as `hi * 2^128 + lo`, through 64-bit limbs. */
  function WideMul(a: nat, b: nat): (nat, nat) {
    var (a0, a1) := (a % TWO_64, a / TWO_64);
    var (b0, b1) := (b % TWO_64, b / TWO_64);
    var (low, mid1, mid2, high) := (a0 * b0, a1 * b0, a0 * b1, a1 * b1);
    var cross := low / TWO_64 + mid1 % TWO_64 + mid2 % TWO_64;
    (high + mid1 / TWO_64 + mid2 / TWO_64 + cross / TWO_64,
     low % TWO_64 + cross * TWO_64 % TWO_128)
  }

  lemma Limbs(a0: int, a1: int, b0: int, b1: int)
    ensures (a1 * 0x1_0000_0000_0000_0000 + a0) * (b1 * 0x1_0000_0000_0000_0000 + b0)
         == a1 * b1 * 0x1_0000_0000_0000_0000_0000_0000_0000_0000
            + (a1 * b0 + a0 * b1) * 0x1_0000_0000_0000_0000
            + a0 * b0
  {
  }

  /** The 2^64-weighted column: both middle terms and the carry out of the low one. */
  function Cross(low: nat, mid1: nat, mid2: nat): nat {
    low / 0x1_0000_0000_0000_0000 + mid1 % 0x1_0000_0000_0000_0000 + mid2 % 0x1_0000_0000_0000_0000
  }

  /** The columns add up, with what each of them carries. */
  lemma Columns(low: nat, mid1: nat, mid2: nat, high: nat)
    ensures var cross := Cross(low, mid1, mid2);
            var carried := mid1 / 0x1_0000_0000_0000_0000 + mid2 / 0x1_0000_0000_0000_0000;
            var hi := high + carried + cross / 0x1_0000_0000_0000_0000;
            var lo := low % 0x1_0000_0000_0000_0000
                      + cross * 0x1_0000_0000_0000_0000 % 0x1_0000_0000_0000_0000_0000_0000_0000_0000;
            && hi * 0x1_0000_0000_0000_0000_0000_0000_0000_0000 + lo
               == high * 0x1_0000_0000_0000_0000_0000_0000_0000_0000 + (mid1 + mid2) * 0x1_0000_0000_0000_0000 + low
            && lo < 0x1_0000_0000_0000_0000_0000_0000_0000_0000
  {
    var cross := Cross(low, mid1, mid2);
    assert cross * 0x1_0000_0000_0000_0000 % 0x1_0000_0000_0000_0000_0000_0000_0000_0000
        == cross % 0x1_0000_0000_0000_0000 * 0x1_0000_0000_0000_0000;
  }

  /** The two words are the exact product, and fit. */
  lemma WideMulExact(a: nat, b: nat)
    requires a <= U128_MAX && b <= U128_MAX
    ensures var (hi, lo) := WideMul(a, b);
            hi * TWO_128 + lo == a * b && hi < U128_MAX && lo <= U128_MAX
  {
    var (a0, a1) := (a % TWO_64, a / TWO_64);
    var (b0, b1) := (b % TWO_64, b / TWO_64);
    Limbs(a0, a1, b0, b1);
    Columns(a0 * b0, a1 * b0, a0 * b1, a1 * b1);
    HighWordFits(a, b, WideMul(a, b).0, WideMul(a, b).1);
  }

  lemma HighWordFits(a: nat, b: nat, hi: nat, lo: nat)
    requires a <= U128_MAX && b <= U128_MAX && hi * TWO_128 + lo == a * b
    ensures hi < U128_MAX
  {
    MulBoundNat(a, b, U128_MAX, U128_MAX);
  }

  /** No 128-bit addition or multiplication on the way overflows. */
  lemma NoIntermediateOverflow(a: nat, b: nat)
    requires a <= U128_MAX && b <= U128_MAX
    ensures var (a0, a1) := (a % TWO_64, a / TWO_64);
            var (b0, b1) := (b % TWO_64, b / TWO_64);
            && a0 * b0 <= U128_MAX && a1 * b0 <= U128_MAX && a0 * b1 <= U128_MAX && a1 * b1 <= U128_MAX
            && a0 * b0 / TWO_64 + a1 * b0 % TWO_64 + a0 * b1 % TWO_64 <= U128_MAX
            && WideMul(a, b).0 <= U128_MAX
  {
    var (a0, a1) := (a % TWO_64, a / TWO_64);
    var (b0, b1) := (b % TWO_64, b / TWO_64);
    MulBoundNat(a0, b0, U64_MAX, U64_MAX);
    MulBoundNat(a1, b0, U64_MAX, U64_MAX);
    MulBoundNat(a0, b1, U64_MAX, U64_MAX);
    MulBoundNat(a1, b1, U64_MAX, U64_MAX);
    WideMulExact(a, b);
  }

  /** `x >> k`. */
  function Shr(x: nat, k: nat): (r: nat)
    ensures r <= x
  {
    if k == 0 then x else Shr(x, k - 1) / 2
  }

  function Pow2(n: nat): nat {
    if n == 0 then 1 else 2 * Pow2(n - 1)
  }

  lemma {:induction false} Pow2Add(m: nat, n: nat)
    ensures Pow2(m + n) == Pow2(m) * Pow2(n)
  {
    if m > 0 {
      Pow2Add(m - 1, n);
      TwiceProduct(Pow2(m - 1), Pow2(n));
    }
  }

  lemma TwiceProduct(a: int, b: int)
    ensures 2 * (a * b) == (2 * a) * b
  {
  }

  lemma Pow2Word()
    ensures Pow2(128) == TWO_128
  {
    hide Pow2;
    assert Pow2(8) == 0x100 by {
      Pow2Byte();
    }
    Pow2Add(8, 8);
    Pow2Add(16, 16);
    Pow2Add(32, 32);
    Pow2Add(64, 64);
  }

  lemma Pow2Byte()
    ensures Pow2(8) == 0x100
  {
  }

  lemma {:induction false} ShrTwice(x: nat, i: nat, j: nat)
    ensures Shr(x, i + j) == Shr(Shr(x, i), j)
  {
    if j > 0 {
      ShrTwice(x, i, j - 1);
    }
  }

  /** Shifting two words by less than one of them. */
  lemma {:induction false} ShrWords(hi: nat, lo: nat, k: nat, i: nat)
    requires i <= k && lo < Pow2(k)
    ensures Shr(hi * Pow2(k) + lo, i) == hi * Pow2(k - i) + Shr(lo, i)
    ensures Shr(lo, i) < Pow2(k - i)
  {
    if i > 0 {
      ShrWords(hi, lo, k, i - 1);
      HalveSum(hi, Pow2(k - i), Shr(lo, i - 1));
    }
  }

  lemma HalveSum(h: nat, p: nat, l: nat)
    ensures (h * (2 * p) + l) / 2 == h * p + l / 2
  {
    assert h * (2 * p) == 2 * (h * p);
  }

  /** Bit `i` of `hi * 2^128 + lo` is in the word the program reads it from. */
  lemma BitOfWords(hi: nat, lo: nat, i: nat)
    requires lo <= U128_MAX
    ensures (if i >= 128 then Shr(hi, i - 128) % 2 else Shr(lo, i) % 2) == Shr(hi * TWO_128 + lo, i) % 2
    ensures i >= 128 ==> Shr(hi * TWO_128 + lo, i) == Shr(hi, i - 128)
  {
    hide Shr, Pow2;
    Pow2Word();
    if i >= 128 {
      HighShift(hi, lo, 128, i);
    } else {
      LowBit(hi, lo, 128, i);
    }
  }

  lemma HighShift(hi: nat, lo: nat, k: nat, i: nat)
    requires k <= i && lo < Pow2(k)
    ensures Shr(hi * Pow2(k) + lo, i) == Shr(hi, i - k)
  {
    hide Shr, Pow2;
    ShrWords(hi, lo, k, k);
    WholeShift();
    ShrTwice(hi * Pow2(k) + lo, k, i - k);
  }

  lemma LowBit(hi: nat, lo: nat, k: nat, i: nat)
    requires i < k && lo < Pow2(k)
    ensures Shr(hi * Pow2(k) + lo, i) % 2 == Shr(lo, i) % 2
  {
    hide Shr, Pow2;
    ShrWords(hi, lo, k, i);
    Pow2Even(k - i);
    EvenPlus(hi, Pow2(k - i - 1), Shr(lo, i));
  }

  lemma EvenPlus(h: nat, p: nat, l: nat)
    ensures (h * (2 * p) + l) % 2 == l % 2
  {
    assert h * (2 * p) == 2 * (h * p);
  }

  lemma Pow2Even(n: nat)
    requires n > 0
    ensures Pow2(n) == 2 * Pow2(n - 1)
  {
  }

  lemma WholeShift()
    ensures Pow2(0) == 1
  {
  }

  lemma TopIsZero(hi: nat, lo: nat)
    requires hi <= U128_MAX && lo <= U128_MAX
    ensures Shr(hi * TWO_128 + lo, 256) == 0
  {
    hide Shr;
    BitOfWords(hi, lo, 256);
    Pow2Word();
    ShrWords(0, hi, 128, 128);
    WholeShift();
  }

  /** Taking in one more bit doubles and adds it. */
  lemma NextBit(n: nat, i: nat)
    ensures Shr(n, i) == 2 * Shr(n, i + 1) + Shr(n, i) % 2
  {
  }

  /** The quotient fits 128 bits exactly when the high word is below the divisor. */
  lemma QuotientFits(hi: nat, lo: nat, denom: nat)
    requires lo < TWO_128 && denom > 0
    ensures (hi * TWO_128 + lo) / denom <= U128_MAX <==> hi < denom
  {
    if hi < denom {
      MulMonoNat(hi + 1, denom, TWO_128);
      DivAtMost(hi * TWO_128 + lo, denom, U128_MAX);
    } else {
      MulMonoNat(denom, hi, TWO_128);
      DivAtLeast(hi * TWO_128 + lo, denom, TWO_128);
    }
  }

  /** Quotient and remainder, if the quotient fits 128 bits. */
  function DivRem(n: nat, denom: nat): Option<(nat, nat)>
    requires denom > 0
  {
    if n / denom <= U128_MAX then Some((n / denom, n % denom)) else None
  }

  lemma DivRemUnique(n: nat, denom: nat, quo: nat, rem: nat)
    requires denom > 0 && quo * denom + rem == n && rem < denom && n / denom <= U128_MAX
    ensures DivRem(n, denom) == Some((quo, rem))
  {
    DivUnique(n, denom, quo);
  }

  /** Restoring binary long division. `None` exactly when the quotient needs more than 128 bits. */
  method Div256By128(hi: nat, lo: nat, denom: nat) returns (r: Option<(nat, nat)>)
    requires hi <= U128_MAX && lo <= U128_MAX && 0 < denom <= U128_MAX
    ensures r == DivRem(hi * TWO_128 + lo, denom)
  {
    QuotientFits(hi, lo, denom);
    if hi >= denom {
      return None;
    }
    if hi == 0 {
      return Some((lo / denom, lo % denom));
    }
    var quo, rem := DivideBits(hi, lo, denom);
    DivRemUnique(hi * TWO_128 + lo, denom, quo, rem);
    return Some((quo, rem));
  }

  /** The doubled quotient of a prefix of the bits still fits. */
  lemma DoublingFits(n: nat, prefix: nat, denom: nat, quo: nat, rem: nat)
    requires denom > 0 && n / denom <= U128_MAX && prefix <= n
    requires 2 * (quo * denom + rem) <= prefix
    ensures 2 * quo <= U128_MAX
  {
    assert 2 * quo * denom == 2 * (quo * denom);
    DivAtLeast(n, denom, 2 * quo);
  }

  method DivideBits(hi: nat, lo: nat, denom: nat) returns (quo: nat, rem: nat)
    requires hi < denom <= U128_MAX && lo <= U128_MAX
    ensures quo * denom + rem == hi * TWO_128 + lo && rem < denom
  {
    hide Shr;
    ghost var n: nat := hi * TWO_128 + lo;
    QuotientFits(hi, lo, denom);
    var i: nat := 256;
    rem, quo := 0, 0;
    TopIsZero(hi, lo);
    while i > 0
      invariant i <= 256
      invariant rem < denom && quo * denom + rem == Shr(n, i)
    {
      i := i - 1;
      var bit := if i >= 128 then Shr(hi, i - 128) % 2 else Shr(lo, i) % 2;
      BitOfWords(hi, lo, i);
      NextBit(n, i);
      DoublingFits(n, Shr(n, i), denom, quo, rem);
      rem, quo := DivStep(rem, quo, bit, denom);
    }
    NoShift(n);
  }

  lemma NoShift(n: nat)
    ensures Shr(n, 0) == n
  {
  }

  /** One bit of the division: shift it in, and subtract if the divisor fits. The shift may push the
      remainder past 128 bits for a moment; the bit it loses is kept in `carry`. */
  method DivStep(rem: nat, quo: nat, bit: nat, denom: nat) returns (rem': nat, quo': nat)
    requires rem < denom <= U128_MAX && bit <= 1 && 2 * quo <= U128_MAX
    ensures rem' < denom && quo' * denom + rem' == 2 * (quo * denom + rem) + bit
  {
    Doubled(quo, denom);
    ShiftedRemainder(rem, bit, denom);
    var carry := rem / 0x8000_0000_0000_0000_0000_0000_0000_0000;
    rem' := rem * 2 % TWO_128 + bit;
    quo' := quo * 2 % TWO_128;
    assert quo' == 2 * quo;
    if carry == 1 || rem' >= denom {
      rem' := if rem' >= denom then rem' - denom else rem' + TWO_128 - denom;
      quo' := quo' + 1;
      assert quo' * denom == 2 * (quo * denom) + denom;
    }
  }

  /** The shifted remainder with its lost bit, and what is left of it once the divisor is off. */
  lemma ShiftedRemainder(rem: nat, bit: nat, denom: nat)
    requires rem < denom <= U128_MAX && bit <= 1
    ensures var carry := rem / 0x8000_0000_0000_0000_0000_0000_0000_0000;
            var shifted := rem * 2 % TWO_128 + bit;
            if carry == 1 || shifted >= denom
            then
              var left := if shifted >= denom then shifted - denom else shifted + TWO_128 - denom;
              left < denom && left + denom == 2 * rem + bit
            else shifted < denom && shifted == 2 * rem + bit
  {
  }

  lemma Doubled(quo: nat, denom: nat)
    ensures 2 * quo * denom == 2 * (quo * denom)
    ensures (2 * quo + 1) * denom == 2 * (quo * denom) + denom
  {
  }

  /** `a * b / denom` through the two words: quotient and whether anything is left. */
  method WideMulDiv(a: nat, b: nat, denom: nat) returns (r: Option<(nat, bool)>)
    requires a <= U128_MAX && b <= U128_MAX && denom <= U128_MAX
    ensures r == if denom == 0 || DivRem(a * b, denom).None? then None
                 else var (q, rem) := DivRem(a * b, denom).value; Some((q, rem != 0))
  {
    hide DivRem, WideMul;
    if denom == 0 {
      return None;
    }
    WideMulExact(a, b);
    var (hi, lo) := WideMul(a, b);
    var d := Div256By128(hi, lo, denom);
    if d.None? {
      return None;
    }
    return Some((d.value.0, d.value.1 != 0));
  }

  method MulDivFloorOfWords(a: nat, b: nat, denom: nat) returns (r: Option<nat>)
    requires a <= U128_MAX && b <= U128_MAX && denom <= U128_MAX
    ensures r == MulDivFloor(a, b, denom)
  {
    var q := WideMulDiv(a, b, denom);
    return if q.None? then None else Some(q.value.0);
  }

  method MulDivCeilOfWords(a: nat, b: nat, denom: nat) returns (r: Option<nat>)
    requires a <= U128_MAX && b <= U128_MAX && denom <= U128_MAX
    ensures r == MulDivCeil(a, b, denom)
  {
    var q := WideMulDiv(a, b, denom);
    if q.None? {
      return None;
    }
    return if q.value.1 then Fits(U128_MAX, q.value.0 + 1) else Some(q.value.0);
  }

  /** `(a * b + add) / denom` and its remainder. The carry into the high word never overflows it. */
  method WideMulAddDiv(a: nat, b: nat, add: nat, denom: nat) returns (r: Option<(nat, nat)>)
    requires a <= U128_MAX && b <= U128_MAX && add <= U128_MAX && denom <= U128_MAX
    ensures r == if denom == 0 then None else DivRem(a * b + add, denom)
  {
    hide DivRem, WideMul;
    if denom == 0 {
      return None;
    }
    WideMulExact(a, b);
    var (hi, lo) := WideMul(a, b);
    AddWithCarry(hi, lo, add, a * b);
    var sum := (lo + add) % TWO_128;
    if lo + add > U128_MAX {
      hi := hi + 1;
    }
    r := Div256By128(hi, sum, denom);
  }

  lemma AddWithCarry(hi: nat, lo: nat, add: nat, product: nat)
    requires lo <= U128_MAX && add <= U128_MAX && hi < U128_MAX && hi * TWO_128 + lo == product
    ensures var sum := (lo + add) % TWO_128;
            && sum <= U128_MAX
            && (if lo + add > U128_MAX then hi + 1 else hi) * TWO_128 + sum == product + add
  {
  }

  /** What the two roundings mean: the largest multiple below and the smallest above. */
  lemma RoundingsBracket(a: nat, b: nat, d: nat, q: nat)
    requires d > 0
    ensures MulDivFloor(a, b, d) == Some(q) <==> q <= U128_MAX && q * d <= a * b < (q + 1) * d
    ensures MulDivCeil(a, b, d) == Some(q) <==> q <= U128_MAX && a * b <= q * d < a * b + d
  {
    DivBounds(a * b, d);
    if q * d <= a * b < (q + 1) * d {
      DivUnique(a * b, d, q);
    }
    if a * b <= q * d < a * b + d && q > 0 {
      assert (q - 1) * d == q * d - d;
      if q * d == a * b {
        DivUnique(a * b, d, q);
      } else {
        DivUnique(a * b, d, q - 1);
      }
    }
  }
}
