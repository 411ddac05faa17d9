/** Fixed-width integers, failure types and the exact `a * b / d` primitives that every
    accounting module is built from. Machine integers are unbounded here; a bound that the
    program checks or relies on is written out against these constants. */
module FixedPoint {
  datatype Option<+T> = None | Some(value: T)

  datatype Result<+T, +E> = Ok(value: T) | Err(error: E)

  const U64_MAX: nat := 0xFFFF_FFFF_FFFF_FFFF
  const U128_MAX: nat := 0xFFFF_FFFF_FFFF_FFFF_FFFF_FFFF_FFFF_FFFF
  const TWO_64: nat := 0x1_0000_0000_0000_0000
  const TWO_128: nat := 0x1_0000_0000_0000_0000_0000_0000_0000_0000

  /** 1e18: the precision of products, reward accumulators and token quantities. */
  const WAD: nat := 1_000_000_000_000_000_000
  /** 1e27: the precision of rates. */
  const RAY: nat := 1_000_000_000_000_000_000_000_000_000

  function Min(a: int, b: int): int {
    if a <= b then a else b
  }

  function Max(a: int, b: int): int {
    if a >= b then a else b
  }

  /** `u128::checked_add` and its relatives: a value past the width is an error, never a wrap. */
  function Fits(limit: nat, x: nat): Option<nat> {
    if x <= limit then Some(x) else None
  }

  function SatAdd64(a: nat, b: nat): nat {
    if a + b <= U64_MAX then a + b else U64_MAX
  }

  function SatSub(a: nat, b: nat): nat {
    if a >= b then a - b else 0
  }

  /** The production `mul_div_floor`: an exact 256-bit product, a floored quotient, and a refusal
      when the divisor is zero or the quotient does not fit 128 bits. */
  function MulDivFloor(a: nat, b: nat, d: nat): (r: Option<nat>) {
    if d == 0 then None else Fits(U128_MAX, a * b / d)
  }

  function MulDivCeil(a: nat, b: nat, d: nat): (r: Option<nat>) {
    if d == 0 || a * b / d > U128_MAX then None
    else if a * b % d != 0 then Fits(U128_MAX, a * b / d + 1)
    else Some(a * b / d)
  }
}
