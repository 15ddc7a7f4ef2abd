/** Fixed-width integers of the contract and their saturating and checked operations. */
module Numeric {

  datatype Option<+T> = None | Some(value: T)

  datatype Result<+T, +E> = Ok(value: T) | Err(error: E)

  const U32_MAX: int := 0xFFFF_FFFF
  const U128_MAX: int := 0xFFFF_FFFF_FFFF_FFFF_FFFF_FFFF_FFFF_FFFF
  const I128_MAX: int := 0x7FFF_FFFF_FFFF_FFFF_FFFF_FFFF_FFFF_FFFF
  const I128_MIN: int := -0x8000_0000_0000_0000_0000_0000_0000_0000

  type u32 = x: int | 0 <= x <= U32_MAX
  type u128 = x: int | 0 <= x <= U128_MAX
  type i128 = x: int | I128_MIN <= x <= I128_MAX witness 0

  /** Account identities; only equality matters. */
  type Address = nat

  /** What a ledger of totals says of a user; nothing entered means zero. */
  ghost function Lookup(totals: map<Address, int>, user: Address): int {
    if user in totals then totals[user] else 0
  }

  const BPS_DENOMINATOR: int := 10_000
  const LEDGERS_PER_DAY: int := 17_280
  const LEDGERS_PER_YEAR: int := LEDGERS_PER_DAY * 365

  function Min(a: int, b: int): int { if a < b then a else b }

  function Max(a: int, b: int): int { if a < b then b else a }

  predicate FitsI128(x: int) { I128_MIN <= x <= I128_MAX }

  /** The nearest `i128`: the result of every `saturating_*` operation. */
  function Clamp(x: int): i128 {
    if x < I128_MIN then I128_MIN else if x > I128_MAX then I128_MAX else x
  }

  function SatAdd(a: int, b: int): i128 { Clamp(a + b) }

  function SatSub(a: int, b: int): i128 { Clamp(a - b) }

  function SatMul(a: int, b: int): i128 { Clamp(a * b) }

  function SatAddU32(a: u32, b: u32): u32 { Min(a + b, U32_MAX) }

  function SatSubU32(a: u32, b: u32): u32 { Max(a - b, 0) }

  function SatMulU128(a: u128, b: u128): u128 { Min(a * b, U128_MAX) }

  function Checked(x: int): Option<i128> { if FitsI128(x) then Some(x) else None }

  ghost predicate NoRepeats<T>(s: seq<T>) {
    forall i, j :: 0 <= i < j < |s| ==> s[i] != s[j]
  }

  /** Division of the source language: the quotient is truncated toward zero. */
  function TruncDiv(a: int, b: int): int
    requires b != 0
  {
    if a >= 0 then (if b > 0 then a / b else -(a / -b))
    else if b > 0 then -(-a / b) else -a / -b
  }

  function CheckedDiv(a: i128, b: i128): Option<i128> {
    if b == 0 then None else Checked(TruncDiv(a, b))
  }

  /** Floor of a quotient by its defining inequalities. */
  lemma {:induction false} FloorBounds(a: int, b: int)
    requires b > 0
    ensures b * (a / b) <= a < b * (a / b) + b
  {
  }

  lemma {:induction false} FloorUnique(a: int, b: int, q: int)
    requires b > 0 && b * q <= a < b * q + b
    ensures a / b == q
  {
    var p := a / b;
    FloorBounds(a, b);
    if p < q {
      MulLe(p + 1, q, b);
    } else if p > q {
      MulLe(q + 1, p, b);
    }
  }

  lemma {:induction false} MulLe(a: int, b: int, c: int)
    requires a <= b && 0 <= c
    ensures a * c <= b * c
  {
  }

  /** Cancels a common positive factor of an inequality. */
  lemma {:induction false} CancelLe(a: int, b: int, c: int)
    requires 0 < c && a * c <= b * c
    ensures a <= b
  {
    if a > b {
      MulLe(b + 1, a, c);
    }
  }

  lemma {:induction false} CancelLt(a: int, b: int, c: int)
    requires 0 < c && a * c < b * c
    ensures a < b
  {
    if a >= b {
      MulLe(b, a, c);
    }
  }

  lemma {:induction false} FloorMonotone(a: int, b: int, d: int)
    requires d > 0 && a <= b
    ensures a / d <= b / d
  {
    FloorBounds(a, d);
    FloorBounds(b, d);
    if b / d < a / d {
      MulLe(b / d + 1, a / d, d);
    }
  }

  lemma {:induction false} QuotientInRange(a: int, b: int)
    requires 0 <= a && 0 < b
    ensures 0 <= a / b <= a
  {
    FloorBounds(a, b);
    FloorMonotone(0, a, b);
    MulLe(1, b, a / b);
  }

  lemma {:induction false} Distribute(c: int, x: int, y: int)
    ensures c * (x + y) == c * x + c * y
  {
  }

  lemma {:induction false} SwapFactors(a: int, b: int, c: int)
    ensures (a * b) * c == (a * c) * b == a * (b * c)
  {
  }
}
