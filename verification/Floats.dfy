/** f64 as its 64-bit pattern, with the comparisons of IEEE 754 read off the bits.
    Printing and parsing decimals belong to library code (ryu and core::num), so
    they are parameters packed in a FloatLib. */
module Floats {
  import opened Wrappers

  const TWO_52: int := 0x10_0000_0000_0000
  const TWO_63: int := 0x8000_0000_0000_0000
  const TWO_64: int := 0x1_0000_0000_0000_0000

  newtype F64 = x: int | 0 <= x < 0x1_0000_0000_0000_0000

  const ZERO: F64 := 0

  const I64_MIN: int := -0x8000_0000_0000_0000
  const I64_MAX: int := 0x7FFF_FFFF_FFFF_FFFF

  type I64 = x: int | -0x8000_0000_0000_0000 <= x <= 0x7FFF_FFFF_FFFF_FFFF
  type U64 = x: int | 0 <= x < 0x1_0000_0000_0000_0000
  type U16 = x: int | 0 <= x < 0x1_0000

  function Exponent(x: F64): int { (x as int / TWO_52) % 2048 }

  function Fraction(x: F64): int { x as int % TWO_52 }

  predicate IsNaN(x: F64) { Exponent(x) == 2047 && Fraction(x) != 0 }

  predicate IsFinite(x: F64) { Exponent(x) < 2047 }

  /** Position of a non-NaN pattern on the real line; both zeros are at 0. */
  function Rank(x: F64): int {
    if x as int >= TWO_63 then TWO_63 - x as int else x as int
  }

  predicate Less(x: F64, y: F64) { !IsNaN(x) && !IsNaN(y) && Rank(x) < Rank(y) }

  predicate AtMost(x: F64, y: F64) { !IsNaN(x) && !IsNaN(y) && Rank(x) <= Rank(y) }

  predicate Equals(x: F64, y: F64) { !IsNaN(x) && !IsNaN(y) && Rank(x) == Rank(y) }

  /** `f64::clamp`, which panics unless `lo` is at most `hi`. */
  function Clamp(x: F64, lo: F64, hi: F64): F64 {
    var y := if Less(x, lo) then lo else x;
    if Less(hi, y) then hi else y
  }

  /** The library routines on f64 that the codec calls: `format` is ryu's shortest
      decimal, `parse` is `str::parse::<f64>` on text that a JSON number may have,
      `ofI64` and `toI64` are the `as` casts. */
  datatype FloatLib = FloatLib(
    format: F64 -> seq<byte>,
    parse: seq<byte> -> F64,
    ofI64: I64 -> F64,
    toI64: F64 -> I64
  )
}
