/**
 The fixed-width integers, casts and failure types of Rust that the border
 code relies on. Dafny integers are unbounded, so every width, wrap-around
 and rounding rule the border code depends on is written out here.
 */
module RustTypes {

  const I32_MIN: int := -0x8000_0000
  const I32_MAX: int := 0x7fff_ffff
  const U32_MAX: int := 0xffff_ffff
  const TWO_POW_32: int := 0x1_0000_0000

  type i32 = x: int | I32_MIN <= x <= I32_MAX
  type u32 = x: int | 0 <= x <= U32_MAX
  type u8 = x: int | 0 <= x < 0x100

  predicate InI32(x: int) { I32_MIN <= x <= I32_MAX }
  predicate InU32(x: int) { 0 <= x <= U32_MAX }

  /** Rust's `Option`. */
  datatype Option<+T> = None | Some(value: T) {

    /** `unwrap_or`: the held value, or `default` when there is none. */
    function UnwrapOr(default: T): (r: T)
      ensures Some? ==> r == value
      ensures None? ==> r == default
    {
      match this
      case Some(v) => v
      case None => default
    }
  }

  /** Rust's `Result`. */
  datatype Result<+T, +E> = Ok(value: T) | Err(error: E)

  /**
   `u as i32` for a `u32`: the same 32 bits read as two's complement, so a
   value above I32_MAX comes out negative.
   */
  function U32AsI32(u: u32): (r: i32)
    ensures (u - r) % TWO_POW_32 == 0
    ensures u <= I32_MAX <==> r >= 0
  {
    if u <= I32_MAX then u else u - TWO_POW_32
  }

  /**
   Rust's `/` on signed integers: the quotient is truncated toward zero, so
   the remainder takes the sign of the dividend (Dafny's own `/` floors for
   a positive divisor instead).
   */
  function TruncDiv(a: int, b: int): (q: int)
    requires b > 0
    ensures var rem := a - q * b;
      && -b < rem < b
      && (a >= 0 ==> rem >= 0)
      && (a <= 0 ==> rem <= 0)
  {
    if a >= 0 then a / b else -((-a) / b)
  }

  /**
   `num as u32` for an `f64`, as current Rust defines it: the fraction is
   dropped, values below the range give 0 and values above it saturate.
   */
  function F64ToU32(num: real): (r: u32)
    ensures num <= 0.0 ==> r == 0
    ensures 0.0 < num < TWO_POW_32 as real ==> r as real <= num < r as real + 1.0
    ensures num >= TWO_POW_32 as real ==> r == U32_MAX
  {
    if num <= 0.0 then 0
    else if num >= TWO_POW_32 as real then U32_MAX
    else num.Floor
  }
}
