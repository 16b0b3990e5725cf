/**
 * Machine integers of the Rust source. Dafny's `int` is unbounded, so the
 * 32-bit width of `i32`/`u32` is written out: `Wrap` is what `as i32` does to
 * a wider integer and what `+`/`-` on `i32` do in a release build, and the
 * saturating operations clamp to the `i32` range.
 */
module Int32 {

  const I32_MIN: int := -0x8000_0000
  const I32_MAX: int := 0x7fff_ffff
  const U32_LIMIT: int := 0x1_0000_0000

  type i32 = x: int | -0x8000_0000 <= x <= 0x7fff_ffff
  type u32 = x: int | 0 <= x < 0x1_0000_0000
  type byte = x: int | 0 <= x < 0x100

  function Min(a: int, b: int): int { if a <= b then a else b }
  function Max(a: int, b: int): int { if a >= b then a else b }

  /** Two's-complement wrap-around of `x` into the `i32` range. */
  function Wrap(x: int): (r: i32)
    ensures I32_MIN <= x <= I32_MAX ==> r == x
    ensures (x - r) % U32_LIMIT == 0
  {
    (x - I32_MIN) % U32_LIMIT + I32_MIN
  }

  /** Wrapping an intermediate result does not change the final wrapped sum. */
  lemma {:induction false} WrapAddLeft(a: int, b: int)
    ensures Wrap(Wrap(a) + b) == Wrap(a + b)
  {
    var q := (a - I32_MIN) / U32_LIMIT;
    assert Wrap(a) == a - U32_LIMIT * q;
    ShiftByMultiple(a + b - I32_MIN, q);
  }

  lemma {:induction false} ShiftByMultiple(y: int, q: int)
    ensures (y - U32_LIMIT * q) % U32_LIMIT == y % U32_LIMIT
  {
    var m := y % U32_LIMIT;
    var d := y / U32_LIMIT;
    assert y - U32_LIMIT * q == U32_LIMIT * (d - q) + m;
  }

  /** `i32::saturating_add`. */
  function SaturatingAdd(a: i32, b: i32): i32
  {
    if a + b > I32_MAX then I32_MAX else if a + b < I32_MIN then I32_MIN else a + b
  }

  /** `i32::saturating_sub`. */
  function SaturatingSub(a: i32, b: i32): i32
  {
    if a - b > I32_MAX then I32_MAX else if a - b < I32_MIN then I32_MIN else a - b
  }
}
