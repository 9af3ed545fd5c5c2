/**
 * Machine types and error values shared by the samples: the Rust integer
 * types they use, the kernel error codes they return, and the Option/Result
 * wrappers of the Rust side.
 */
module Kernel {

  /** Rust `u8`. */
  newtype u8 = x: int | 0 <= x < 0x100

  const I32_MIN: int := -0x8000_0000
  const I32_MAX: int := 0x7fff_ffff
  const TWO_32: int := 0x1_0000_0000

  predicate InI32(x: int) { I32_MIN <= x <= I32_MAX }

  /** Rust `i32`. */
  type i32 = x: int | InI32(x)

  /** Rust `u32`. */
  type u32 = x: int | 0 <= x < TWO_32

  /** The kernel error codes the samples produce. */
  datatype Errno =
    | ERANGE  // math result not representable
    | ENOTTY  // inappropriate ioctl for device
    | EFAULT  // bad address while copying to or from user memory

  datatype Option<+T> = None | Some(value: T)

  /** The kernel crate's `Result<T>`: a value or an error code. */
  datatype Result<+T> = Ok(value: T) | Err(error: Errno)

  /**
   * `i32::wrapping_add`: the sum taken modulo 2^32 into the i32 range.
   */
  function WrappingAdd(x: i32, y: i32): (r: i32)
    ensures InI32(x + y) ==> r == x + y
    ensures (r - (x + y)) % TWO_32 == 0
  {
    Wrap(x + y)
  }

  /** The i32 that is congruent to `v` modulo 2^32. */
  function Wrap(v: int): (r: i32)
    ensures InI32(v) ==> r == v
    ensures (r - v) % TWO_32 == 0
  {
    (v - I32_MIN) % TWO_32 + I32_MIN
  }

  /** `i32::checked_add`: `None` exactly when the sum leaves the i32 range. */
  function CheckedAdd(x: i32, y: i32): (r: Option<i32>)
    ensures r.Some? <==> InI32(x + y)
    ensures r.Some? ==> r.value == x + y
  {
    if InI32(x + y) then Some(x + y) else None
  }

  /** Adding a multiple of 2^32 before wrapping changes nothing. */
  lemma WrapPeriodic(v: int, k: int)
    ensures Wrap(v + k * TWO_32) == Wrap(v)
  {
    var u := v - I32_MIN;
    var q := u / TWO_32;
    assert u == q * TWO_32 + u % TWO_32;
    assert u + k * TWO_32 == (q + k) * TWO_32 + u % TWO_32;
    assert (u + k * TWO_32) % TWO_32 == u % TWO_32;
  }

  /** Wrapping an intermediate result does not change a later wrap. */
  lemma WrapAbsorbs(u: int, v: int)
    ensures Wrap(Wrap(u) + v) == Wrap(u + v)
  {
    var k := (Wrap(u) - u) / TWO_32;
    assert Wrap(u) == u + k * TWO_32;
    WrapPeriodic(u + v, k);
    assert Wrap(u) + v == (u + v) + k * TWO_32;
  }
}
