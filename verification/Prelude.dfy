/** Stock value types and the machine arithmetic the Rust source relies on. */
module Prelude {

  datatype Option<+T> = None | Some(value: T)

  datatype Result<+T, +E> = Ok(value: T) | Err(error: E)

  type u32 = n: int | 0 <= n < 0x1_0000_0000

  type i64 = n: int | -0x8000_0000_0000_0000 <= n < 0x8000_0000_0000_0000

  type u64 = n: int | 0 <= n < 0x1_0000_0000_0000_0000

  const U64_MAX: u64 := 0xFFFF_FFFF_FFFF_FFFF

  function Min(a: int, b: int): int {
    if a <= b then a else b
  }

  /** `u64::saturating_add`. */
  function SaturatingAdd(a: u64, b: u64): (r: u64)
    ensures r == Min(a + b, U64_MAX)
  {
    if a + b > U64_MAX then U64_MAX else a + b
  }

  /** `u64::saturating_sub`. */
  function SaturatingSub(a: u64, b: u64): (r: u64)
    ensures r == 0 <==> a <= b
    ensures a >= b ==> r + b == a
  {
    if a < b then 0 else a - b
  }

  /** `+= 1` on a `u64` counter in a release build. */
  function WrappingInc(a: u64): u64 {
    if a == U64_MAX then 0 else a + 1
  }

  /** `fetch_sub(1)` on an `AtomicU64`. */
  function WrappingDec(a: u64): u64 {
    if a == 0 then U64_MAX else a - 1
  }
}
