/** Fixed-width integers of the SDK, and the failure types its checked arithmetic returns. */
module Numbers {
  datatype Option<+T> = None | Some(value: T)
  datatype Result<+T, +E> = Ok(value: T) | Err(error: E)

  const I64_MIN: int := -0x8000_0000_0000_0000
  const I64_MAX: int := 0x7fff_ffff_ffff_ffff
  const U32_MAX: int := 0xffff_ffff
  const U64_MAX: int := 0xffff_ffff_ffff_ffff
  const I128_MIN: int := -0x8000_0000_0000_0000_0000_0000_0000_0000
  const I128_MAX: int := 0x7fff_ffff_ffff_ffff_ffff_ffff_ffff_ffff
  const U128_MAX: int := 0xffff_ffff_ffff_ffff_ffff_ffff_ffff_ffff

  type i64 = x: int | I64_MIN <= x <= I64_MAX witness 0
  type u32 = x: int | 0 <= x <= U32_MAX
  type u64 = x: int | 0 <= x <= U64_MAX
  type i128 = x: int | I128_MIN <= x <= I128_MAX witness 0
  type byte = x: int | 0 <= x < 256

  /** `checked_add` and `checked_mul` on `i64`: the exact value, or nothing when it does not fit. */
  function CheckedI64(x: int): Option<i64> {
    if I64_MIN <= x <= I64_MAX then Some(x) else None
  }

  function CheckedI128(x: int): Option<i128> {
    if I128_MIN <= x <= I128_MAX then Some(x) else None
  }

  function Max(a: int, b: int): int {
    if a < b then b else a
  }

  function Min(a: int, b: int): int {
    if a < b then a else b
  }

  function Pow10(k: nat): (p: nat)
    ensures p > 0
  {
    if k == 0 then 1 else 10 * Pow10(k - 1)
  }

  lemma {:induction false} Pow10Add(j: nat, k: nat)
    ensures Pow10(j + k) == Pow10(j) * Pow10(k)
  {
    if j > 0 {
      Pow10Add(j - 1, k);
      assert Pow10(j + k) == 10 * Pow10(j - 1 + k);
    }
  }
}
