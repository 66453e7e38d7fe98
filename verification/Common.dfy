/** Small types shared by every module of the model. */
module Common {
  datatype Option<+T> = None | Some(value: T)

  datatype Result<+T, +E> = Ok(value: T) | Err(error: E)

  /** An unsigned octet (`u8`). */
  type byte = b: int | 0 <= b < 256

  const I64_MIN: int := -0x8000_0000_0000_0000
  const I64_MAX: int := 0x7FFF_FFFF_FFFF_FFFF

  /** A 64-bit two's complement integer (`i64`). */
  type i64 = v: int | I64_MIN <= v <= I64_MAX witness 0

  function Min(a: int, b: int): int {
    if a <= b then a else b
  }
}
