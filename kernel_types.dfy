/** Fixed-width C integer types, the kernel's errno values and a result wrapper,
    as the ov13b10 driver uses them. */
module KernelTypes {

  type byte = x: int | 0 <= x < 0x100
  type u16 = x: int | 0 <= x < 0x1_0000
  type u32 = x: int | 0 <= x < 0x1_0000_0000
  type s32 = x: int | -0x8000_0000 <= x < 0x8000_0000

  // errno values; the driver returns them negated
  const EIO: int := 5
  const EINVAL: int := 22
  const ENOTTY: int := 25
  const EREMOTEIO: int := 121
  const ENOIOCTLCMD: int := 515

  /** An operation that either yields a value or the (negative) value the C function returns. */
  datatype Result<T> = Ok(value: T) | Err(ret: int)

  /** C conversion of any integer to `u32`: reduction modulo 2^32. */
  function U32(x: int): (r: u32)
    ensures 0 <= x < 0x1_0000_0000 ==> r == x
    ensures -0x1_0000_0000 <= x < 0 ==> r == x + 0x1_0000_0000
  {
    x % 0x1_0000_0000
  }

  /** C conversion of a `u32` to `int` (two's complement). */
  function S32(x: u32): (r: s32)
    ensures r == x || r == x - 0x1_0000_0000
    ensures U32(r) == x
  {
    if x < 0x8000_0000 then x else x - 0x1_0000_0000
  }

  /** Signed 32-bit arithmetic as the kernel builds it (-fno-strict-overflow): wrap-around. */
  function WrapS32(x: int): (r: s32)
    ensures -0x8000_0000 <= x < 0x8000_0000 ==> r == x
  {
    S32(U32(x))
  }
}
