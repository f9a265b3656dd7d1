/** Machine-width integers and the small generic helpers shared by every module. */
module Basics {

  type byte = n: int | 0 <= n < 0x100
  type uint32 = n: int | 0 <= n < 0x1_0000_0000
  type uint64 = n: int | 0 <= n < 0x1_0000_0000_0000_0000

  const MAX_UINT32: uint32 := 0xFFFF_FFFF
  const TWO_64: int := 0x1_0000_0000_0000_0000
  const TWO_63: int := 0x8000_0000_0000_0000

  datatype Option<+T> = None | Some(value: T)

  /** Two's-complement reduction of an integer to a signed 64-bit word. */
  function Wrap64(n: int): (w: int)
    ensures -TWO_63 <= w < TWO_63
    ensures -TWO_63 <= n < TWO_63 ==> w == n
  {
    (n + TWO_63) % TWO_64 - TWO_63
  }

  /** Go's unsigned 64-bit wrap-around. */
  function WrapU64(n: int): (w: uint64)
    ensures 0 <= n < TWO_64 ==> w == n
  {
    n % TWO_64
  }

  /** Go's conversion of an int to uint32. */
  function WrapU32(n: int): (w: uint32)
    ensures 0 <= n <= MAX_UINT32 ==> w == n
  {
    n % 0x1_0000_0000
  }
}
