/** C's integers, where they matter. */
module Integers {

  newtype byte = x: int | 0 <= x < 256

  const TWO_TO_THE_31: int := 0x8000_0000
  const TWO_TO_THE_32: int := 0x1_0000_0000

  /** Division that truncates toward zero. */
  function Truncated(x: int, y: int): int
    requires y > 0
  {
    if x >= 0 then x / y else -(-x / y)
  }

  /** A value kept in an unsigned or a signed 32-bit variable. */
  function U32(x: int): (u: int)
    ensures 0 <= u < TWO_TO_THE_32
  {
    x % TWO_TO_THE_32
  }

  function S32(x: int): (i: int)
    ensures -TWO_TO_THE_31 <= i < TWO_TO_THE_31
  {
    if U32(x) < TWO_TO_THE_31 then U32(x) else U32(x) - TWO_TO_THE_32
  }
}
