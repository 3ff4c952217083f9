/** The C integer type the firmware's counters live in on a Cortex-M target. */
module CTypes {
  /** 2^32: `unsigned` and `uint32_t` are 32 bits wide on this target. */
  const U32_LIMIT: int := 0x1_0000_0000

  type u32 = x: int | 0 <= x < U32_LIMIT

  /** C's unsigned `x++`: wraps around to 0 past 2^32 - 1. */
  function Inc(x: u32): (r: u32)
    ensures x < U32_LIMIT - 1 ==> r == x + 1
    ensures x == U32_LIMIT - 1 ==> r == 0
  {
    (x + 1) % U32_LIMIT
  }
}
