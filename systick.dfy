/** The arithmetic `systick_setup` uses to program the SysTick reload value. */
module SysTick {
  import opened CTypes

  /** Timer interrupts per second the firmware asks for. */
  const TICKS_PER_SECOND: int := 1

  /** Milliseconds between timer interrupts, as the `int xms` local computes it. */
  const XMS: int := 1000 / TICKS_PER_SECOND

  /** `rcc_ahb_frequency` after the HSE 8 MHz -> 72 MHz PLL configuration `main` selects. */
  const AHB_72MHZ: u32 := 72_000_000

  /**
   * `rcc_ahb_frequency / 8 / 1000 * xms`, evaluated left to right in 32-bit
   * unsigned arithmetic (`xms` is converted to `unsigned` for the product).
   * The SysTick counter runs at AHB/8, so this is the whole number of
   * counter steps in one millisecond, times the milliseconds per interrupt.
   */
  function Reload(ahb: u32): (r: u32)
    ensures r % XMS == 0
    ensures r <= ahb / 8 < r + XMS
    ensures ahb == AHB_72MHZ ==> r == 9_000_000
  {
    ((ahb / 8 / 1000) * XMS) % U32_LIMIT
  }
}
