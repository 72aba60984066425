/**
 * The SysTick busy-wait delay, reduced to what the control loop relies on: the
 * value `SysTick_Wait` programs into the 24-bit reload field, and the number of
 * ticks one pass of the loop asks for. The hardware count-down and the polling
 * of its COUNT flag are not modelled.
 */
module SysTick {
  import opened Word

  /** Mask of the 24-bit RELOAD field of the SysTick reload register. */
  const RELOAD_M: int := 0x00FF_FFFF

  /** Ticks of the settle delay the loop passes to `SysTick_Wait` (16000*10, 10 ms at 16 MHz). */
  const SettleTicks: nat := 16000 * 10

  /**
   * The reload field after `SysTick_Wait(delay)` writes `delay - 1`: the
   * subtraction wraps in 32 bits and the register keeps only the low 24 bits.
   * The field holds exactly `delay - 1`, so the timer counts `delay` ticks, if and only if
   * `delay` lies in 1 .. 2^24.
   */
  function Reload(delay: uint32): (r: int)
    ensures 0 <= r <= RELOAD_M
    ensures r + 1 == delay as int <==> 1 <= delay as int <= RELOAD_M + 1
  {
    Dec(delay) as int % (RELOAD_M + 1)
  }

  /** The settle delay of the loop fits the reload field: 159999 is written, 160000 ticks are counted. */
  lemma SettleDelayFits()
    ensures SettleTicks < UINT32_MODULUS
    ensures Reload(SettleTicks as uint32) == 159999
    ensures Reload(SettleTicks as uint32) + 1 == SettleTicks
  {
  }
}
