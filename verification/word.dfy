/** Fixed-width C integers of the target (ARM Cortex-M4, 32-bit `int` and `long`). */
module Word {

  const UINT32_MODULUS: int := 0x1_0000_0000

  /** The C `unsigned int` / `unsigned long`: arithmetic wraps modulo 2^32. */
  newtype uint32 = x: int | 0 <= x < 0x1_0000_0000

  /** `x++` on an unsigned 32-bit variable: the successor, wrapping to 0 after the maximum. */
  function Inc(x: uint32): (r: uint32)
    ensures r != x
    ensures x as int + 1 < UINT32_MODULUS ==> r as int == x as int + 1
    ensures x as int == UINT32_MODULUS - 1 ==> r == 0
  {
    ((x as int + 1) % UINT32_MODULUS) as uint32
  }

  /** `x - 1` on an unsigned 32-bit value: the predecessor, wrapping to the maximum below 0. */
  function Dec(x: uint32): (r: uint32)
    ensures Inc(r) == x
  {
    ((x as int - 1) % UINT32_MODULUS) as uint32
  }
}
