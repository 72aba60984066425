/**
 * The two-sample button debounce of the control loop. Each pass compares a
 * first port F sample and, after one settle wait, a second sample against
 * whole-byte levels; a confirmed press moves Released to Pressed and bumps the
 * counter, a confirmed release moves back to Released.
 */
module Debounce {
  import opened Word
  import SysTick

  /** The `button` global: 0 = Released, 1 = Pressed. */
  datatype Button = Released | Pressed

  /** The byte a sample must equal to read as pressed: PF4 low and every other bit low (`0 << 4`). */
  const PressedLevel: bv8 := 0x00
  /** The byte a sample must equal to read as released: PF4 high and every other bit low (`1 << 4`). */
  const ReleasedLevel: bv8 := 0x10

  /** Result of one debounce evaluation: the new button state and counter, and the waits performed. */
  datatype Outcome = Outcome(button: Button, counter: uint32, waits: seq<nat>)

  /**
   * One debounce evaluation. The counter moves (by one, wrapping in 32 bits)
   * exactly when the state was Released and both samples read pressed, and
   * then the state becomes Pressed; a Pressed state becomes Released exactly
   * when the second sample reads released. Either branch waits once for the
   * settle interval.
   */
  function Evaluate(button: Button, counter: uint32, first: bv8, second: bv8): (r: Outcome)
    ensures r.waits == [SysTick.SettleTicks]
    ensures r.counter != counter <==> button == Released && first == PressedLevel && second == PressedLevel
    ensures r.counter != counter ==> r.counter == Inc(counter) && r.button == Pressed
    ensures (button == Released && r.button == Pressed) <==> r.counter != counter
    ensures button == Pressed ==> (r.button == Released <==> second == ReleasedLevel)
    ensures button == Released && first == PressedLevel && second != PressedLevel ==> r.button == Released
  {
    if first == PressedLevel && button == Released then
      if second == PressedLevel then Outcome(Pressed, Inc(counter), [SysTick.SettleTicks])
      else Outcome(button, counter, [SysTick.SettleTicks])
    else
      if second == ReleasedLevel then Outcome(Released, counter, [SysTick.SettleTicks])
      else Outcome(button, counter, [SysTick.SettleTicks])
  }
}
