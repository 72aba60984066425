/**
 * One pass of the forever loop of the button-counter program: heartbeat,
 * debounce, display multiplexer, counter wrap at 100. The loop's globals and
 * the output latches of ports A, B and F form an immutable `State`; the two
 * port F samples a pass takes are its input.
 */
module DigitalIO {
  import opened Wrappers
  import opened Word
  import opened Debounce
  import opened Display
  import SysTick

  /** Heartbeat LED on port F. */
  const PF2: bv8 := 0x04

  /** Counter value that is reset to 0 at the end of the pass. */
  const Limit: uint32 := 100

  /**
   * The loop state: the `counter`, `button` and `hex` globals, the port F
   * output latch (holding the PF2 heartbeat), and the last bytes written to
   * ports A and B (`None` on port B after a read past the digit table).
   */
  datatype State = State(counter: uint32, button: Button, hex: Hex,
                         portF: bv8, portA: bv8, portB: Option<bv8>)

  /** The two raw port F samples of one pass, whole bytes: before and after the settle wait. */
  datatype Samples = Samples(first: bv8, second: bv8)

  /** The state after a pass and the waits (in ticks) the pass performed, in order. */
  datatype Pass = Pass(next: State, waits: seq<nat>)

  /** The state the program enters the loop in: its globals are zero-initialised; port latches are arbitrary. */
  predicate Initial(s: State)
    ensures Initial(s) ==> s.counter < Limit
  {
    s.counter == 0 && s.button == Released && s.hex == Ones
  }

  /** `HeartBeat()`: PF2 flips, every other bit of the port F latch is kept. */
  function HeartBeat(portF: bv8): (f: bv8)
    ensures (f & PF2 == 0) <==> (portF & PF2 != 0)
    ensures f & !PF2 == portF & !PF2
    ensures f ^ PF2 == portF
  {
    portF ^ PF2
  }

  /** `if(counter == 100) counter = 0;` */
  function Wrap(c: uint32): (r: uint32)
    ensures c <= Limit ==> r < Limit
    ensures c == Limit ==> r == 0
    ensures c != Limit ==> r == c
  {
    if c == Limit then 0 else c
  }

  /** The counter after a confirmed press: one more, modulo 100. */
  function NextCount(c: uint32): (r: uint32)
    requires c < Limit
    ensures r < Limit
    ensures r as int == (c as int + 1) % 100
  {
    if c == 99 then 0 else c + 1
  }

  /** Whether the pass is a confirmed press: the button goes from Released to Pressed. */
  predicate Rises(s: State, p: Pass) {
    s.button == Released && p.next.button == Pressed
  }

  /**
   * One pass of the loop as the program is written: the multiplexer reads the
   * counter after the debounce step but before the wrap, so on the pass that
   * brings the counter to 100 in the tens branch it reads `digit[10]`, past
   * the table.
   */
  function Step(s: State, x: Samples): (p: Pass)
    ensures p.waits == [SysTick.SettleTicks]
    ensures s.counter < Limit ==> p.next.counter < Limit
    ensures s.counter < Limit ==> p.next.counter == if Rises(s, p) then NextCount(s.counter) else s.counter
    ensures s.button == Pressed ==> (p.next.button == Released <==> x.second == ReleasedLevel)
    ensures Rises(s, p) <==> s.button == Released && x.first == PressedLevel && x.second == PressedLevel
    ensures p.next.hex == Flip(s.hex)
    ensures p.next.portF == HeartBeat(s.portF)
    ensures (p.next.portA & PA7 != 0) <==> s.hex == Ones
    ensures (p.next.portA & PA6 != 0) <==> s.hex == Tens
    ensures p.next.portA & !(PA7 | PA6) == s.portA & !(PA7 | PA6)
  {
    var f := HeartBeat(s.portF);
    var d := Evaluate(s.button, s.counter, x.first, x.second);
    var m := Multiplex(s.hex, s.portA, d.counter);
    Pass(State(Wrap(d.counter), d.button, m.hex, f, m.portA, m.portB), d.waits)
  }

  /**
   * The pass as evidently intended: the wrap at 100 happens before the
   * multiplexer, so the display never reads past the table and shows 00
   * instead of 100.
   */
  function StepCorrected(s: State, x: Samples): (p: Pass)
    ensures s.counter < Limit ==> p.next.counter < Limit
    ensures s.counter < Limit ==> p.next.portB.Some?
    ensures s.counter < Limit && s.hex == Ones ==>
      p.next.portB == Some(Digits[p.next.counter as int % 10])
    ensures s.counter < Limit && s.hex == Tens ==>
      p.next.portB == Some(Digits[p.next.counter as int / 10])
  {
    var f := HeartBeat(s.portF);
    var d := Evaluate(s.button, s.counter, x.first, x.second);
    var c := Wrap(d.counter);
    var m := Multiplex(s.hex, s.portA, c);
    Pass(State(c, d.button, m.hex, f, m.portA, m.portB), d.waits)
  }

  /**
   * What the as-written pass puts on port B, from a counter in 0..99: the
   * digit of the counter as the multiplexer sees it (one more on a confirmed
   * press, not yet wrapped); the read falls outside the table exactly when
   * the tens module is driven on the press that takes 99 to 100.
   */
  lemma StepDisplay(s: State, x: Samples)
    requires s.counter < Limit
    ensures var p := Step(s, x); var shown := s.counter as int + (if Rises(s, p) then 1 else 0);
      && (p.next.portB.None? <==> s.hex == Tens && s.counter == 99 && Rises(s, p))
      && (s.hex == Ones ==> p.next.portB == Some(Digits[shown % 10]))
      && (s.hex == Tens && shown < 100 ==> p.next.portB == Some(Digits[shown / 10]))
  {
    var d := Evaluate(s.button, s.counter, x.first, x.second);
    assert d.counter as int == s.counter as int + (if Rises(s, Step(s, x)) then 1 else 0);
  }

  /** The as-written pass reads `digit[10]`: counter 99, tens selected, a confirmed press. */
  lemma TensLookupOverruns(portF: bv8, portA: bv8, portB: Option<bv8>)
    ensures Step(State(99, Released, Tens, portF, portA, portB), Samples(0x00, 0x00)).next.portB == None
  {
  }

  /**
   * The corrected pass differs from the as-written one only on port B, and
   * there only where the as-written pass reads past the table.
   */
  lemma CorrectedAgrees(s: State, x: Samples)
    ensures StepCorrected(s, x).waits == Step(s, x).waits
    ensures StepCorrected(s, x).next == Step(s, x).next.(portB := StepCorrected(s, x).next.portB)
    ensures Step(s, x).next.portB.Some? ==> StepCorrected(s, x).next.portB == Step(s, x).next.portB
  {
  }

  /**
   * Both samples are compared as whole bytes, so a pass whose first sample
   * also carries the PF2 heartbeat as just driven can count a press only
   * while the heartbeat is low.
   */
  lemma PressNeedsHeartbeatLow(s: State, x: Samples)
    requires x.first & PF2 == HeartBeat(s.portF) & PF2
    requires Rises(s, Step(s, x))
    ensures Step(s, x).next.portF & PF2 == 0
  {
  }
}
