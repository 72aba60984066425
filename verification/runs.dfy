/**
 * Finite runs of the control loop: the state after a sequence of passes, and
 * what the passes add up to (confirmed presses, counter increments, waits).
 */
module Runs {
  import opened Wrappers
  import opened Word
  import opened Debounce
  import opened Display
  import opened DigitalIO
  import SysTick

  /**
   * The state after the passes whose samples are `xs`, in order: a finite
   * prefix of the forever loop. A counter that starts in 0..99 is still in
   * 0..99 after every such prefix.
   */
  function Run(s: State, xs: seq<Samples>): (t: State)
    ensures s.counter < Limit ==> t.counter < Limit
    decreases |xs|
  {
    if xs == [] then s else Run(Step(s, xs[0]).next, xs[1..])
  }

  /** The same run with the corrected pass. */
  function RunCorrected(s: State, xs: seq<Samples>): State
    decreases |xs|
  {
    if xs == [] then s else RunCorrected(StepCorrected(s, xs[0]).next, xs[1..])
  }

  /** Number of passes that are confirmed presses (`button` goes from 0 to 1). */
  function Presses(s: State, xs: seq<Samples>): nat
    decreases |xs|
  {
    if xs == [] then 0
    else (if Rises(s, Step(s, xs[0])) then 1 else 0) + Presses(Step(s, xs[0]).next, xs[1..])
  }

  /** Number of passes on which `counter++` runs. */
  function Increments(s: State, xs: seq<Samples>): nat
    decreases |xs|
  {
    if xs == [] then 0
    else
      (if Evaluate(s.button, s.counter, xs[0].first, xs[0].second).counter != s.counter then 1 else 0)
      + Increments(Step(s, xs[0]).next, xs[1..])
  }

  /** The waits (in ticks) the passes perform, in order. */
  function WaitLog(s: State, xs: seq<Samples>): seq<nat>
    decreases |xs|
  {
    if xs == [] then [] else Step(s, xs[0]).waits + WaitLog(Step(s, xs[0]).next, xs[1..])
  }

  /** The counter after `n` confirmed presses from counter `c`. */
  function Advance(c: uint32, n: nat): (r: uint32)
    requires c < Limit
    ensures r < Limit
    decreases n
  {
    if n == 0 then c else Advance(NextCount(c), n - 1)
  }

  /** Counting `n` presses adds `n` modulo 100. */
  lemma {:induction false} AdvanceAddsModulo(c: uint32, n: nat)
    requires c < Limit
    ensures Advance(c, n) as int == (c as int + n) % 100
    decreases n
  {
    if n > 0 {
      AdvanceAddsModulo(NextCount(c), n - 1);
    }
  }

  /** The counter at the end of a run has advanced once per confirmed press. */
  lemma {:induction false} CounterAdvancesPerPress(s: State, xs: seq<Samples>)
    requires s.counter < Limit
    ensures Run(s, xs).counter == Advance(s.counter, Presses(s, xs))
    decreases |xs|
  {
    if xs != [] {
      var t := Step(s, xs[0]).next;
      CounterAdvancesPerPress(t, xs[1..]);
    }
  }

  /** The counter at the end of a run is the counter at its start plus the confirmed presses, modulo 100. */
  lemma CounterCountsPresses(s: State, xs: seq<Samples>)
    requires s.counter < Limit
    ensures Run(s, xs).counter as int == (s.counter as int + Presses(s, xs)) % 100
  {
    CounterAdvancesPerPress(s, xs);
    AdvanceAddsModulo(s.counter, Presses(s, xs));
  }

  /** Every `counter++` of a run happens on a confirmed press, and every confirmed press does one. */
  lemma {:induction false} IncrementsArePresses(s: State, xs: seq<Samples>)
    ensures Increments(s, xs) == Presses(s, xs)
    decreases |xs|
  {
    if xs != [] {
      IncrementsArePresses(Step(s, xs[0]).next, xs[1..]);
    }
  }

  /**
   * While the button is held (no second sample reads released), the button
   * stays Pressed and the counter never moves, however long the run.
   */
  lemma {:induction false} HeldButtonNeverCounts(s: State, xs: seq<Samples>)
    requires s.counter < Limit && s.button == Pressed
    requires forall i :: 0 <= i < |xs| ==> xs[i].second != ReleasedLevel
    ensures Run(s, xs).counter == s.counter
    ensures Run(s, xs).button == Pressed
    ensures Presses(s, xs) == 0
    decreases |xs|
  {
    if xs != [] {
      HeldButtonNeverCounts(Step(s, xs[0]).next, xs[1..]);
    }
  }

  /** The digit selector alternates on every pass, whatever the samples. */
  lemma {:induction false} SelectorAlternates(s: State, xs: seq<Samples>)
    ensures Run(s, xs).hex == if |xs| % 2 == 0 then s.hex else Flip(s.hex)
    decreases |xs|
  {
    if xs != [] {
      var t := Step(s, xs[0]).next;
      SelectorAlternates(t, xs[1..]);
      assert Run(s, xs) == Run(t, xs[1..]);
      assert t.hex == Flip(s.hex);
      assert |xs[1..]| % 2 != |xs| % 2;
    }
  }

  /** The heartbeat LED alternates on every pass; no other port F latch bit changes. */
  lemma {:induction false} HeartbeatAlternates(s: State, xs: seq<Samples>)
    ensures Run(s, xs).portF == if |xs| % 2 == 0 then s.portF else s.portF ^ PF2
    decreases |xs|
  {
    if xs != [] {
      var t := Step(s, xs[0]).next;
      HeartbeatAlternates(t, xs[1..]);
      assert Run(s, xs) == Run(t, xs[1..]);
      assert t.portF == HeartBeat(s.portF);
      assert |xs[1..]| % 2 != |xs| % 2;
    }
  }

  /** Each pass waits exactly once, for the settle interval. */
  lemma {:induction false} OneSettleWaitPerPass(s: State, xs: seq<Samples>)
    ensures |WaitLog(s, xs)| == |xs|
    ensures forall i :: 0 <= i < |xs| ==> WaitLog(s, xs)[i] == SysTick.SettleTicks
    decreases |xs|
  {
    if xs != [] {
      OneSettleWaitPerPass(Step(s, xs[0]).next, xs[1..]);
    }
  }

  /** From the loop's initial state the counter shows the number of confirmed presses modulo 100. */
  lemma ReachableCounter(s: State, xs: seq<Samples>)
    requires Initial(s)
    ensures Run(s, xs).counter < Limit
    ensures Run(s, xs).counter as int == Presses(s, xs) % 100
  {
    CounterCountsPresses(s, xs);
  }

  /**
   * Running the corrected pass from a state that differs at most on port B
   * ends in the as-written state except for port B; after at least one pass
   * from a counter in 0..99, the corrected port B is always a table entry.
   */
  lemma {:induction false} RunCorrectedAgrees(s: State, t: State, xs: seq<Samples>)
    requires t == s.(portB := t.portB)
    ensures RunCorrected(t, xs) == Run(s, xs).(portB := RunCorrected(t, xs).portB)
    ensures t.counter < Limit && xs != [] ==> RunCorrected(t, xs).portB.Some?
    decreases |xs|
  {
    if xs != [] {
      CorrectedAgrees(t, xs[0]);
      assert Step(t, xs[0]).next == Step(s, xs[0]).next;
      RunCorrectedAgrees(Step(s, xs[0]).next, StepCorrected(t, xs[0]).next, xs[1..]);
    }
  }

  /**
   * Two passes that leave the counter alone, starting on the ones module,
   * put the ones digit and then the tens digit of the counter on port B.
   */
  lemma ShowsOnesThenTens(s: State, x1: Samples, x2: Samples)
    requires s.counter < Limit && s.hex == Ones
    requires !Rises(s, Step(s, x1)) && !Rises(Step(s, x1).next, Step(Step(s, x1).next, x2))
    ensures Step(s, x1).next.portB == Some(Digits[s.counter as int % 10])
    ensures Step(Step(s, x1).next, x2).next.portB == Some(Digits[s.counter as int / 10])
  {
  }

  /** Counter 42 is shown as 0x5B (2) on the ones module, then 0x66 (4) on the tens module. */
  lemma FortyTwo(portF: bv8, portA: bv8, portB: Option<bv8>)
    ensures var s := State(42, Pressed, Ones, portF, portA, portB);
      var s1 := Step(s, Samples(0x00, 0x00)).next;
      s1.portB == Some(0x5B) && Step(s1, Samples(0x00, 0x00)).next.portB == Some(0x66)
  {
  }

  /** A press, a release and a press, each confirmed, add two to the counter. */
  lemma TwoPressesCountTwo(s: State)
    requires s.counter < 98 && s.button == Released
    ensures Run(s, [Samples(0x00, 0x00), Samples(0x10, 0x10), Samples(0x00, 0x00)]).counter == s.counter + 2
  {
    var xs := [Samples(0x00, 0x00), Samples(0x10, 0x10), Samples(0x00, 0x00)];
    CounterCountsPresses(s, xs);
    assert xs[1..][1..][1..] == [];
  }
}
