# Button counter with a multiplexed two-digit display — Dafny model

The program runs on a TM4C123 board. It counts presses of switch SW1 (PF4) and shows the count, 00–99, on two seven-segment modules. The modules share segment bus PB7–0. PA7 enables the ones module and PA6 the tens module. PF2 is a heartbeat LED.

After start-up the program runs one forever loop. Each pass does four things in order:

1. toggles the heartbeat;
2. runs a two-sample debounce of the button, with a settle wait of 160000 SysTick ticks between the samples;
3. drives one of the two modules, alternating every pass;
4. wraps the counter at 100.

The model turns one pass into a pure function `DigitalIO.Step(state, samples)`:

- `State` holds the `counter`, `button` and `hex` globals, the port F output latch and the last bytes written to ports A and B.
- `samples` holds the two raw port F bytes the pass reads.
- `Runs` folds `Step` over finite sample sequences and proves the loop's properties by induction.

Modules:

- `Wrappers`: `Option`.
- `Word`: the 32-bit `unsigned int`, with wrapping `++`.
- `SysTick`: the reload value `SysTick_Wait` programs, and the settle interval.
- `Display`: the `digit[]` table, an independent seven-segment glyph definition it is checked against, a decoder that inverts the table, and the multiplexer.
- `Debounce`: the press/release state machine.
- `DigitalIO`: the loop state, one pass as written, and one pass as evidently intended.
- `Runs`: finite runs and the counting, alternation and waiting properties.

Where the design intent and the code disagree, the model follows the code:

- The samples are whole bytes. A pass reads "pressed" only when the byte equals `0x00`, and "released" only when it equals `0x10`, not when PF4 alone is low or high. `DigitalIO.PressNeedsHeartbeatLow` shows one consequence: if the sample carries the PF2 heartbeat, a press can count only on passes where the heartbeat is low.
- The intent is a two-digit display that never shows 100. The code resets the counter only after the multiplexer has run, so on one pass the tens branch reads `digit[10]` (see Findings).
- The comment at the wait says 1 ms. The argument is 160000 ticks, which is 10 ms at 16 MHz.

## Model

| member | source | states |
|---|---|---|
| `Word.Inc` | Digital_IO/Digital_IO.c:88 | `counter++` always changes an `unsigned int` counter: it gives the successor, or 0 after the maximum |
| `Word.Dec` | Digital_IO/SysTick.c:38 | `delay-1` on an unsigned 32-bit value is the wrapping predecessor: incrementing it gives back `delay` |
| `SysTick.Reload` | Digital_IO/SysTick.c:37-39 | the 24-bit reload field written by `SysTick_Wait(delay)` is at most 0xFFFFFF, and it equals `delay - 1` exactly when 1 <= delay <= 2^24 |
| `SysTick.SettleDelayFits` | Digital_IO/Digital_IO.c:82-93 | the settle wait `16000*10` writes reload 159999, which fits the field, so 160000 ticks are counted |
| `Display.DigitsShowGlyphs` | Digital_IO/Digital_IO.c:48 | each of the ten table entries lights exactly the usual seven-segment glyph of its digit, with the decimal point off |
| `Display.Lookup` | Digital_IO/Digital_IO.c:48 | `digit[i]` is defined exactly when i < 10, and is then the i-th table entry |
| `Display.Decode` | Digital_IO/Digital_IO.c:48 | reading a pattern back gives the first table index holding that pattern, or proves that no entry holds it |
| `Display.DecodeLookup` | Digital_IO/Digital_IO.c:48 | the ten patterns are distinct, so decoding the pattern shown for digit d gives d back |
| `Display.Multiplex` | Digital_IO/Digital_IO.c:105-115 | the selector flips; PA7 is set iff the ones module was selected and PA6 iff the tens module was, so exactly one is set; other port A bits are kept; port B gets the table entry for `counter % 10` (ones) or `counter / 10` (tens), and the tens lookup is defined iff counter < 100 |
| `Debounce.Evaluate` | Digital_IO/Digital_IO.c:81-100 | the counter moves iff the state was Released and both samples equal 0x00; it then moves by one (wrapping) and the state becomes Pressed; Released→Pressed happens iff the counter moves; from Pressed the state returns to Released iff the second sample equals 0x10; a first sample of 0x00 followed by anything else leaves Released; every branch waits once for 160000 ticks |
| `DigitalIO.Initial` | Digital_IO/Digital_IO.c:47-51 | the zero-initialised globals (counter 0, Released, ones module) satisfy the counter invariant 0..99 |
| `DigitalIO.HeartBeat` | Digital_IO/Digital_IO.c:40 | PF2 of the port F latch flips and every other bit is kept; toggling twice restores the latch |
| `DigitalIO.Wrap` | Digital_IO/Digital_IO.c:117 | a counter of 100 becomes 0 and any other counter is kept, so a counter of at most 100 ends below 100 |
| `DigitalIO.Step` | Digital_IO/Digital_IO.c:74-118 | one pass: one wait of 160000 ticks; a counter in 0..99 stays in 0..99, advances to the next value modulo 100 exactly on a confirmed press (Released with both samples 0x00) and otherwise stays; a Pressed state is released iff the second sample is 0x10; the selector and the heartbeat flip; exactly one of PA7/PA6 is set and the rest of port A is kept |
| `DigitalIO.NextCount` | Digital_IO/Digital_IO.c:88-117 | `counter++` followed by the reset of 100 takes a counter in 0..99 to its successor modulo 100 |
| `DigitalIO.StepDisplay` | Digital_IO/Digital_IO.c:105-117 | port B gets the ones or tens digit of the counter before the wrap, i.e. one more than before on a confirmed press; the lookup falls outside `digit[]` iff the tens module is driven on the press that takes 99 to 100 |
| `DigitalIO.StepCorrected` | Digital_IO/Digital_IO.c:105-117 | with the wrap done before the display, port B is always a table entry: the entry for the new counter's ones digit or tens digit |
| `DigitalIO.TensLookupOverruns` | Digital_IO/Digital_IO.c:113-117 | counter 99, tens selected, button released, samples 0x00 and 0x00: the pass reads `digit[10]` |
| `DigitalIO.CorrectedAgrees` | Digital_IO/Digital_IO.c:105-117 | the corrected pass waits the same and ends in the same state except port B; port B agrees wherever the as-written lookup is in the table |
| `DigitalIO.PressNeedsHeartbeatLow` | Digital_IO/Digital_IO.c:76-85 | if the first sample carries the heartbeat just driven on PF2, a confirmed press happens only on a pass that leaves the heartbeat low |
| `Runs.Run` | Digital_IO/Digital_IO.c:74-118 | any finite prefix of the forever loop keeps a counter that starts in 0..99 in 0..99 |
| `Runs.Advance` | Digital_IO/Digital_IO.c:88-117 | n confirmed presses from a counter in 0..99 leave it in 0..99 |
| `Runs.AdvanceAddsModulo` | Digital_IO/Digital_IO.c:88-117 | n confirmed presses add n to the counter modulo 100 |
| `Runs.CounterAdvancesPerPress` | Digital_IO/Digital_IO.c:81-117 | over any finite run the counter advances once per confirmed press and at no other pass |
| `Runs.CounterCountsPresses` | Digital_IO/Digital_IO.c:81-117 | the counter after a run is the starting counter plus the number of confirmed presses, modulo 100 |
| `Runs.IncrementsArePresses` | Digital_IO/Digital_IO.c:81-100 | over any finite run, the passes that execute `counter++` are exactly the passes where `button` goes 0→1 |
| `Runs.HeldButtonNeverCounts` | Digital_IO/Digital_IO.c:81-100 | while the button is held (no second sample equals 0x10), the state stays Pressed, no press is confirmed and the counter never changes, however long the run |
| `Runs.SelectorAlternates` | Digital_IO/Digital_IO.c:105-115 | after n passes the selector equals its start value iff n is even, whatever the samples |
| `Runs.HeartbeatAlternates` | Digital_IO/Digital_IO.c:76 | after n passes the port F latch is unchanged if n is even and differs only in PF2 if n is odd |
| `Runs.OneSettleWaitPerPass` | Digital_IO/Digital_IO.c:81-100 | a run of n passes performs exactly n waits, each of 160000 ticks |
| `Runs.ReachableCounter` | Digital_IO/Digital_IO.c:47-118 | from the zero-initialised globals, the counter after any run is in 0..99 and equals the number of confirmed presses modulo 100 |
| `Runs.RunCorrectedAgrees` | Digital_IO/Digital_IO.c:105-117 | the corrected loop ends every run in the same state as the as-written loop except port B, which is always a table entry after a pass |
| `Runs.ShowsOnesThenTens` | Digital_IO/Digital_IO.c:105-115 | two passes that confirm no press, starting on the ones module, show `digit[counter % 10]` and then `digit[counter / 10]` |
| `Runs.FortyTwo` | Digital_IO/Digital_IO.c:105-115 | counter 42 is shown as 0x5B on the ones module, then as 0x66 on the tens module |
| `Runs.TwoPressesCountTwo` | Digital_IO/Digital_IO.c:81-100 | a confirmed press, then a confirmed release, then a confirmed press add exactly two to the counter |

## Findings

| source | as written | input that shows it | evidently intended | confidence | as-written member | corrected member |
|---|---|---|---|---|---|---|
| Digital_IO/Digital_IO.c:113 | The tens branch indexes `digit[counter/10]` before line 117 resets 100 to 0. On the pass that takes the counter to 100, it reads `digit[10]`, one past the ten-entry table. | `counter` = 99, `hex` = 1, `button` = 0, both port F samples 0x00 | Reset before the display, so the tens module shows 0 and 100 is never displayed. | not executed; the out-of-bounds index follows directly from the statement order | `DigitalIO.TensLookupOverruns` (on `DigitalIO.Step`) | `DigitalIO.StepCorrected` |

`DigitalIO.CorrectedAgrees` and `Runs.RunCorrectedAgrees` show that the two loops differ only in what reaches port B. So every property proved in `Runs` holds for the corrected loop as well.

## Left out

- `PortA_Init`, `PortB_Init`, `PortF_Init` and the clock enable at line 56 are left out. They are fixed register writes with no decisions in them.
- `SysTick_Init` is left out. It is fixed register setup.
- The busy-poll of the COUNT flag in `SysTick_Wait` is left out. A wait appears only as the tick count it asks for and the reload value it writes.
- `SysTick_Wait10ms` is left out. The loop does not call it.
- Real time, clock accuracy and oscillator tolerance are left out. They are physical, not logical.
- The meaning of a port F read is not modelled: each sample is an arbitrary byte. Only `DigitalIO.PressNeedsHeartbeatLow` assumes a link between a sample and the PF2 latch, and it states that link as its precondition.
- The byte a read past `digit[]` returns is not modelled. It depends on the memory layout, so port B is `None` after such a read.
- The loop never terminates, and that is left out. The model covers one pass and finite sequences of passes.
- The GPIO data registers are modelled as 8-bit values. Only their eight data bits are read or written here.
- `button` and `hex` are enumerations. The program only ever stores 0 or 1 in them, and tests them only against 0.
- DigitalIO.Step: its counter clauses cover only counters in 0..99. `Runs.ReachableCounter` shows those are the only reachable values. Above 99 the model still computes what the code does, but no contract describes it.
- Runs.HeldButtonNeverCounts: it assumes a counter in 0..99. A held button with a counter of exactly 100 would still see the reset at line 117.
- The `SW1` global is not kept in `State`. Line 77 and the re-reads at lines 83 and 94 overwrite it before every comparison, so no pass depends on its value from an earlier pass.
