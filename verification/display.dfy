/**
 * The digit-to-segment table and the display multiplexer: once per pass the
 * loop lights one of the two seven-segment modules (PA7 ones, PA6 tens) and
 * puts that digit's pattern on port B.
 */
module Display {
  import opened Wrappers
  import opened Word

  /** Which module the next pass drives (the `hex` global: 0 = PA7/ones, 1 = PA6/tens). */
  datatype Hex = Ones | Tens

  function Flip(h: Hex): (r: Hex)
    ensures r != h
  {
    if h == Ones then Tens else Ones
  }

  /** Port A enable lines of the two modules. */
  const PA7: bv8 := 0x80
  const PA6: bv8 := 0x40

  /** The `digit[]` table: segment pattern of each decimal digit, index = digit. */
  const Digits: seq<bv8> := [0x3F, 0x06, 0x5B, 0x4F, 0x66, 0x6D, 0x7D, 0x07, 0x7F, 0x6F]

  /** The segments of a module; segment a is bit 0 of the pattern, g is bit 6, bit 7 is the decimal point. */
  datatype Segment = A | B | C | D | E | F | G

  function Bit(s: Segment): bv8 {
    match s
    case A => 0x01
    case B => 0x02
    case C => 0x04
    case D => 0x08
    case E => 0x10
    case F => 0x20
    case G => 0x40
  }

  /** The usual glyph of each decimal digit: the segments that are lit. */
  function Glyph(d: nat): set<Segment>
    requires d < 10
  {
    if d == 0 then {A, B, C, D, E, F}
    else if d == 1 then {B, C}
    else if d == 2 then {A, B, D, E, G}
    else if d == 3 then {A, B, C, D, G}
    else if d == 4 then {B, C, F, G}
    else if d == 5 then {A, C, D, F, G}
    else if d == 6 then {A, C, D, E, F, G}
    else if d == 7 then {A, B, C}
    else if d == 8 then {A, B, C, D, E, F, G}
    else {A, B, C, D, F, G}
  }

  /** The pattern that lights exactly the segments of `lit` and not the decimal point. */
  function Encode(lit: set<Segment>): (p: bv8)
    ensures p & 0x80 == 0
    ensures forall s: Segment :: (p & Bit(s) != 0) <==> s in lit
  {
    (if A in lit then 0x01 else 0) | (if B in lit then 0x02 else 0) |
    (if C in lit then 0x04 else 0) | (if D in lit then 0x08 else 0) |
    (if E in lit then 0x10 else 0) | (if F in lit then 0x20 else 0) |
    (if G in lit then 0x40 else 0)
  }

  /** Every table entry lights the glyph of its digit, and never the decimal point. */
  lemma DigitsShowGlyphs(d: nat)
    requires d < 10
    ensures Digits[d] == Encode(Glyph(d))
    ensures Digits[d] & 0x80 == 0
  {
  }

  /** `digit[i]`: the entry, or `None` when `i` is past the ten-entry table. */
  function Lookup(i: nat): (r: Option<bv8>)
    ensures r.Some? <==> i < 10
    ensures r.Some? ==> r.value == Digits[i]
  {
    if i < |Digits| then Some(Digits[i]) else None
  }

  /** The digit shown by a pattern: the index of its first occurrence in the table at or after `from`. */
  function Decode(p: bv8, from: nat := 0): (r: Option<nat>)
    requires from <= |Digits|
    ensures r.Some? ==> from <= r.value < |Digits| && Digits[r.value] == p
    ensures r.Some? ==> forall i :: from <= i < r.value ==> Digits[i] != p
    ensures r.None? ==> forall i :: from <= i < |Digits| ==> Digits[i] != p
    decreases |Digits| - from
  {
    if from == |Digits| then None
    else if Digits[from] == p then Some(from)
    else Decode(p, from + 1)
  }

  /** No two digits share a pattern, so the display can be read back: decoding inverts the table. */
  lemma DecodeLookup(d: nat)
    requires d < 10
    ensures Lookup(d).Some? && Decode(Lookup(d).value) == Some(d)
  {
  }

  /** What one multiplexer pass writes: port A, port B (`None` for a read past the table), and the next selector. */
  datatype Frame = Frame(portA: bv8, portB: Option<bv8>, hex: Hex)

  /**
   * One multiplexer pass with counter value `counter`: when `hex` is Ones it
   * clears PA6, sets PA7 and shows the ones digit; otherwise it clears PA7,
   * sets PA6 and shows the tens digit, which is only in the table while
   * `counter < 100`.
   */
  function Multiplex(hex: Hex, portA: bv8, counter: uint32): (f: Frame)
    ensures f.hex == Flip(hex)
    ensures (f.portA & PA7 != 0) <==> hex == Ones
    ensures (f.portA & PA6 != 0) <==> hex == Tens
    ensures f.portA & !(PA7 | PA6) == portA & !(PA7 | PA6)
    ensures hex == Ones ==> f.portB == Some(Digits[counter as int % 10])
    ensures hex == Tens ==> (f.portB.Some? <==> counter < 100)
    ensures hex == Tens && counter < 100 ==> f.portB == Some(Digits[counter as int / 10])
  {
    if hex == Ones then
      Frame((portA & !PA6) | PA7, Lookup(counter as int % 10), Tens)
    else
      Frame((portA & !PA7) | PA6, Lookup(counter as int / 10), Ones)
  }
}
