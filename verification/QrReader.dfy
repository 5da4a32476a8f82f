/** A reader of version 1 symbols as ISO/IEC 18004:2015 describes one: it learns the error level and
  * the mask from the format information (section 7.9), reads the modules outside the patterns in
  * the order of section 7.7.3, takes the mask off (section 7.8.2), and decodes numeric mode
  * (section 7.4.3). It shares no layout, mask or format with the encoder.
  */
module QrReader {
  import opened BitStream
  import opened Words

  type Grid = m: seq<u8> | |m| == 441 witness seq(441, _ => 0)

  predicate Dark(m: Grid, x: int, y: int)
    requires 0 <= x < 21 && 0 <= y < 21
  {
    m[21 * y + x] == 1
  }

  // ── Format information ────────────────────────────────────────────────────

  /** The two copies, bit 0 first. */
  const COPY_A: seq<(int, int)> :=
    [(8, 0), (8, 1), (8, 2), (8, 3), (8, 4), (8, 5), (8, 7), (8, 8)] +
    [(7, 8), (5, 8), (4, 8), (3, 8), (2, 8), (1, 8), (0, 8)]
  const COPY_B: seq<(int, int)> :=
    [(20, 8), (19, 8), (18, 8), (17, 8), (16, 8), (15, 8), (14, 8), (13, 8)] +
    [(8, 14), (8, 15), (8, 16), (8, 17), (8, 18), (8, 19), (8, 20)]

  predicate IsCopy(places: seq<(int, int)>) {
    |places| == 15 && forall i :: 0 <= i < 15 ==> 0 <= places[i].0 < 21 && 0 <= places[i].1 < 21
  }

  function FormatBits(m: Grid, places: seq<(int, int)>): (s: seq<bool>)
    requires IsCopy(places)
    ensures |s| == 15
  {
    seq(15, i requires 0 <= i < 15 => Dark(m, places[i].0, places[i].1))
  }

  /** The fifteen bits without their mask 101010000010010. */
  function FormatOf(m: Grid, places: seq<(int, int)>): u32
    requires IsCopy(places)
  {
    ToFromBits(FormatBits(m, places));
    assert Pow2(15) == 0x8000 by { Pow2Values(); }
    BitXor(FromBits(FormatBits(m, places)), 0x5412)
  }

  /** Bits 14 and 13: 01 is level L. */
  function LevelOf(format: u32): nat {
    format / 0x2000
  }

  /** Bits 12 to 10. */
  function MaskOf(format: u32): nat {
    format / 0x400 % 8
  }

  /** Table 10: where mask k inverts, in column x of row y. */
  predicate Inverts(k: nat, x: nat, y: nat) {
    match k
    case 0 => (y + x) % 2 == 0
    case 1 => y % 2 == 0
    case 2 => x % 3 == 0
    case 3 => (y + x) % 3 == 0
    case 4 => (y / 2 + x / 3) % 2 == 0
    case 5 => (y * x) % 2 + (y * x) % 3 == 0
    case 6 => ((y * x) % 2 + (y * x) % 3) % 2 == 0
    case _ => ((y + x) % 2 + (y * x) % 3) % 2 == 0
  }

  // ── Data modules ──────────────────────────────────────────────────────────

  /** Finders with separators, timing, and format information with the dark module. */
  predicate Reserved(x: nat, y: nat) {
    || (x < 8 && y < 8) || (x > 12 && y < 8) || (x < 8 && y > 12)
    || x == 6 || y == 6
    || (x == 8 && (y < 9 || y > 12)) || (y == 8 && (x < 9 || x > 12))
  }

  /** The position detection pattern (section 6.3.3). */
  const FINDER: seq<string> :=
    ["#######",
     "#.....#",
     "#.###.#",
     "#.###.#",
     "#.###.#",
     "#.....#",
     "#######"]

  /** Is the module as the standard's pictures have it, where they say: finders in three corners,
    * light separators round them, alternating timing between them, and the one dark module? */
  predicate AsPictured(m: Grid, x: nat, y: nat)
    requires x < 21 && y < 21
  {
    && (x < 7 && y < 7 ==> (Dark(m, x, y) <==> FINDER[y][x] == '#'))
    && (x >= 14 && y < 7 ==> (Dark(m, x, y) <==> FINDER[y][x - 14] == '#'))
    && (x < 7 && y >= 14 ==> (Dark(m, x, y) <==> FINDER[y - 14][x] == '#'))
    && ((x == 7 && (y < 8 || y > 12)) || (x == 13 && y < 8) ==> !Dark(m, x, y))
    && ((y == 7 && (x < 8 || x > 12)) || (y == 13 && x < 8) ==> !Dark(m, x, y))
    && (y == 6 && 8 <= x <= 12 ==> (Dark(m, x, y) <==> x % 2 == 0))
    && (x == 6 && 8 <= y <= 12 ==> (Dark(m, x, y) <==> y % 2 == 0))
    && (x == 8 && y == 13 ==> Dark(m, x, y))
  }

  /** Right columns of the ten two-column strips, from the right edge; column 6 is left out. */
  const STRIPS: seq<nat> := [20, 18, 16, 14, 12, 10, 8, 5, 3, 1]

  /** Step n: strips upwards and downwards in turn, right module before left. */
  function PlaceX(n: nat): nat
    requires n < 420
  {
    STRIPS[n / 42] - n % 2
  }

  function PlaceY(n: nat): nat
    requires n < 420
  {
    var row := n % 42 / 2;
    if n / 42 % 2 == 0 then 20 - row else row
  }

  /** The data bits met in the first n steps, with mask k taken off. */
  function DataBits(m: Grid, k: nat, n: nat): seq<bool>
    requires n <= 420
  {
    if n == 0 then []
    else
      var x, y := PlaceX(n - 1), PlaceY(n - 1);
      DataBits(m, k, n - 1) + (if Reserved(x, y) then [] else [Dark(m, x, y) != Inverts(k, x, y)])
  }

  // ── Numeric mode ──────────────────────────────────────────────────────────

  function Number(bits: seq<bool>, from: nat, n: nat): nat
    requires from + n <= |bits|
  {
    if n == 0 then 0 else 2 * Number(bits, from, n - 1) + (if bits[from + n - 1] then 1 else 0)
  }

  /** Groups of three digits in ten bits, then two in seven or one in four. */
  function Decimals(bits: seq<bool>, from: nat, count: nat): Option<seq<u8>>
    decreases count
  {
    if count == 0 then Some([])
    else
      var size := if count >= 3 then 10 else if count == 2 then 7 else 4;
      if from + size > |bits| then None
      else
        var g := Number(bits, from, size);
        if count == 1 then (if g < 10 then Some([48 + g]) else None)
        else if count == 2 then (if g < 100 then Some([48 + g / 10, 48 + g % 10]) else None)
        else if g >= 1000 then None
        else
          match Decimals(bits, from + 10, count - 3)
          case None => None
          case Some(rest) => Some([48 + g / 100, 48 + g / 10 % 10, 48 + g % 10] + rest)
  }

  /** What the symbol says, going by one copy of its format information; numeric mode at level L. */
  function Scan(m: Grid, copy: seq<(int, int)>): Option<seq<u8>>
    requires IsCopy(copy)
  {
    var format := FormatOf(m, copy);
    var bits := DataBits(m, MaskOf(format), 420);
    if LevelOf(format) != 1 || |bits| < 14 || Number(bits, 0, 4) != 1 then None
    else Decimals(bits, 14, Number(bits, 4, 10))
  }

  /** Does a reader going by this copy of the format information get these digits? */
  predicate Gets(m: seq<u8>, copy: seq<(int, int)>, digits: seq<u8>) {
    |m| == 441 && IsCopy(copy) && Scan(m, copy) == Some(digits)
  }
}
