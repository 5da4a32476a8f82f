/** Where codeword bits go in a version 1 symbol (ISO/IEC 18004:2015, section 7.7.3):
  * the boustrophedon of two-column strips from the lower right, skipping function
  * modules and the vertical timing column.
  */
module QrPlacement {

  const SIZE := 21
  const MODULES := 441
  const TOTAL_BITS := 208

  predicate InGrid(x: int, y: int) {
    0 <= x < SIZE && 0 <= y < SIZE
  }

  /** Row-major position of a module. */
  function Cell(x: int, y: int): (c: nat)
    requires InGrid(x, y)
    ensures c < MODULES
  {
    y * SIZE + x
  }

  lemma CellInjective()
    ensures forall x, y, a, b :: InGrid(x, y) && InGrid(a, b) && Cell(x, y) == Cell(a, b) ==> x == a && y == b
  {
  }

  /** Finder blocks with their format strips, and the two timing lines. */
  predicate IsFunction(x: int, y: int) {
    x == 6 || y == 6 || (x <= 8 && y <= 8) || (x >= 13 && y <= 8) || (x <= 8 && y >= 13)
  }

  predicate IsData(x: int, y: int) {
    InGrid(x, y) && !IsFunction(x, y)
  }

  // ── The walk: strip c, step v along it, side j ────────────────────────────

  /** Right column of strip c, as the loop computes it from 20, 18, .. 2. */
  function RightColumn(c: nat): int {
    if SIZE - 1 - 2 * c <= 6 then SIZE - 2 - 2 * c else SIZE - 1 - 2 * c
  }

  /** ((r + 1) & 2) == 0. */
  predicate Upward(r: int) {
    (r + 1) / 2 % 2 == 0
  }

  function WalkX(c: nat, j: nat): int {
    RightColumn(c) - j
  }

  function WalkY(c: nat, v: nat): int {
    if Upward(RightColumn(c)) then SIZE - 1 - v else v
  }

  /** Bits placed before strip c. */
  function StripStart(c: nat): nat {
    if c <= 4 then 24 * c
    else if c <= 6 then 96 + 40 * (c - 4)
    else 176 + 8 * (c - 6)
  }

  /** Data rows of strip c met before step v. */
  function RowsBefore(c: nat, v: nat): nat {
    if c <= 3 then
      if Upward(RightColumn(c)) then (if v <= 12 then v else 12) else (if v <= 9 then 0 else v - 9)
    else if c <= 5 then
      var skipped := if Upward(RightColumn(c)) then 14 else 6;
      if v <= skipped then v else v - 1
    else
      var first := if Upward(RightColumn(c)) then 8 else 9;
      if v <= first then 0 else if v <= first + 4 then v - first else 4
  }

  /** Bits placed before the walk reaches (c, v, j). */
  function BitsBefore(c: nat, v: nat, j: nat): nat {
    StripStart(c) + 2 * RowsBefore(c, v) + (if RowsBefore(c, v + 1) > RowsBefore(c, v) then j else 0)
  }

  /** The walk meets data modules exactly when the count grows, by one each. */
  lemma WalkCounts(c: nat, v: nat, j: nat)
    requires c < 10 && v < SIZE && j < 2
    ensures InGrid(WalkX(c, j), WalkY(c, v))
    ensures BitsBefore(c, v, j + 1) == BitsBefore(c, v, j) + (if IsFunction(WalkX(c, j), WalkY(c, v)) then 0 else 1)
    ensures BitsBefore(c, v + 1, 0) == BitsBefore(c, v, 2)
    ensures BitsBefore(c, v, j) <= TOTAL_BITS
    ensures !IsFunction(WalkX(c, j), WalkY(c, v)) ==> BitsBefore(c, v, j) < TOTAL_BITS
  {
  }

  lemma StripsMeet(c: nat)
    requires c < 10
    ensures BitsBefore(c, 0, 0) == StripStart(c)
    ensures BitsBefore(c, SIZE, 0) == StripStart(c + 1)
    ensures BitsBefore(10, 0, 0) == TOTAL_BITS
  {
  }

  // ── The placement as a bijection ──────────────────────────────────────────

  function StripOf(x: int): nat
    requires 0 <= x < SIZE && x != 6
  {
    if x > 6 then (SIZE - 1 - x) / 2 else (SIZE - 2 - x) / 2
  }

  /** The bit that belongs on a data module. */
  function BitIndex(x: int, y: int): nat
    requires IsData(x, y)
  {
    var c := StripOf(x);
    var v := if Upward(RightColumn(c)) then SIZE - 1 - y else y;
    var j := RightColumn(c) - x;
    if 0 <= j then BitsBefore(c, v, j) else 0
  }

  /** Strip, step and side at which the walk places bit k. */
  function BitStrip(k: nat): nat {
    if k < 96 then k / 24 else if k < 176 then 4 + (k - 96) / 40 else 6 + (k - 176) / 8
  }

  function BitStep(k: nat): nat
    requires k < TOTAL_BITS
  {
    var c := BitStrip(k);
    var up := Upward(RightColumn(c));
    var row := (k - StripStart(c)) / 2;
    if c <= 3 then (if up then row else row + 9)
    else if c <= 5 then (if row >= (if up then 14 else 6) then row + 1 else row)
    else (if up then row + 8 else row + 9)
  }

  /** The data module that carries bit k. */
  function ModuleX(k: nat): int
    requires k < TOTAL_BITS
  {
    WalkX(BitStrip(k), k % 2)
  }

  function ModuleY(k: nat): int
    requires k < TOTAL_BITS
  {
    WalkY(BitStrip(k), BitStep(k))
  }

  lemma WalkMeetsBit(c: nat, v: nat, j: nat)
    requires c < 10 && v < SIZE && j < 2
    requires !IsFunction(WalkX(c, j), WalkY(c, v))
    ensures IsData(WalkX(c, j), WalkY(c, v))
    ensures BitIndex(WalkX(c, j), WalkY(c, v)) == BitsBefore(c, v, j)
  {
    hide BitsBefore;
  }

  /** Strips alternate direction; the last three lie left of the timing column. */
  lemma StripShape(c: nat)
    requires c < 10
    ensures Upward(RightColumn(c)) == (c % 2 == 0)
    ensures RightColumn(c) == if c <= 6 then 20 - 2 * c else 19 - 2 * c
  {
  }

  predicate StepCarries(c: nat, v: nat, j: nat, k: nat) {
    c < 10 && v < SIZE && j < 2 && k < TOTAL_BITS
    && !IsFunction(WalkX(c, j), WalkY(c, v))
    && BitsBefore(c, v, j) == k
  }

  lemma StepOfBit(k: nat)
    requires k < TOTAL_BITS
    ensures StepCarries(BitStrip(k), BitStep(k), k % 2, k)
  {
    hide Upward, RightColumn;
    StripShape(BitStrip(k));
    if k < 96 {
      StepOfWideBit(k);
    } else if k < 176 {
      StepOfTallBit(k);
    } else {
      StepOfNarrowBit(k);
    }
  }

  lemma StepOfWideBit(k: nat)
    requires k < 96
    ensures StepCarries(BitStrip(k), BitStep(k), k % 2, k)
  {
    hide Upward, RightColumn;
    StripShape(BitStrip(k));
  }

  lemma StepOfTallBit(k: nat)
    requires 96 <= k < 176
    ensures StepCarries(BitStrip(k), BitStep(k), k % 2, k)
  {
    hide Upward, RightColumn;
    StripShape(BitStrip(k));
  }

  lemma StepOfNarrowBit(k: nat)
    requires 176 <= k < TOTAL_BITS
    ensures StepCarries(BitStrip(k), BitStep(k), k % 2, k)
  {
    hide Upward, RightColumn;
    StripShape(BitStrip(k));
  }

  lemma BitOfStep(c: nat, v: nat, j: nat)
    requires c < 10 && v < SIZE && j < 2
    requires !IsFunction(WalkX(c, j), WalkY(c, v))
    ensures BitsBefore(c, v, j) < TOTAL_BITS
    ensures BitStrip(BitsBefore(c, v, j)) == c
    ensures BitStep(BitsBefore(c, v, j)) == v
    ensures BitsBefore(c, v, j) % 2 == j
  {
    hide Upward, RightColumn;
    StripShape(c);
    if c <= 3 {
      BitOfWideStep(c, v, j);
    } else if c <= 5 {
      BitOfTallStep(c, v, j);
    } else {
      BitOfNarrowStep(c, v, j);
    }
  }

  lemma BitOfWideStep(c: nat, v: nat, j: nat)
    requires c <= 3 && v < SIZE && j < 2
    requires !IsFunction(WalkX(c, j), WalkY(c, v))
    ensures BitsBefore(c, v, j) < 96
    ensures BitStrip(BitsBefore(c, v, j)) == c
    ensures BitStep(BitsBefore(c, v, j)) == v
    ensures BitsBefore(c, v, j) % 2 == j
  {
    hide Upward, RightColumn;
    StripShape(c);
  }

  lemma BitOfTallStep(c: nat, v: nat, j: nat)
    requires 4 <= c <= 5 && v < SIZE && j < 2
    requires !IsFunction(WalkX(c, j), WalkY(c, v))
    ensures 96 <= BitsBefore(c, v, j) < 176
    ensures BitStrip(BitsBefore(c, v, j)) == c
    ensures BitStep(BitsBefore(c, v, j)) == v
    ensures BitsBefore(c, v, j) % 2 == j
  {
    hide Upward, RightColumn;
    StripShape(c);
  }

  lemma BitOfNarrowStep(c: nat, v: nat, j: nat)
    requires 6 <= c < 10 && v < SIZE && j < 2
    requires !IsFunction(WalkX(c, j), WalkY(c, v))
    ensures 176 <= BitsBefore(c, v, j) < TOTAL_BITS
    ensures BitStrip(BitsBefore(c, v, j)) == c
    ensures BitStep(BitsBefore(c, v, j)) == v
    ensures BitsBefore(c, v, j) % 2 == j
  {
    hide Upward, RightColumn;
    StripShape(c);
  }

  lemma PlaceOfBit(k: nat)
    requires k < TOTAL_BITS
    ensures IsData(ModuleX(k), ModuleY(k))
    ensures BitIndex(ModuleX(k), ModuleY(k)) == k
  {
    StepOfBit(k);
    hide IsFunction, BitsBefore, BitStrip, BitStep, BitIndex, WalkX, WalkY;
    WalkMeetsBit(BitStrip(k), BitStep(k), k % 2);
  }

  lemma BitOfPlace(x: int, y: int)
    requires IsData(x, y)
    ensures BitIndex(x, y) < TOTAL_BITS
    ensures ModuleX(BitIndex(x, y)) == x && ModuleY(BitIndex(x, y)) == y
  {
    var c := StripOf(x);
    var v := if Upward(RightColumn(c)) then SIZE - 1 - y else y;
    var j := RightColumn(c) - x;
    assert c < 10 && 0 <= j < 2 && WalkX(c, j) == x && WalkY(c, v) == y;
    hide IsFunction, BitsBefore, BitStrip, BitStep, BitIndex, WalkX, WalkY;
    WalkMeetsBit(c, v, j);
    BitOfStep(c, v, j);
  }
}
