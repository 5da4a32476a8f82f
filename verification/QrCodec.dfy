/** The whole encoder: six ASCII digits to the 21x21 symbol, and what a reader gets back.
  *
  * The methods draw timing, finders and format information, place the codewords and apply the
  * mask, in place on one grid and in the firmware's order; QrReader knows nothing of it.
  */
module QrCodec {
  import opened BitStream
  import opened Words
  import opened ReedSolomon
  import opened QrPlacement
  import QrPayload
  import CodeDistance
  import R = QrReader

  const EC_CODEWORDS := 7

  // ── Function patterns ─────────────────────────────────────────────────────

  /** Format information for level L, mask 0, after the 0x5412 mask. */
  const FORMAT_BITS: u16 := 0x77C4

  function Max(a: nat, b: nat): nat {
    if a < b then b else a
  }

  function Abs(a: int): nat {
    if a < 0 then -a else a
  }

  /** Centre of finder k. */
  function FinderX(k: nat): int {
    if k == 1 then SIZE - 4 else 3
  }

  function FinderY(k: nat): int {
    if k == 2 then SIZE - 4 else 3
  }

  predicate InFinder(k: nat, x: int, y: int) {
    Abs(x - FinderX(k)) <= 4 && Abs(y - FinderY(k)) <= 4
  }

  predicate RingDark(k: nat, x: int, y: int) {
    var dist := Max(Abs(x - FinderX(k)), Abs(y - FinderY(k)));
    dist != 2 && dist != 4
  }

  /** Order in which the 31 format modules are drawn; -1 elsewhere. */
  function FormatRank(x: int, y: int): int {
    if x == 8 && 0 <= y <= 5 then y
    else if x == 8 && y == 7 then 6
    else if x == 8 && y == 8 then 7
    else if x == 7 && y == 8 then 8
    else if y == 8 && 0 <= x <= 5 then 14 - x
    else if y == 8 && 13 <= x < SIZE then 35 - x
    else if x == 8 && 14 <= y < SIZE then y + 9
    else if x == 8 && y == 13 then 30
    else -1
  }

  predicate FormatDark(rank: nat) {
    if rank == 30 then true
    else if rank < 15 then Digit(FORMAT_BITS, rank)
    else Digit(FORMAT_BITS, rank - 15)
  }

  /** How far the drawing has come. */
  datatype Stage = Timing(n: int) | Finders(k: nat, row: int, col: int) | Format(n: int)

  predicate TimingDrawn(n: int, x: int, y: int) {
    (y == 6 && x < n) || (x == 6 && y < n)
  }

  /** The part of finder i already drawn. */
  predicate FinderDrawn(s: Stage, i: nat, x: int, y: int)
    requires s.Finders?
  {
    InFinder(i, x, y)
    && (i < s.k || (i == s.k && (y - FinderY(i) < s.row || (y - FinderY(i) == s.row && x - FinderX(i) < s.col))))
  }

  predicate Drawn(s: Stage, x: int, y: int) {
    match s
    case Timing(n) => TimingDrawn(n, x, y)
    case Finders(_, _, _) =>
      TimingDrawn(SIZE, x, y) || FinderDrawn(s, 0, x, y) || FinderDrawn(s, 1, x, y) || FinderDrawn(s, 2, x, y)
    case Format(n) =>
      TimingDrawn(SIZE, x, y) || InFinder(0, x, y) || InFinder(1, x, y) || InFinder(2, x, y)
      || 0 <= FormatRank(x, y) < n
  }

  predicate TimingDark(x: int, y: int) {
    if y == 6 then x % 2 == 0 else y % 2 == 0
  }

  predicate Dark(s: Stage, x: int, y: int) {
    match s
    case Timing(_) => TimingDark(x, y)
    case Finders(_, _, _) =>
      if FinderDrawn(s, 0, x, y) then RingDark(0, x, y)
      else if FinderDrawn(s, 1, x, y) then RingDark(1, x, y)
      else if FinderDrawn(s, 2, x, y) then RingDark(2, x, y)
      else TimingDark(x, y)
    case Format(_) =>
      if InFinder(0, x, y) then RingDark(0, x, y)
      else if InFinder(1, x, y) then RingDark(1, x, y)
      else if InFinder(2, x, y) then RingDark(2, x, y)
      else if FormatRank(x, y) >= 0 then FormatDark(FormatRank(x, y))
      else TimingDark(x, y)
  }

  ghost predicate Painted(m: seq<u8>, f: seq<bool>, s: Stage) {
    |m| == |f| == MODULES
    && forall x, y :: InGrid(x, y) ==>
         f[Cell(x, y)] == Drawn(s, x, y)
         && m[Cell(x, y)] == if Drawn(s, x, y) && Dark(s, x, y) then 1 else 0
  }

  lemma PaintStep(m: seq<u8>, f: seq<bool>, s: Stage, t: Stage, x: int, y: int)
    requires Painted(m, f, s) && InGrid(x, y)
    requires Drawn(t, x, y)
    requires forall a, b :: InGrid(a, b) && (a != x || b != y) ==>
               Drawn(t, a, b) == Drawn(s, a, b) && (Drawn(s, a, b) ==> Dark(t, a, b) == Dark(s, a, b))
    ensures Painted(m[Cell(x, y) := if Dark(t, x, y) then 1 else 0], f[Cell(x, y) := true], t)
  {
    CellInjective();
    hide Cell, Drawn, Dark;
  }

  method SetModule(modules: array<u8>, isFunc: array<bool>, x: int, y: int, dark: bool, ghost s: Stage, ghost t: Stage)
    requires modules.Length == isFunc.Length == MODULES
    requires Painted(modules[..], isFunc[..], s) && InGrid(x, y)
    requires Drawn(t, x, y) && dark == Dark(t, x, y)
    requires forall a, b :: InGrid(a, b) && (a != x || b != y) ==>
               Drawn(t, a, b) == Drawn(s, a, b) && (Drawn(s, a, b) ==> Dark(t, a, b) == Dark(s, a, b))
    modifies modules, isFunc
    ensures Painted(modules[..], isFunc[..], t)
  {
    PaintStep(modules[..], isFunc[..], s, t, x, y);
    hide Drawn, Dark, Painted;
    modules[y * SIZE + x] := if dark then 1 else 0;
    isFunc[y * SIZE + x] := true;
    assert modules[..] == old(modules[..])[Cell(x, y) := if Dark(t, x, y) then 1 else 0];
    assert isFunc[..] == old(isFunc[..])[Cell(x, y) := true];
  }

  method DrawTiming(modules: array<u8>, isFunc: array<bool>)
    requires modules.Length == isFunc.Length == MODULES
    modifies modules, isFunc
    ensures Painted(modules[..], isFunc[..], Timing(SIZE))
  {
    for i := 0 to MODULES
      invariant forall k :: 0 <= k < i ==> modules[k] == 0 && !isFunc[k]
    {
      modules[i] := 0;
      isFunc[i] := false;
    }
    for i := 0 to SIZE
      invariant Painted(modules[..], isFunc[..], Timing(i))
    {
      DrawTimingPair(modules, isFunc, i);
    }
  }

  /** Both timing modules of one iteration; they coincide at (6, 6). */
  method DrawTimingPair(modules: array<u8>, isFunc: array<bool>, i: int)
    requires modules.Length == isFunc.Length == MODULES && 0 <= i < SIZE
    requires Painted(modules[..], isFunc[..], Timing(i))
    modifies modules, isFunc
    ensures Painted(modules[..], isFunc[..], Timing(i + 1))
  {
    modules[6 * SIZE + i] := if i % 2 == 0 then 1 else 0;
    isFunc[6 * SIZE + i] := true;
    modules[i * SIZE + 6] := if i % 2 == 0 then 1 else 0;
    isFunc[i * SIZE + 6] := true;
    CellInjective();
    assert 6 * SIZE + i == Cell(i, 6) && i * SIZE + 6 == Cell(6, i);
  }

  method DrawFinder(modules: array<u8>, isFunc: array<bool>, k: nat)
    requires modules.Length == isFunc.Length == MODULES && k < 3
    requires Painted(modules[..], isFunc[..], Finders(k, -4, -4))
    modifies modules, isFunc
    ensures Painted(modules[..], isFunc[..], Finders(k, 5, -4))
  {
    var cx, cy := FinderX(k), FinderY(k);
    for dy := -4 to 5
      invariant Painted(modules[..], isFunc[..], Finders(k, dy, -4))
    {
      for dx := -4 to 5
        invariant Painted(modules[..], isFunc[..], Finders(k, dy, dx))
      {
        DrawFinderModule(modules, isFunc, k, dy, dx);
      }
      NextFinderRow(modules[..], isFunc[..], k, dy);
    }
  }

  lemma NextFinderRow(m: seq<u8>, f: seq<bool>, k: nat, dy: int)
    requires Painted(m, f, Finders(k, dy, 5))
    ensures Painted(m, f, Finders(k, dy + 1, -4))
  {
    var s, t := Finders(k, dy, 5), Finders(k, dy + 1, -4);
    forall x, y
      ensures Drawn(s, x, y) == Drawn(t, x, y) && Dark(s, x, y) == Dark(t, x, y)
    {
      assert forall i: nat :: FinderDrawn(s, i, x, y) == FinderDrawn(t, i, x, y);
    }
    hide Drawn, Dark;
  }

  lemma FinderDiffers(k: nat, dy: int, dx: int, a: int, b: int)
    requires k < 3 && -4 <= dy <= 4 && -4 <= dx <= 4 && InGrid(a, b)
    requires a != FinderX(k) + dx || b != FinderY(k) + dy
    ensures Drawn(Finders(k, dy, dx), a, b) == Drawn(Finders(k, dy, dx + 1), a, b)
    ensures Dark(Finders(k, dy, dx), a, b) == Dark(Finders(k, dy, dx + 1), a, b)
  {
    var s, t := Finders(k, dy, dx), Finders(k, dy, dx + 1);
    assert forall i: nat :: FinderDrawn(s, i, a, b) == FinderDrawn(t, i, a, b);
    hide FinderDrawn, RingDark;
  }

  method DrawFinderModule(modules: array<u8>, isFunc: array<bool>, k: nat, dy: int, dx: int)
    requires modules.Length == isFunc.Length == MODULES && k < 3
    requires -4 <= dy <= 4 && -4 <= dx <= 4
    requires Painted(modules[..], isFunc[..], Finders(k, dy, dx))
    modifies modules, isFunc
    ensures Painted(modules[..], isFunc[..], Finders(k, dy, dx + 1))
  {
    var xx, yy := FinderX(k) + dx, FinderY(k) + dy;
    ghost var s, t := Finders(k, dy, dx), Finders(k, dy, dx + 1);
    forall a, b | InGrid(a, b) && (a != xx || b != yy)
      ensures Drawn(t, a, b) == Drawn(s, a, b) && Dark(t, a, b) == Dark(s, a, b)
    {
      FinderDiffers(k, dy, dx, a, b);
    }
    if xx < 0 || xx >= SIZE || yy < 0 || yy >= SIZE {
      hide Drawn, Dark;
      return;
    }
    var dist := Max(Abs(dx), Abs(dy));
    FinderHere(k, dy, dx);
    hide Drawn, Dark, Painted;
    SetModule(modules, isFunc, xx, yy, dist != 2 && dist != 4, s, t);
  }

  lemma FinderHere(k: nat, dy: int, dx: int)
    requires k < 3 && -4 <= dy <= 4 && -4 <= dx <= 4
    requires InGrid(FinderX(k) + dx, FinderY(k) + dy)
    ensures Drawn(Finders(k, dy, dx + 1), FinderX(k) + dx, FinderY(k) + dy)
    ensures Dark(Finders(k, dy, dx + 1), FinderX(k) + dx, FinderY(k) + dy)
         == (Max(Abs(dx), Abs(dy)) != 2 && Max(Abs(dx), Abs(dy)) != 4)
  {
  }

  method DrawFinders(modules: array<u8>, isFunc: array<bool>)
    requires modules.Length == isFunc.Length == MODULES
    requires Painted(modules[..], isFunc[..], Timing(SIZE))
    modifies modules, isFunc
    ensures Painted(modules[..], isFunc[..], Format(0))
  {
    StageSeams(modules[..], isFunc[..]);
    DrawFinder(modules, isFunc, 0);
    FinderSeam(modules[..], isFunc[..], 0);
    DrawFinder(modules, isFunc, 1);
    FinderSeam(modules[..], isFunc[..], 1);
    DrawFinder(modules, isFunc, 2);
    FormatSeam(modules[..], isFunc[..]);
  }

  lemma StageSeams(m: seq<u8>, f: seq<bool>)
    requires Painted(m, f, Timing(SIZE))
    ensures Painted(m, f, Finders(0, -4, -4))
  {
    var t := Finders(0, -4, -4);
    forall x, y | InGrid(x, y)
      ensures Drawn(Timing(SIZE), x, y) == Drawn(t, x, y) && Dark(Timing(SIZE), x, y) == Dark(t, x, y)
    {
      assert forall i: nat :: !FinderDrawn(t, i, x, y);
    }
    hide Drawn, Dark;
  }

  lemma FinderSeam(m: seq<u8>, f: seq<bool>, k: nat)
    requires k < 2
    requires Painted(m, f, Finders(k, 5, -4))
    ensures Painted(m, f, Finders(k + 1, -4, -4))
  {
    var s, t := Finders(k, 5, -4), Finders(k + 1, -4, -4);
    forall x, y | InGrid(x, y)
      ensures Drawn(s, x, y) == Drawn(t, x, y) && Dark(s, x, y) == Dark(t, x, y)
    {
      assert forall i: nat :: FinderDrawn(s, i, x, y) == FinderDrawn(t, i, x, y);
    }
    hide Drawn, Dark;
  }

  lemma FormatSeam(m: seq<u8>, f: seq<bool>)
    requires Painted(m, f, Finders(2, 5, -4))
    ensures Painted(m, f, Format(0))
  {
    var s := Finders(2, 5, -4);
    forall x, y | InGrid(x, y)
      ensures Drawn(s, x, y) == Drawn(Format(0), x, y)
      ensures Drawn(s, x, y) ==> Dark(s, x, y) == Dark(Format(0), x, y)
    {
      assert forall i: nat :: i < 3 ==> FinderDrawn(s, i, x, y) == InFinder(i, x, y);
      if FormatRank(x, y) >= 0 {
        FormatOutsideTiming(x, y);
      }
    }
    hide Drawn, Dark;
  }

  lemma FormatOutsideTiming(x: int, y: int)
    requires FormatRank(x, y) >= 0
    ensures !TimingDrawn(SIZE, x, y)
    ensures !InFinder(0, x, y) && !InFinder(1, x, y) && !InFinder(2, x, y)
  {
  }

  // ── Format information ────────────────────────────────────────────────────

  const REMAINDERS: seq<u16> := [8, 16, 32, 64, 128, 256, 512, 311, 622, 491, 982]

  lemma FormatXors()
    ensures BitXor(1024, 0x537) == 311
    ensures BitXor(1244, 0x537) == 491
    ensures BitXor(0x23D6, 0x5412) == FORMAT_BITS
  {
    FirstFold();
    SecondFold();
    MaskFormat();
    hide BitXor, XorsTo;
    XorsToIsBitXor(1024, 0x537, 311);
    XorsToIsBitXor(1244, 0x537, 491);
    XorsToIsBitXor(0x23D6, 0x5412, FORMAT_BITS);
  }

  lemma FirstFold()
    ensures XorsTo(1024, 0x537, 311)
  {
    assert XorsTo(64, 83, 19) by { assert XorsTo(4, 5, 1); }
  }

  lemma SecondFold()
    ensures XorsTo(1244, 0x537, 491)
  {
    assert XorsTo(77, 83, 30) by { assert XorsTo(4, 5, 1); }
  }

  lemma MaskFormat()
    ensures XorsTo(0x23D6, 0x5412, FORMAT_BITS)
  {
    assert XorsTo(0x23D, 0x541, 0x77C) by { assert XorsTo(0x23, 0x54, 0x77) by { assert XorsTo(2, 5, 7); } }
  }

  method FormatInformation() returns (fmt: u16)
    ensures fmt == FORMAT_BITS
  {
    hide BitXor;
    var fmtData: u16 := 0x08;
    var rem: u16 := fmtData;
    FormatXors();
    for i := 0 to 10
      invariant rem == REMAINDERS[i]
    {
      BitXorZero(2 * rem);
      var fold := (rem / 512 % 2) * 0x537;
      rem := BitXor((2 * rem) % 0x1_0000, fold) % 0x1_0000;
    }
    fmt := BitXor(fmtData * 1024 + rem, 0x5412) % 0x1_0000;
  }

  lemma FormatStep(x: int, y: int)
    requires InGrid(x, y) && FormatRank(x, y) >= 0
    ensures Drawn(Format(FormatRank(x, y) + 1), x, y)
    ensures Dark(Format(FormatRank(x, y) + 1), x, y) == FormatDark(FormatRank(x, y))
    ensures forall a, b :: InGrid(a, b) && (a != x || b != y) ==>
              Drawn(Format(FormatRank(x, y) + 1), a, b) == Drawn(Format(FormatRank(x, y)), a, b)
              && Dark(Format(FormatRank(x, y) + 1), a, b) == Dark(Format(FormatRank(x, y)), a, b)
  {
    FormatOutsideTiming(x, y);
    forall a, b | InGrid(a, b) && (a != x || b != y)
      ensures FormatRank(a, b) != FormatRank(x, y)
    {
    }
    hide FormatRank, InFinder, TimingDrawn, FormatDark;
  }

  method DrawFormatModule(modules: array<u8>, isFunc: array<bool>, x: int, y: int, dark: bool)
    requires modules.Length == isFunc.Length == MODULES && InGrid(x, y)
    requires FormatRank(x, y) >= 0 && dark == FormatDark(FormatRank(x, y))
    requires Painted(modules[..], isFunc[..], Format(FormatRank(x, y)))
    modifies modules, isFunc
    ensures Painted(modules[..], isFunc[..], Format(FormatRank(x, y) + 1))
  {
    hide Painted, Drawn, Dark, FormatRank;
    FormatStep(x, y);
    SetModule(modules, isFunc, x, y, dark, Format(FormatRank(x, y)), Format(FormatRank(x, y) + 1));
  }

  method DrawFormat(modules: array<u8>, isFunc: array<bool>)
    requires modules.Length == isFunc.Length == MODULES
    requires Painted(modules[..], isFunc[..], Format(0))
    modifies modules, isFunc
    ensures Painted(modules[..], isFunc[..], Format(31))
  {
    hide Painted;
    var fmtBits := FormatInformation();
    for i := 0 to 6
      invariant Painted(modules[..], isFunc[..], Format(i))
    {
      DrawFormatModule(modules, isFunc, 8, i, Digit(fmtBits, i));
    }
    DrawFormatModule(modules, isFunc, 8, 7, Digit(fmtBits, 6));
    DrawFormatModule(modules, isFunc, 8, 8, Digit(fmtBits, 7));
    DrawFormatModule(modules, isFunc, 7, 8, Digit(fmtBits, 8));
    for i := 9 to 15
      invariant Painted(modules[..], isFunc[..], Format(i))
    {
      DrawFormatModule(modules, isFunc, 14 - i, 8, Digit(fmtBits, i));
    }
    for i := 0 to 8
      invariant Painted(modules[..], isFunc[..], Format(15 + i))
    {
      DrawFormatModule(modules, isFunc, SIZE - 1 - i, 8, Digit(fmtBits, i));
    }
    for i := 8 to 15
      invariant Painted(modules[..], isFunc[..], Format(15 + i))
    {
      DrawFormatModule(modules, isFunc, 8, SIZE - 15 + i, Digit(fmtBits, i));
    }
    DrawFormatModule(modules, isFunc, 8, SIZE - 8, true);
  }

  /** The drawing covers exactly the function modules. */
  lemma DrawnIsFunction(x: int, y: int)
    requires InGrid(x, y)
    ensures Drawn(Format(31), x, y) == IsFunction(x, y)
  {
  }

  // ── Codewords, mask and the finished symbol ───────────────────────────────

  predicate PatternDark(x: int, y: int) {
    Dark(Format(31), x, y)
  }

  predicate Masked(x: int, y: int) {
    (x + y) % 2 == 0
  }

  /** The 26 codewords of a code. */
  function Codewords(code: seq<u8>): (all: seq<u8>)
    requires QrPayload.ValidCode(code)
    ensures |all| == 26
  {
    CodeDistance.Codeword(QrPayload.Payload(code), EC_CODEWORDS)
  }

  predicate DarkAt(bits: seq<bool>, x: int, y: int)
    requires |bits| == TOTAL_BITS && InGrid(x, y)
  {
    if IsFunction(x, y) then PatternDark(x, y)
    else
      BitOfPlace(x, y);
      bits[BitIndex(x, y)] != Masked(x, y)
  }

  /** The symbol of a bit sequence: patterns, placed bits, mask on data modules only. */
  ghost predicate IsSymbol(m: seq<u8>, bits: seq<bool>)
    requires |bits| == TOTAL_BITS
  {
    |m| == MODULES
    && forall x, y :: InGrid(x, y) ==> m[Cell(x, y)] == if DarkAt(bits, x, y) then 1 else 0
  }

  /** Data modules as the zigzag has them after n bits, before the mask. */
  ghost predicate Placed(m: seq<u8>, bits: seq<bool>, n: int)
    requires |bits| == TOTAL_BITS
  {
    |m| == MODULES
    && forall x, y :: InGrid(x, y) ==> m[Cell(x, y)] == if PlacedDark(bits, n, x, y) then 1 else 0
  }

  predicate PlacedDark(bits: seq<bool>, n: int, x: int, y: int)
    requires |bits| == TOTAL_BITS && InGrid(x, y)
  {
    if IsFunction(x, y) then PatternDark(x, y)
    else
      BitOfPlace(x, y);
      BitIndex(x, y) < n && bits[BitIndex(x, y)]
  }

  ghost predicate FunctionMap(f: seq<bool>) {
    |f| == MODULES && forall x, y :: InGrid(x, y) ==> f[Cell(x, y)] == IsFunction(x, y)
  }

  lemma PatternsAreReady(m: seq<u8>, f: seq<bool>, bits: seq<bool>)
    requires |bits| == TOTAL_BITS
    requires Painted(m, f, Format(31))
    ensures FunctionMap(f) && Placed(m, bits, 0)
  {
    forall x, y | InGrid(x, y)
      ensures f[Cell(x, y)] == IsFunction(x, y)
      ensures m[Cell(x, y)] == if PlacedDark(bits, 0, x, y) then 1 else 0
    {
      DrawnIsFunction(x, y);
      hide Drawn, Dark, IsFunction, Cell;
      if !IsFunction(x, y) {
        BitOfPlace(x, y);
      }
    }
  }

  lemma PlacedDarkStep(bits: seq<bool>, n: nat, x: int, y: int, a: int, b: int)
    requires |bits| == TOTAL_BITS && IsData(x, y) && BitIndex(x, y) == n
    requires InGrid(a, b) && (a != x || b != y)
    ensures PlacedDark(bits, n, a, b) == PlacedDark(bits, n + 1, a, b)
  {
    hide IsFunction, PatternDark, BitIndex, ModuleX, ModuleY;
    BitOfPlace(x, y);
    if !IsFunction(a, b) {
      BitOfPlace(a, b);
    }
  }

  lemma PlaceStep(m: seq<u8>, bits: seq<bool>, n: nat, x: int, y: int)
    requires |bits| == TOTAL_BITS && Placed(m, bits, n)
    requires IsData(x, y) && BitIndex(x, y) == n
    ensures n < TOTAL_BITS
    ensures Placed(m[Cell(x, y) := if bits[n] then 1 else 0], bits, n + 1)
  {
    BitOfPlace(x, y);
    CellInjective();
    assert PlacedDark(bits, n + 1, x, y) == bits[n];
    hide Cell, IsFunction, PlacedDark, BitIndex, ModuleX, ModuleY;
    forall a, b | InGrid(a, b) && (a != x || b != y)
      ensures PlacedDark(bits, n, a, b) == PlacedDark(bits, n + 1, a, b)
    {
      PlacedDarkStep(bits, n, x, y, a, b);
    }
  }

  /** The bit at position k of the codewords, most significant first. */
  method PlaceBit(modules: array<u8>, isFunc: array<bool>, all: seq<u8>, bit: nat,
                  ghost c: nat, vert: nat, j: nat, r: int)
    returns (next: nat)
    requires modules.Length == isFunc.Length == MODULES && |all| == 26
    requires c < 10 && vert < SIZE && j < 2 && r == RightColumn(c)
    requires FunctionMap(isFunc[..])
    requires bit == BitsBefore(c, vert, j)
    requires Placed(modules[..], Stream(all), bit)
    modifies modules
    ensures next == BitsBefore(c, vert, j + 1)
    ensures Placed(modules[..], Stream(all), next)
  {
    ghost var bits := Stream(all);
    assert |bits| == TOTAL_BITS;
    hide *;
    var x := r - j;
    var y := if Upward(r) then SIZE - 1 - vert else vert;
    next := bit;
    WalkCounts(c, vert, j);
    WalkPlace(c, vert, j, r);
    CellOf(isFunc[..], x, y);
    if !isFunc[y * SIZE + x] && bit < TOTAL_BITS {
      WalkMeetsBit(c, vert, j);
      PlaceStep(modules[..], bits, bit, x, y);
      BitOfCodewords(all, bit);
      modules[y * SIZE + x] := if Digit(all[bit / 8], 7 - bit % 8) then 1 else 0;
      assert modules[..] == old(modules[..])[Cell(x, y) := if bits[bit] then 1 else 0];
      next := bit + 1;
    }
  }

  lemma WalkPlace(c: nat, vert: nat, j: nat, r: int)
    requires r == RightColumn(c)
    ensures WalkX(c, j) == r - j
    ensures WalkY(c, vert) == if Upward(r) then SIZE - 1 - vert else vert
  {
  }

  lemma CellOf(f: seq<bool>, x: int, y: int)
    requires InGrid(x, y) && FunctionMap(f)
    ensures Cell(x, y) == y * SIZE + x && 0 <= y * SIZE + x < MODULES
    ensures f[y * SIZE + x] == IsFunction(x, y)
  {
    assert f[Cell(x, y)] == IsFunction(x, y);
    hide IsFunction, FunctionMap;
  }

  lemma BitOfCodewords(all: seq<u8>, bit: nat)
    requires |all| == 26 && bit < TOTAL_BITS
    ensures Stream(all)[bit] == Digit(all[bit / 8], 7 - bit % 8)
  {
  }

  method PlaceCodewords(modules: array<u8>, isFunc: array<bool>, all: seq<u8>)
    requires modules.Length == isFunc.Length == MODULES && |all| == 26
    requires modules as object != isFunc
    requires FunctionMap(isFunc[..])
    requires Placed(modules[..], Stream(all), 0)
    modifies modules
    ensures Placed(modules[..], Stream(all), TOTAL_BITS)
  {
    hide FunctionMap, Placed;
    var bit := 0;
    ghost var c := 0;
    var right := SIZE - 1;
    StripsMeet(0);
    while right >= 1
      invariant 0 <= c <= 10 && right == SIZE - 1 - 2 * c
      invariant FunctionMap(isFunc[..])
      invariant bit == BitsBefore(c, 0, 0)
      invariant Placed(modules[..], Stream(all), bit)
    {
      var r := right;
      if r <= 6 {
        r := r - 1;
      }
      for vert := 0 to SIZE
        invariant FunctionMap(isFunc[..])
        invariant bit == BitsBefore(c, vert, 0)
        invariant Placed(modules[..], Stream(all), bit)
      {
        for j := 0 to 2
          invariant FunctionMap(isFunc[..])
          invariant bit == BitsBefore(c, vert, j)
          invariant Placed(modules[..], Stream(all), bit)
        {
          bit := PlaceBit(modules, isFunc, all, bit, c, vert, j, r);
        }
        WalkCounts(c, vert, 0);
      }
      StripsMeet(c);
      c := c + 1;
      right := right - 2;
    }
    StripsMeet(9);
  }

  /** Modules as the mask loop has them once it reaches (mx, my). */
  ghost predicate PartlyMasked(m: seq<u8>, bits: seq<bool>, mx: int, my: int)
    requires |bits| == TOTAL_BITS
  {
    |m| == MODULES
    && forall x, y :: InGrid(x, y) ==>
         var masked := y < my || (y == my && x < mx);
         m[Cell(x, y)] == if (if masked then DarkAt(bits, x, y) else PlacedDark(bits, TOTAL_BITS, x, y)) then 1 else 0
  }

  lemma MaskStep(m: seq<u8>, bits: seq<bool>, x: int, y: int)
    requires |bits| == TOTAL_BITS && InGrid(x, y) && PartlyMasked(m, bits, x, y)
    ensures PartlyMasked(m[Cell(x, y) := if DarkAt(bits, x, y) then 1 else 0], bits, x + 1, y)
  {
    CellInjective();
    hide Cell, DarkAt, PlacedDark;
  }

  lemma MaskFlips(bits: seq<bool>, x: int, y: int)
    requires |bits| == TOTAL_BITS && InGrid(x, y)
    ensures DarkAt(bits, x, y) == (PlacedDark(bits, TOTAL_BITS, x, y) != (!IsFunction(x, y) && Masked(x, y)))
  {
    hide IsFunction, BitIndex, ModuleX, ModuleY, PatternDark;
    if !IsFunction(x, y) {
      BitOfPlace(x, y);
    }
  }

  method MaskModule(modules: array<u8>, isFunc: array<bool>, ghost bits: seq<bool>, x: int, y: int)
    requires modules.Length == isFunc.Length == MODULES && |bits| == TOTAL_BITS && InGrid(x, y)
    requires FunctionMap(isFunc[..])
    requires PartlyMasked(modules[..], bits, x, y)
    modifies modules
    ensures PartlyMasked(modules[..], bits, x + 1, y)
  {
    MaskStep(modules[..], bits, x, y);
    MaskFlips(bits, x, y);
    assert isFunc[..][Cell(x, y)] == IsFunction(x, y);
    assert modules[..][Cell(x, y)] == if PlacedDark(bits, TOTAL_BITS, x, y) then 1 else 0;
    BitXorZero(1);
    assert y * SIZE + x == Cell(x, y);
    hide IsFunction, PlacedDark, DarkAt, BitXor, PartlyMasked, FunctionMap, Cell;
    if !isFunc[y * SIZE + x] && (x + y) % 2 == 0 {
      modules[y * SIZE + x] := BitXor(modules[y * SIZE + x], 1);
    }
    assert modules[..] == old(modules[..])[Cell(x, y) := if DarkAt(bits, x, y) then 1 else 0];
  }

  method ApplyMask(modules: array<u8>, isFunc: array<bool>, ghost bits: seq<bool>)
    requires modules.Length == isFunc.Length == MODULES && |bits| == TOTAL_BITS
    requires modules as object != isFunc
    requires FunctionMap(isFunc[..])
    requires Placed(modules[..], bits, TOTAL_BITS)
    modifies modules
    ensures IsSymbol(modules[..], bits)
  {
    hide DarkAt, PlacedDark, FunctionMap;
    for y := 0 to SIZE
      invariant FunctionMap(isFunc[..])
      invariant PartlyMasked(modules[..], bits, 0, y)
    {
      for x := 0 to SIZE
        invariant FunctionMap(isFunc[..])
        invariant PartlyMasked(modules[..], bits, x, y)
      {
        MaskModule(modules, isFunc, bits, x, y);
      }
    }
  }

  method Encode6Digits(code6: seq<u8>, modules: array<u8>) returns (ok: bool)
    requires |code6| == 6 && modules.Length == MODULES
    modifies modules
    ensures ok == QrPayload.ValidCode(code6)
    ensures !ok ==> modules[..] == old(modules[..])
    ensures ok ==> IsSymbol(modules[..], Stream(Codewords(code6)))
  {
    hide IsSymbol, Codewords, Stream;
    for i := 0 to 6
      invariant forall k :: 0 <= k < i ==> 48 <= code6[k] <= 57
    {
      if code6[i] < 48 || code6[i] > 57 {
        return false;
      }
    }
    ok := true;
    var all := ComputeCodewords(code6);
    DrawSymbol(all, modules);
  }

  method DrawSymbol(all: seq<u8>, modules: array<u8>)
    requires |all| == 26 && modules.Length == MODULES
    modifies modules
    ensures IsSymbol(modules[..], Stream(all))
  {
    var isFunc := new bool[MODULES];
    DrawTiming(modules, isFunc);
    DrawFinders(modules, isFunc);
    DrawFormat(modules, isFunc);
    ghost var bits := Stream(all);
    PatternsAreReady(modules[..], isFunc[..], bits);
    hide Painted, FunctionMap, Placed, IsSymbol;
    PlaceCodewords(modules, isFunc, all);
    ApplyMask(modules, isFunc, bits);
  }

  method ComputeCodewords(code6: seq<u8>) returns (all: seq<u8>)
    requires QrPayload.ValidCode(code6)
    ensures all == Codewords(code6)
  {
    hide QrPayload.IsPayload, QrPayload.Payload, Remainder, Generator;
    var data := new u8[QrPayload.DATA_CODEWORDS];
    QrPayload.BuildPayload(code6, data);
    QrPayload.PayloadIsUnique(data[..], code6);
    var divisor := new u8[EC_CODEWORDS];
    BuildDivisor(divisor);
    var ec := new u8[EC_CODEWORDS];
    ComputeRemainder(data, divisor, ec);
    all := data[..] + ec[..];
  }

  // ── Reading a symbol ──────────────────────────────────────────────────────

  /** Both copies of the format information, as a reader finds them. */
  lemma FormatReadsBack(m: seq<u8>, bits: seq<bool>)
    requires |bits| == TOTAL_BITS && IsSymbol(m, bits)
    ensures R.IsCopy(R.COPY_A) && R.FormatOf(m, R.COPY_A) == 0x23D6
    ensures R.IsCopy(R.COPY_B) && R.FormatOf(m, R.COPY_B) == 0x23D6
  {
    CopiesAreInGrid();
    assert |m| == MODULES;
    hide IsSymbol, FormatRank, R.COPY_A, R.COPY_B, Digit, R.FormatBits, R.FormatOf;
    forall i | 0 <= i < 15
      ensures R.FormatBits(m, R.COPY_A)[i] == Digit(FORMAT_BITS, i)
      ensures R.FormatBits(m, R.COPY_B)[i] == Digit(FORMAT_BITS, i)
    {
      CopyRanks(i);
      CopyBit(m, bits, R.COPY_A, i);
      CopyBit(m, bits, R.COPY_B, i);
    }
    FormatFromBits(m, R.COPY_A);
    FormatFromBits(m, R.COPY_B);
  }

  lemma CopyBit(m: seq<u8>, bits: seq<bool>, copy: seq<(int, int)>, i: nat)
    requires |bits| == TOTAL_BITS && IsSymbol(m, bits) && R.IsCopy(copy) && i < 15
    requires 0 <= FormatRank(copy[i].0, copy[i].1) < 30 && FormatRank(copy[i].0, copy[i].1) % 15 == i
    ensures R.FormatBits(m, copy)[i] == Digit(FORMAT_BITS, i)
  {
    hide IsSymbol, FormatRank, Digit, R.Dark;
    FormatModule(m, bits, copy[i].0, copy[i].1);
  }

  lemma FormatFromBits(m: seq<u8>, copy: seq<(int, int)>)
    requires |m| == MODULES && R.IsCopy(copy)
    requires forall i :: 0 <= i < 15 ==> R.FormatBits(m, copy)[i] == Digit(FORMAT_BITS, i)
    ensures R.FormatOf(m, copy) == 0x23D6
  {
    hide Digit, BitXor;
    assert R.FormatBits(m, copy) == ToBits(15, FORMAT_BITS);
    assert Pow2(15) == 0x8000 by { Pow2Values(); }
    FromToBits(15, FORMAT_BITS);
    FormatXors();
    BitXorCancel(0x23D6, 0x5412);
  }

  lemma CopiesAreInGrid()
    ensures R.IsCopy(R.COPY_A) && R.IsCopy(R.COPY_B)
  {
  }

  lemma CopyRanks(i: nat)
    requires i < 15
    ensures FormatRank(R.COPY_A[i].0, R.COPY_A[i].1) == i
    ensures FormatRank(R.COPY_B[i].0, R.COPY_B[i].1) == 15 + i
  {
  }

  lemma FormatModule(m: seq<u8>, bits: seq<bool>, x: int, y: int)
    requires |bits| == TOTAL_BITS && IsSymbol(m, bits) && InGrid(x, y) && -1 < FormatRank(x, y) < 30
    ensures R.Dark(m, x, y) == Digit(FORMAT_BITS, FormatRank(x, y) % 15)
  {
    hide Digit;
    assert m[Cell(x, y)] == if DarkAt(bits, x, y) then 1 else 0;
  }

  // ── Data modules in the reader's order ────────────────────────────────────

  /** Data modules met in the first n steps. */
  function Met(n: nat): nat {
    BitsBefore(n / 42, n % 42 / 2, n % 2)
  }

  lemma BitsOnward(c: nat, v: nat, j: nat)
    requires c < 10 && v < SIZE && j < 2
    ensures InGrid(WalkX(c, j), WalkY(c, v))
    ensures BitsBefore(c, v, j) + (if IsFunction(WalkX(c, j), WalkY(c, v)) then 0 else 1) ==
            if j == 0 then BitsBefore(c, v, 1) else if v < 20 then BitsBefore(c, v + 1, 0) else BitsBefore(c + 1, 0, 0)
  {
    hide BitsBefore, IsFunction, WalkX, WalkY;
    WalkCounts(c, v, j);
    StripsMeet(c);
    if c < 9 {
      StripsMeet(c + 1);
    }
  }

  lemma StepParts(n: nat)
    requires n < 420
    ensures var c, v, j := n / 42, n % 42 / 2, n % 2;
            c < 10 && v < 21 && n == 42 * c + 2 * v + j
  {
  }

  lemma MetStep(n: nat, c: nat, v: nat, j: nat)
    requires n == 42 * c + 2 * v + j && c < 10 && v < SIZE && j < 2
    ensures R.PlaceX(n) == WalkX(c, j) && R.PlaceY(n) == WalkY(c, v) && InGrid(WalkX(c, j), WalkY(c, v))
    ensures Met(n + 1) == Met(n) + (if IsFunction(WalkX(c, j), WalkY(c, v)) then 0 else 1)
  {
    hide BitsBefore, IsFunction, WalkX, WalkY, R.PlaceX, R.PlaceY, InGrid, Met;
    PlacesAgree(n, c, v, j);
    BitsOnward(c, v, j);
    MetAt(n, c, v, j);
    if j == 0 {
      MetAt(n + 1, c, v, 1);
    } else if v < 20 {
      MetAt(n + 1, c, v + 1, 0);
    } else {
      MetAt(n + 1, c + 1, 0, 0);
    }
  }

  lemma MetAt(n: nat, c: nat, v: nat, j: nat)
    requires n == 42 * c + 2 * v + j && v < 21 && j < 2
    ensures Met(n) == BitsBefore(c, v, j)
  {
    hide BitsBefore;
    StepOf(n, c, 2 * v + j);
  }

  lemma PlacesAgree(n: nat, c: nat, v: nat, j: nat)
    requires n == 42 * c + 2 * v + j && c < 10 && v < SIZE && j < 2
    ensures n < 420 && R.PlaceX(n) == WalkX(c, j) && R.PlaceY(n) == WalkY(c, v)
  {
    StripShape(c);
    StripColumns(c);
    PlaceIs(n, c, v, j);
    hide RightColumn, Upward, R.STRIPS, R.PlaceX, R.PlaceY;
  }

  lemma PlaceIs(n: nat, c: nat, v: nat, j: nat)
    requires n == 42 * c + 2 * v + j && c < 10 && v < SIZE && j < 2
    ensures n < 420 && R.PlaceX(n) == R.STRIPS[c] - j && R.PlaceY(n) == if c % 2 == 0 then 20 - v else v
  {
    StepOf(n, c, 2 * v + j);
    assert n % 42 / 2 == v && n % 2 == j;
    hide R.STRIPS;
  }

  lemma StepOf(n: nat, c: nat, r: nat)
    requires n == 42 * c + r && r < 42
    ensures n / 42 == c && n % 42 == r && n % 2 == r % 2
  {
  }

  lemma StripColumns(c: nat)
    requires c < 10
    ensures R.STRIPS[c] == if c <= 6 then 20 - 2 * c else 19 - 2 * c
  {
  }

  lemma ReservedIsFunction(x: nat, y: nat)
    requires InGrid(x, y)
    ensures R.Reserved(x, y) == IsFunction(x, y)
  {
  }

  /** What the reader makes of step n. */
  lemma ReadModule(m: seq<u8>, bits: seq<bool>, n: nat)
    requires |bits| == TOTAL_BITS && IsSymbol(m, bits) && n < 420
    ensures 0 <= R.PlaceX(n) < 21 && 0 <= R.PlaceY(n) < 21
    ensures var x, y := R.PlaceX(n), R.PlaceY(n);
            if R.Reserved(x, y) then Met(n + 1) == Met(n)
            else Met(n + 1) == Met(n) + 1 <= TOTAL_BITS && (R.Dark(m, x, y) != R.Inverts(0, x, y)) == bits[Met(n)]
  {
    StepParts(n);
    ReadPlace(m, bits, n, n / 42, n % 42 / 2, n % 2);
  }

  lemma ReadPlace(m: seq<u8>, bits: seq<bool>, n: nat, c: nat, v: nat, j: nat)
    requires |bits| == TOTAL_BITS && IsSymbol(m, bits)
    requires n == 42 * c + 2 * v + j && c < 10 && v < SIZE && j < 2
    ensures 0 <= R.PlaceX(n) < 21 && 0 <= R.PlaceY(n) < 21
    ensures var x, y := R.PlaceX(n), R.PlaceY(n);
            if R.Reserved(x, y) then Met(n + 1) == Met(n)
            else Met(n + 1) == Met(n) + 1 <= TOTAL_BITS && (R.Dark(m, x, y) != R.Inverts(0, x, y)) == bits[Met(n)]
  {
    hide IsFunction, WalkX, WalkY, BitsBefore, Met, R.Reserved, R.Dark, R.Inverts, R.PlaceX, R.PlaceY, IsSymbol;
    MetStep(n, c, v, j);
    MetAt(n, c, v, j);
    ReservedIsFunction(WalkX(c, j), WalkY(c, v));
    if !IsFunction(WalkX(c, j), WalkY(c, v)) {
      DataModule(m, bits, c, v, j);
    }
  }

  lemma ReadStep(m: seq<u8>, bits: seq<bool>, n: nat)
    requires |bits| == TOTAL_BITS && IsSymbol(m, bits) && n < 420
    requires Met(n) <= TOTAL_BITS && R.DataBits(m, 0, n) == bits[..Met(n)]
    ensures Met(n + 1) <= TOTAL_BITS && R.DataBits(m, 0, n + 1) == bits[..Met(n + 1)]
  {
    hide Met, R.Reserved, R.Dark, R.Inverts, R.PlaceX, R.PlaceY, R.DataBits;
    ReadModule(m, bits, n);
    DataStep(m, 0, n);
    hide IsSymbol;
    if !R.Reserved(R.PlaceX(n), R.PlaceY(n)) {
      OneMore(bits, Met(n));
    }
  }

  lemma OneMore(bits: seq<bool>, n: nat)
    requires n < |bits|
    ensures bits[..n + 1] == bits[..n] + [bits[n]]
  {
  }

  lemma DataStep(m: seq<u8>, k: nat, n: nat)
    requires |m| == MODULES && n < 420
    ensures var x, y := R.PlaceX(n), R.PlaceY(n);
            R.DataBits(m, k, n + 1) ==
            R.DataBits(m, k, n) + (if R.Reserved(x, y) then [] else [R.Dark(m, x, y) != R.Inverts(k, x, y)])
  {
    hide R.Reserved, R.Dark, R.Inverts, R.PlaceX, R.PlaceY;
  }

  /** The reader meets the bits in the order they were placed. */
  lemma {:induction false} BitsReadBack(m: seq<u8>, bits: seq<bool>, n: nat)
    requires |bits| == TOTAL_BITS && IsSymbol(m, bits) && n <= 420
    ensures Met(n) <= TOTAL_BITS && R.DataBits(m, 0, n) == bits[..Met(n)]
  {
    if n == 0 {
      AllMet();
    } else {
      hide IsSymbol, Met;
      BitsReadBack(m, bits, n - 1);
      ReadStep(m, bits, n - 1);
    }
  }

  lemma DataModule(m: seq<u8>, bits: seq<bool>, c: nat, v: nat, j: nat)
    requires |bits| == TOTAL_BITS && IsSymbol(m, bits) && c < 10 && v < SIZE && j < 2
    requires InGrid(WalkX(c, j), WalkY(c, v)) && !IsFunction(WalkX(c, j), WalkY(c, v))
    ensures BitsBefore(c, v, j) < TOTAL_BITS
    ensures var x, y := WalkX(c, j), WalkY(c, v);
            (R.Dark(m, x, y) != R.Inverts(0, x, y)) == bits[BitsBefore(c, v, j)]
  {
    WalkCounts(c, v, j);
    WalkMeetsBit(c, v, j);
    hide BitsBefore, WalkX, WalkY, BitIndex, PatternDark, IsSymbol, IsFunction, Masked;
    ModuleShows(m, bits, WalkX(c, j), WalkY(c, v));
  }

  lemma ModuleShows(m: seq<u8>, bits: seq<bool>, x: int, y: int)
    requires |bits| == TOTAL_BITS && IsSymbol(m, bits) && InGrid(x, y) && !IsFunction(x, y)
    ensures 0 <= BitIndex(x, y) < TOTAL_BITS
    ensures (R.Dark(m, x, y) != R.Inverts(0, x, y)) == bits[BitIndex(x, y)]
  {
    BitOfPlace(x, y);
    hide BitIndex, PatternDark, IsFunction;
    assert m[Cell(x, y)] == if DarkAt(bits, x, y) then 1 else 0;
  }

  lemma AllMet()
    ensures Met(0) == 0 && Met(420) == TOTAL_BITS
  {
    StripsMeet(9);
    hide BitsBefore;
  }

  function ReadCodewords(m: seq<u8>): (all: seq<u8>)
    requires |m| == MODULES
    ensures |all| == 26
  {
    DataBitsLength(m, 0, 420);
    AllMet();
    Bytes(R.DataBits(m, 0, 420))
  }

  lemma PlaceKind(n: nat, c: nat, v: nat, j: nat)
    requires n == 42 * c + 2 * v + j && c < 10 && v < SIZE && j < 2
    ensures Met(n + 1) == Met(n) + (if R.Reserved(R.PlaceX(n), R.PlaceY(n)) then 0 else 1)
  {
    hide R.Reserved, R.PlaceX, R.PlaceY, Met, IsFunction, WalkX, WalkY;
    MetStep(n, c, v, j);
    ReservedIsFunction(WalkX(c, j), WalkY(c, v));
  }

  lemma {:induction false} DataBitsLength(m: seq<u8>, k: nat, n: nat)
    requires |m| == MODULES && n <= 420
    ensures |R.DataBits(m, k, n)| == Met(n)
  {
    hide R.Reserved, R.Dark, R.Inverts, R.PlaceX, R.PlaceY, Met;
    if n == 0 {
      AllMet();
    } else {
      hide R.DataBits;
      DataBitsLength(m, k, n - 1);
      DataStep(m, k, n - 1);
      StepKind(n - 1);
    }
  }

  lemma StepKind(n: nat)
    requires n < 420
    ensures Met(n + 1) == Met(n) + (if R.Reserved(R.PlaceX(n), R.PlaceY(n)) then 0 else 1)
  {
    hide R.Reserved, R.PlaceX, R.PlaceY, Met;
    StepParts(n);
    PlaceKind(n, n / 42, n % 42 / 2, n % 2);
  }

  lemma SymbolReadsBack(m: seq<u8>, all: seq<u8>)
    requires |all| == 26 && IsSymbol(m, Stream(all))
    ensures ReadCodewords(m) == all
  {
    hide R.DataBits, Stream;
    DataReadsBack(m, Stream(all));
    BytesOfStream(all);
  }

  lemma DataComesFirst(data: seq<u8>)
    ensures data <= CodeDistance.Codeword(data, EC_CODEWORDS)
  {
    hide Remainder, Generator;
  }

  lemma CodewordsExtendPayload(code: seq<u8>)
    requires QrPayload.ValidCode(code)
    ensures Codewords(code) == CodeDistance.Codeword(QrPayload.Payload(code), EC_CODEWORDS)
  {
    hide QrPayload.Payload, CodeDistance.Codeword;
  }

  /** Finders, separators, timing and the dark module are as the standard pictures them. */
  lemma PatternsAreStandard(m: seq<u8>, bits: seq<bool>, x: nat, y: nat)
    requires |bits| == TOTAL_BITS && IsSymbol(m, bits) && InGrid(x, y)
    ensures R.AsPictured(m, x, y)
  {
    assert m[Cell(x, y)] == if DarkAt(bits, x, y) then 1 else 0;
    hide IsSymbol;
    if x < 7 && y < 7 {
      FinderIsPictured(x, y, 0);
    } else if x >= 14 && y < 7 {
      FinderIsPictured(x - 14, y, 1);
    } else if x < 7 && y >= 14 {
      FinderIsPictured(x, y - 14, 2);
    }
    hide R.FINDER;
  }

  lemma FinderIsPictured(i: nat, j: nat, k: nat)
    requires i < 7 && j < 7 && k < 3
    ensures RingDark(k, if k == 1 then i + 14 else i, if k == 2 then j + 14 else j) <==> R.FINDER[j][i] == '#'
  {
    assert R.FINDER[j] == if j == 0 || j == 6 then "#######" else if j == 1 || j == 5 then "#.....#" else "#.###.#";
  }

  lemma PayloadNumbers(bits: seq<bool>, code: seq<u8>)
    requires QrPayload.ValidCode(code) && |bits| >= 40 && bits[..40] == QrPayload.PayloadBits(code)
    ensures R.Number(bits, 0, 4) == 1 && R.Number(bits, 4, 10) == 6
    ensures R.Number(bits, 14, 10) == QrPayload.Group(code, 0) && R.Number(bits, 24, 10) == QrPayload.Group(code, 1)
  {
    var p := QrPayload.PayloadBits(code);
    assert Pow2(4) == 16 && Pow2(10) == 1024 by { Pow2Values(); assert Pow2(9) == 512; }
    NumberReads(bits, 0, 4, 1);
    NumberReads(bits, 4, 10, 6);
    NumberReads(bits, 14, 10, QrPayload.Group(code, 0));
    NumberReads(bits, 24, 10, QrPayload.Group(code, 1));
  }

  lemma NumberReads(bits: seq<bool>, from: nat, n: nat, v: nat)
    requires from + n <= |bits| && bits[from..from + n] == MsbBits(n, v) && v < Pow2(n)
    ensures R.Number(bits, from, n) == v
  {
    NumberIsValue(bits, from, n);
    MsbRoundTrip(n, v);
  }

  lemma {:induction false} NumberIsValue(bits: seq<bool>, from: nat, n: nat)
    requires from + n <= |bits|
    ensures R.Number(bits, from, n) == MsbValue(bits[from..from + n])
  {
    if n > 0 {
      NumberIsValue(bits, from, n - 1);
      var s := bits[from..from + n];
      assert s[..n - 1] == bits[from..from + n - 1];
    }
  }

  /** A reader that knows only the standard, going by either copy of the format information, gets
    * the six digits back from the finished symbol: the mask applied is the one announced. */
  lemma DigitsReadBack(m: seq<u8>, code: seq<u8>)
    requires QrPayload.ValidCode(code) && IsSymbol(m, Stream(Codewords(code)))
    ensures R.Gets(m, R.COPY_A, code) && R.Gets(m, R.COPY_B, code)
  {
    var bits := Stream(Codewords(code));
    assert |m| == MODULES && |bits| == TOTAL_BITS;
    hide *;
    FormatReadsBack(m, bits);
    DataReadsBack(m, bits);
    PayloadStarts(code);
    assert |bits| >= 40;
    ScanReads(m, R.COPY_A, bits, code);
    ScanReads(m, R.COPY_B, bits, code);
  }

  lemma DataReadsBack(m: seq<u8>, bits: seq<bool>)
    requires |bits| == TOTAL_BITS && IsSymbol(m, bits)
    ensures |m| == MODULES && R.DataBits(m, 0, 420) == bits
  {
    BitsReadBack(m, bits, 420);
    AllMet();
    Whole(bits);
    hide R.DataBits, Met;
  }

  lemma Whole(bits: seq<bool>)
    requires |bits| == TOTAL_BITS
    ensures bits[..TOTAL_BITS] == bits
  {
  }

  lemma ScanReads(m: seq<u8>, copy: seq<(int, int)>, bits: seq<bool>, code: seq<u8>)
    requires |m| == MODULES && R.IsCopy(copy) && R.FormatOf(m, copy) == 0x23D6 && R.DataBits(m, 0, 420) == bits
    requires QrPayload.ValidCode(code) && |bits| >= 40 && bits[..40] == QrPayload.PayloadBits(code)
    ensures R.Gets(m, copy, code)
  {
    PayloadNumbers(bits, code);
    GroupsAreDigits(bits, code);
    hide R.FormatOf, R.DataBits, R.Decimals, R.Number, R.IsCopy;
  }

  lemma PayloadStarts(code: seq<u8>)
    requires QrPayload.ValidCode(code)
    ensures Stream(Codewords(code))[..40] == QrPayload.PayloadBits(code)
  {
    hide *;
    var all, data := Codewords(code), QrPayload.Payload(code);
    CodewordsExtendPayload(code);
    DataComesFirst(data);
    QrPayload.PayloadIsPayload(code);
    QrPayload.StartOfPayload(data, code);
    StreamPrefix(all, data);
  }

  lemma StreamPrefix(all: seq<u8>, data: seq<u8>)
    requires data <= all
    ensures Stream(data) <= Stream(all)
  {
    forall k | 0 <= k < 8 * |data|
      ensures Stream(data)[k] == Stream(all)[k]
    {
      assert data[k / 8] == all[k / 8];
    }
  }

  lemma GroupsAreDigits(bits: seq<bool>, code: seq<u8>)
    requires QrPayload.ValidCode(code) && |bits| >= 40
    requires R.Number(bits, 14, 10) == QrPayload.Group(code, 0) && R.Number(bits, 24, 10) == QrPayload.Group(code, 1)
    ensures R.Decimals(bits, 14, 6) == Some(code)
  {
    hide R.Number;
    QrPayload.ThreeDigitsOfGroup(code, 0);
    QrPayload.ThreeDigitsOfGroup(code, 1);
    var g0, g1 := QrPayload.Group(code, 0), QrPayload.Group(code, 1);
    assert code[0..3] == QrPayload.ThreeDigits(g0) && code[3..6] == QrPayload.ThreeDigits(g1);
    hide QrPayload.Group;
    assert R.Decimals(bits, 34, 0) == Some([]);
    assert R.Decimals(bits, 24, 3) == Some(QrPayload.ThreeDigits(g1) + []);
    assert R.Decimals(bits, 14, 6) == Some(QrPayload.ThreeDigits(g0) + (QrPayload.ThreeDigits(g1) + []));
    assert code == code[0..3] + (code[3..6] + []);
  }

  /** A damaged symbol with at most three wrong codewords still identifies the code. */
  lemma DamageIsRecoverable(m: seq<u8>, a: seq<u8>, b: seq<u8>)
    requires |m| == MODULES && QrPayload.ValidCode(a) && QrPayload.ValidCode(b)
    requires |CodeDistance.Differences(Codewords(a), ReadCodewords(m))| <= 3
    requires |CodeDistance.Differences(Codewords(b), ReadCodewords(m))| <= 3
    ensures a == b
  {
    hide QrPayload.Payload, QrPayload.ReadDigits, QrPayload.IsPayload, QrPayload.ValidCode;
    hide ReadCodewords, Codewords, CodeDistance.Codeword, CodeDistance.Differences;
    var da, db := QrPayload.Payload(a), QrPayload.Payload(b);
    CodewordsExtendPayload(a);
    CodewordsExtendPayload(b);
    CodeDistance.DecodingIsUnique(da, db, ReadCodewords(m), EC_CODEWORDS, 3);
    QrPayload.PayloadIsPayload(a);
    QrPayload.PayloadIsPayload(b);
    QrPayload.PayloadReadsBack(da, a);
    QrPayload.PayloadReadsBack(db, b);
  }
}
