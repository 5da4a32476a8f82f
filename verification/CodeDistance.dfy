/** Error-correcting power of the QR block: any two distinct codewords of at most 26
  * bytes with 7 check bytes differ in at least 8 places.
  *
  * A smaller difference would satisfy one equation for each root of the generator with fewer
  * unknowns than equations, and peeling off one place after the other leaves nothing. So a word
  * with at most half as many wrong bytes as there are checks has one data vector only.
  */
module CodeDistance {
  import opened BinaryField
  import opened Words
  import opened Gf256
  import opened ReedSolomon

  // ── Units of the field, by explicit inverses ──────────────────────────────

  function Mask(i: nat): bv8 {
    if i == 0 then 0x01 else if i == 1 then 0x02 else if i == 2 then 0x04 else if i == 3 then 0x08
    else if i == 4 then 0x10 else if i == 5 then 0x20 else if i == 6 then 0x40 else 0x80
  }

  /** A byte as a bit vector: convenient for evaluating products of constants. */
  predicate At(o: bv8, i: nat) {
    o & Mask(i) != 0
  }

  function Coefficients(o: bv8): (s: seq<bool>)
    ensures |s| == 8
    ensures forall i :: 0 <= i < 8 ==> s[i] == At(o, i)
  {
    seq(8, i requires 0 <= i => At(o, i))
  }

  function Doubled(o: bv8): bv8 {
    (o << 1) ^ (if o & 0x80 != 0 then 0x1D else 0)
  }

  /** Multiplication driven by digits i.. of p. */
  function Product(o: bv8, p: bv8, i: nat): bv8
    requires i <= 8
    decreases 8 - i
  {
    if i == 8 then 0 else (if At(p, i) then o else 0) ^ Doubled(Product(o, p, i + 1))
  }

  lemma SumMask(a: bv8, b: bv8, m: bv8)
    requires m == 1 || m == 2 || m == 4 || m == 8 || m == 16 || m == 32 || m == 64 || m == 128
    ensures ((a ^ b) & m != 0) == ((a & m != 0) != (b & m != 0))
  {
  }

  lemma SumAt(a: bv8, b: bv8, i: nat)
    ensures At(a ^ b, i) == (At(a, i) != At(b, i))
  {
    var m := Mask(i);
    assert m == 1 || m == 2 || m == 4 || m == 8 || m == 16 || m == 32 || m == 64 || m == 128;
    SumMask(a, b, m);
  }

  lemma DoubledMasks(o: bv8)
    ensures ((Doubled(o) & 0x01 != 0) == (o & 0x80 != 0))
    ensures ((Doubled(o) & 0x02 != 0) == (o & 0x01 != 0))
    ensures ((Doubled(o) & 0x04 != 0) == ((o & 0x02 != 0) != (o & 0x80 != 0)))
    ensures ((Doubled(o) & 0x08 != 0) == ((o & 0x04 != 0) != (o & 0x80 != 0)))
    ensures ((Doubled(o) & 0x10 != 0) == ((o & 0x08 != 0) != (o & 0x80 != 0)))
    ensures ((Doubled(o) & 0x20 != 0) == (o & 0x10 != 0))
    ensures ((Doubled(o) & 0x40 != 0) == (o & 0x20 != 0))
    ensures ((Doubled(o) & 0x80 != 0) == (o & 0x40 != 0))
  {
  }

  lemma DoubledAt(o: bv8, i: nat)
    requires i < 8
    ensures At(Doubled(o), i) == ((i > 0 && At(o, i - 1)) != (At(o, 7) && REDUCTION[i]))
  {
    hide Doubled;
    DoubledMasks(o);
  }

  lemma CoefficientsOfSum(o: bv8, p: bv8)
    ensures Coefficients(o ^ p) == Xor(Coefficients(o), Coefficients(p))
  {
    hide At;
    forall i: nat | i < 8
      ensures Coefficients(o ^ p)[i] == Xor(Coefficients(o), Coefficients(p))[i]
    {
      SumAt(o, p, i);
    }
  }

  lemma CoefficientsOfDoubled(o: bv8)
    ensures Coefficients(Doubled(o)) == TimesX(REDUCTION, Coefficients(o))
  {
    hide Doubled, At;
    forall i: nat | i < 8
      ensures Coefficients(Doubled(o))[i] == TimesX(REDUCTION, Coefficients(o))[i]
    {
      DoubledAt(o, i);
    }
  }

  lemma CoefficientsOfNothing()
    ensures Coefficients(0) == Zero(8)
    ensures Coefficients(1) == ToBits(8, 1)
  {
    assert Digit(1, 0);
    forall i: nat | 0 < i < 8
      ensures !Digit(1, i)
    {
      DigitOfZero(i - 1);
      assert Shr(1, i) == Shr(0, i - 1);
    }
  }

  lemma {:induction false} ProductIsAct(o: bv8, p: bv8, i: nat)
    requires i <= 8
    ensures Coefficients(Product(o, p, i)) == Act(REDUCTION, Coefficients(p)[i..], Coefficients(o))
    decreases 8 - i
  {
    hide Doubled, Coefficients, At, TimesX, Xor, ToBits, Mask;
    var s := Coefficients(p)[i..];
    if i == 8 {
      CoefficientsOfNothing();
    } else {
      ProductIsAct(o, p, i + 1);
      CoefficientsOfNothing();
      var acc := Product(o, p, i + 1);
      assert s[1..] == Coefficients(p)[i + 1..];
      ActHorner(REDUCTION, s, Coefficients(o));
      CoefficientsOfDoubled(acc);
      CoefficientsOfSum(if At(p, i) then o else 0, Doubled(acc));
    }
  }

  function PowerOfTwo(d: nat): bv8 {
    if d == 0 then 1 else Doubled(PowerOfTwo(d - 1))
  }

  /** The inverse of alpha^d + 1 for the distances d inside one block. */
  const INVERSES: seq<bv8> :=
    [0, 244, 167, 157, 114, 237, 95, 84, 160, 169, 251, 116, 133,
     228, 192, 138, 103, 220, 38, 99, 242, 233, 180, 210, 2, 142]

  lemma Inverses1To5()
    ensures Product(2 ^ 1, 244, 0) == 1
    ensures Product(4 ^ 1, 167, 0) == 1
    ensures Product(8 ^ 1, 157, 0) == 1
    ensures Product(16 ^ 1, 114, 0) == 1
    ensures Product(32 ^ 1, 237, 0) == 1
  {
  }

  lemma Inverses6To10()
    ensures Product(64 ^ 1, 95, 0) == 1
    ensures Product(128 ^ 1, 84, 0) == 1
    ensures Product(29 ^ 1, 160, 0) == 1
    ensures Product(58 ^ 1, 169, 0) == 1
    ensures Product(116 ^ 1, 251, 0) == 1
  {
  }

  lemma Inverses11To15()
    ensures Product(232 ^ 1, 116, 0) == 1
    ensures Product(205 ^ 1, 133, 0) == 1
    ensures Product(135 ^ 1, 228, 0) == 1
    ensures Product(19 ^ 1, 192, 0) == 1
    ensures Product(38 ^ 1, 138, 0) == 1
  {
  }

  lemma Inverses16To20()
    ensures Product(76 ^ 1, 103, 0) == 1
    ensures Product(152 ^ 1, 220, 0) == 1
    ensures Product(45 ^ 1, 38, 0) == 1
    ensures Product(90 ^ 1, 99, 0) == 1
    ensures Product(180 ^ 1, 242, 0) == 1
  {
  }

  lemma Inverses21To25()
    ensures Product(117 ^ 1, 233, 0) == 1
    ensures Product(234 ^ 1, 180, 0) == 1
    ensures Product(201 ^ 1, 210, 0) == 1
    ensures Product(143 ^ 1, 2, 0) == 1
    ensures Product(3 ^ 1, 142, 0) == 1
  {
  }

  predicate InverseAt(d: nat)
    requires d <= 25
  {
    Product(PowerOfTwo(d) ^ 1, INVERSES[d], 0) == 1
  }

  lemma Powers1To5()
    ensures PowerOfTwo(1) == 2
    ensures PowerOfTwo(2) == 4
    ensures PowerOfTwo(3) == 8
    ensures PowerOfTwo(4) == 16
    ensures PowerOfTwo(5) == 32
  {
  }

  lemma Powers6To10()
    ensures PowerOfTwo(6) == 64
    ensures PowerOfTwo(7) == 128
    ensures PowerOfTwo(8) == 29
    ensures PowerOfTwo(9) == 58
    ensures PowerOfTwo(10) == 116
  {
    Powers1To5();
  }

  lemma Powers11To15()
    ensures PowerOfTwo(11) == 232
    ensures PowerOfTwo(12) == 205
    ensures PowerOfTwo(13) == 135
    ensures PowerOfTwo(14) == 19
    ensures PowerOfTwo(15) == 38
  {
    Powers6To10();
  }

  lemma Powers16To20()
    ensures PowerOfTwo(16) == 76
    ensures PowerOfTwo(17) == 152
    ensures PowerOfTwo(18) == 45
    ensures PowerOfTwo(19) == 90
    ensures PowerOfTwo(20) == 180
  {
    Powers11To15();
  }

  lemma Powers21To25()
    ensures PowerOfTwo(21) == 117
    ensures PowerOfTwo(22) == 234
    ensures PowerOfTwo(23) == 201
    ensures PowerOfTwo(24) == 143
    ensures PowerOfTwo(25) == 3
  {
    Powers16To20();
  }

  lemma InverseTable(d: nat)
    requires 1 <= d <= 25
    ensures InverseAt(d)
  {
    hide Product, PowerOfTwo;
    if d <= 5 {
      Powers1To5();
      Inverses1To5();
    } else if d <= 10 {
      Powers6To10();
      Inverses6To10();
    } else if d <= 15 {
      Powers11To15();
      Inverses11To15();
    } else if d <= 20 {
      Powers16To20();
      Inverses16To20();
    } else {
      Powers21To25();
      Inverses21To25();
    }
  }

  lemma {:induction false} PowerBits(d: nat)
    ensures ToBits(8, Alpha(d)) == Coefficients(PowerOfTwo(d))
  {
    hide Doubled, Coefficients, Mul, ToBits, TimesX;
    if d == 0 {
      CoefficientsOfNothing();
    } else {
      PowerBits(d - 1);
      CoefficientsOfDoubled(PowerOfTwo(d - 1));
      MulByTwo(Alpha(d - 1));
    }
  }

  lemma MulByTwo(v: u8)
    ensures ToBits(8, Mul(v, 2)) == TimesX(REDUCTION, ToBits(8, v))
  {
    hide Mul, Act;
    var s := ToBits(8, v);
    MulBits(v, 2);
    BitsOfTwo();
    ActTimesX(REDUCTION, s, BinaryField.One(8));
    ResidueOfReduced(REDUCTION, s);
  }

  lemma BitsOfTwo()
    ensures ToBits(8, 2) == TimesX(REDUCTION, BinaryField.One(8))
    ensures ToBits(8, 2) == Coefficients(2)
  {
    assert ToBits(8, 1) == BinaryField.One(8) by { CoefficientsOfOne(); }
    ToBitsDouble(8, 1);
    assert ToBits(8, 2) == TimesX(REDUCTION, BinaryField.One(8));
    CoefficientsOfDoubled(1);
    CoefficientsOfNothing();
    assert Doubled(1) == 2;
  }

  lemma CoefficientsOfOne()
    ensures Coefficients(1) == BinaryField.One(8)
    ensures ToBits(8, 1) == BinaryField.One(8)
  {
    CoefficientsOfNothing();
    assert At(1, 0) && !At(1, 1) && !At(1, 2) && !At(1, 3) && !At(1, 4) && !At(1, 5) && !At(1, 6) && !At(1, 7);
  }

  function ByteOf(v: bv8): (w: u8)
    ensures ToBits(8, w) == Coefficients(v)
  {
    ToFromBits(Coefficients(v));
    Pow2Values();
    FromBits(Coefficients(v))
  }

  lemma UnitFromTable(u: bv8, v: bv8, m: u8)
    requires Product(u, v, 0) == 1 && ToBits(8, m) == Coefficients(u)
    ensures Mul(m, ByteOf(v)) == 1
  {
    var w := ByteOf(v);
    hide Product, Coefficients, ToBits, Act, Mul, ByteOf;
    ProductIsAct(u, v, 0);
    assert Coefficients(v)[0..] == Coefficients(v);
    MulBits(w, m);
    MulCommutes(w, m);
    CoefficientsOfNothing();
    Pow2Values();
    ToBitsInjective(8, Mul(m, w), 1);
  }

  /** alpha^d + 1 is a unit for every distance d inside one block, and so is alpha. */
  lemma DifferenceIsUnit(d: nat)
    requires 1 <= d <= 25
    ensures Mul(Add(Alpha(d), 1), ByteOf(INVERSES[d])) == 1
  {
    hide Product, Coefficients, ToBits, Mul, Alpha, ByteOf;
    InverseTable(d);
    PowerBits(d);
    CoefficientsOfNothing();
    CoefficientsOfSum(PowerOfTwo(d), 1);
    AddBits(Alpha(d), 1);
    UnitFromTable(PowerOfTwo(d) ^ 1, INVERSES[d], Add(Alpha(d), 1));
  }

  lemma TwoIsUnit()
    ensures Mul(2, ByteOf(142)) == 1
  {
    hide Product, Coefficients, ToBits, Mul, ByteOf;
    Inverses21To25();
    assert (3 as bv8) ^ 1 == 2;
    BitsOfTwo();
    UnitFromTable(2, 142, 2);
  }

  lemma UnitCancels(v: u8, m: u8, w: u8)
    requires Mul(m, w) == 1 && Mul(v, m) == 0
    ensures v == 0
  {
    hide Mul;
    MulUnits(v);
    MulUnits(w);
    MulAssociates(v, m, w);
  }

  lemma {:induction false} AlphaCancels(v: u8, b: nat)
    requires Mul(v, Alpha(b)) == 0
    ensures v == 0
  {
    hide Mul, ByteOf;
    if b == 0 {
      MulUnits(v);
    } else {
      MulAssociates(v, Alpha(b - 1), 2);
      TwoIsUnit();
      UnitCancels(Mul(v, Alpha(b - 1)), 2, ByteOf(142));
      AlphaCancels(v, b - 1);
    }
  }

  lemma {:induction false} AlphaSum(a: nat, b: nat)
    ensures Mul(Alpha(a), Alpha(b)) == Alpha(a + b)
  {
    hide Mul;
    if b == 0 {
      MulUnits(Alpha(a));
    } else {
      AlphaSum(a, b - 1);
      MulAssociates(Alpha(a), Alpha(b - 1), 2);
    }
  }

  /** Two different places of a block have separated locators. */
  lemma LocatorsSeparate(a: nat, b: nat, v: u8)
    requires b < a <= 25
    requires Mul(v, Add(Alpha(a), Alpha(b))) == 0
    ensures v == 0
  {
    hide Mul, Add, Alpha, ByteOf;
    var d := a - b;
    var m := Add(Alpha(d), 1);
    AlphaSum(d, b);
    MulUnits(Alpha(b));
    MulDistributes(Alpha(d), 1, Alpha(b));
    MulAssociates(v, m, Alpha(b));
    AlphaCancels(Mul(v, m), b);
    DifferenceIsUnit(d);
    UnitCancels(v, m, ByteOf(INVERSES[d]));
  }

  // ── Weight of a word with vanishing syndromes ─────────────────────────────

  /** Each coefficient multiplied by its locator. */
  function Twist(c: seq<u8>): (t: seq<u8>)
    ensures |t| == |c|
  {
    seq(|c|, k requires 0 <= k < |c| => Mul(c[k], Alpha(|c| - 1 - k)))
  }

  lemma TwistFront(c: seq<u8>)
    requires c != []
    ensures Twist(c)[..|c| - 1] == ScalePoly(Twist(c[..|c| - 1]), 2)
    ensures Twist(c)[|c| - 1] == c[|c| - 1]
  {
    hide Mul;
    var n := |c| - 1;
    forall k | 0 <= k < n
      ensures Twist(c)[k] == Mul(Twist(c[..n])[k], 2)
    {
      MulAssociates(c[k], Alpha(n - 1 - k), 2);
    }
    MulUnits(c[n]);
  }

  lemma {:induction false} TwistShiftsSyndromes(c: seq<u8>, j: nat)
    ensures Eval(Twist(c), Alpha(j)) == Eval(c, Alpha(j + 1))
    decreases |c|
  {
    hide Mul, Add, Twist, ScalePoly;
    if c == [] {
    } else {
      var front := c[..|c| - 1];
      var e := Eval(front, Alpha(j + 1));
      TwistFront(c);
      TwistShiftsSyndromes(front, j);
      EvalScaled(Twist(front), 2, Alpha(j));
      MulAssociates(e, 2, Alpha(j));
      MulCommutes(2, Alpha(j));
    }
  }

  /** Removes place p from a word and keeps all other nonzero places. */
  function Peel(c: seq<u8>, p: nat): (t: seq<u8>)
    requires p < |c|
    ensures |t| == |c|
  {
    AddPoly(Twist(c), ScalePoly(c, Alpha(|c| - 1 - p)))
  }

  lemma PeelAt(c: seq<u8>, p: nat, k: nat)
    requires p < |c| && k < |c|
    ensures Peel(c, p)[k] == Mul(c[k], Add(Alpha(|c| - 1 - k), Alpha(|c| - 1 - p)))
  {
    hide Mul, Add, Alpha;
    MulDistributes(Alpha(|c| - 1 - k), Alpha(|c| - 1 - p), c[k]);
  }

  lemma PeelSyndrome(c: seq<u8>, p: nat, j: nat)
    requires p < |c|
    requires Eval(c, Alpha(j)) == 0 && Eval(c, Alpha(j + 1)) == 0
    ensures Eval(Peel(c, p), Alpha(j)) == 0
  {
    hide Mul, Add, Alpha, Eval, Twist;
    var a := Alpha(|c| - 1 - p);
    var t, s := Twist(c), ScalePoly(c, a);
    assert AddLow(t, s) == AddPoly(t, s);
    EvalSum(t, s, Alpha(j));
    TwistShiftsSyndromes(c, j);
    EvalScaled(c, a, Alpha(j));
    MulUnits(a);
    AddLaws(0, 0, 0);
  }

  lemma {:induction false} EvalOfSinglePlace(c: seq<u8>, p: nat)
    requires p < |c|
    requires forall k :: 0 <= k < |c| && k != p ==> c[k] == 0
    ensures Eval(c, 1) == c[p]
    decreases |c|
  {
    hide Mul, Add;
    var n := |c| - 1;
    var front := c[..n];
    MulUnits(Eval(front, 1));
    if p == n {
      assert front == Zeros(n);
      EvalZeros(n, 1);
      AddLaws(c[n], 0, 0);
    } else {
      EvalOfSinglePlace(front, p);
      AddLaws(c[p], 0, 0);
    }
  }

  lemma PeeledPlaceIsZero(c: seq<u8>, p: nat, k: nat)
    requires |c| <= 26 && p < |c| && k < |c| && k != p
    requires Peel(c, p)[k] == 0
    ensures c[k] == 0
  {
    hide Mul, Add, Alpha, Peel;
    var a, b := |c| - 1 - k, |c| - 1 - p;
    PeelAt(c, p, k);
    if a > b {
      LocatorsSeparate(a, b, c[k]);
    } else {
      AddLaws(Alpha(a), Alpha(b), 0);
      LocatorsSeparate(b, a, c[k]);
    }
  }

  /** A word supported on at most w places with w vanishing syndromes is zero. */
  lemma {:induction false} FewPlacesAreZero(c: seq<u8>, places: set<nat>, w: nat)
    requires |c| <= 26 && |places| <= w
    requires forall k :: 0 <= k < |c| && k !in places ==> c[k] == 0
    requires forall j :: 0 <= j < w ==> Eval(c, Alpha(j)) == 0
    ensures forall k :: 0 <= k < |c| ==> c[k] == 0
    decreases w
  {
    hide Mul, Add, Alpha, Eval, Peel;
    if p :| p in places && p < |c| {
      var t := Peel(c, p);
      forall k | 0 <= k < |c| && k !in places - {p}
        ensures t[k] == 0
      {
        PeelAt(c, p, k);
        MulUnits(Add(Alpha(|c| - 1 - k), Alpha(|c| - 1 - p)));
        AddLaws(Alpha(|c| - 1 - p), 0, 0);
        MulUnits(c[k]);
      }
      forall j | 0 <= j < w - 1
        ensures Eval(t, Alpha(j)) == 0
      {
        PeelSyndrome(c, p, j);
      }
      FewPlacesAreZero(t, places - {p}, w - 1);
      forall k | 0 <= k < |c| && k != p
        ensures c[k] == 0
      {
        PeeledPlaceIsZero(c, p, k);
      }
      EvalOfSinglePlace(c, p);
      AlphaZero();
      assert Eval(c, Alpha(0)) == 0;
    }
  }

  lemma AlphaZero()
    ensures Alpha(0) == 1
  {
  }

  // ── The distance theorem ──────────────────────────────────────────────────

  function Codeword(data: seq<u8>, checks: nat): (c: seq<u8>)
    requires checks > 0
    ensures |c| == |data| + checks
  {
    data + Remainder(data, Generator(checks)[1..])
  }

  function Differences(a: seq<u8>, b: seq<u8>): set<nat>
    requires |a| == |b|
  {
    set k: nat | k < |a| && a[k] != b[k]
  }

  /** Distinct data give codewords that differ in more than `checks` places. */
  lemma CodewordsAreFarApart(d1: seq<u8>, d2: seq<u8>, checks: nat)
    requires |d1| == |d2| && d1 != d2 && checks > 0
    requires |d1| + checks <= 26
    ensures |Differences(Codeword(d1, checks), Codeword(d2, checks))| > checks
  {
    var c1, c2 := Codeword(d1, checks), Codeword(d2, checks);
    assert c1[..|d1|] == d1 && c2[..|d1|] == d2;
    if |Differences(c1, c2)| <= checks {
      hide Mul, Add, Alpha, Eval, Remainder, Generator;
      forall j | 0 <= j < checks
        ensures Eval(c1, Alpha(j)) == 0 && Eval(c2, Alpha(j)) == 0
      {
        CodewordRoots(d1, checks, j);
        CodewordRoots(d2, checks, j);
      }
      FewDifferencesMeansEqual(c1, c2, checks);
      assert false;
    }
  }

  lemma FewDifferencesMeansEqual(c1: seq<u8>, c2: seq<u8>, checks: nat)
    requires |c1| == |c2| <= 26
    requires |Differences(c1, c2)| <= checks
    requires forall j :: 0 <= j < checks ==> Eval(c1, Alpha(j)) == 0 && Eval(c2, Alpha(j)) == 0
    ensures c1 == c2
  {
    hide Mul, Add, Alpha, Eval;
    var c := AddPoly(c1, c2);
    forall k | 0 <= k < |c| && k !in Differences(c1, c2)
      ensures c[k] == 0
    {
      AddZeroMeansEqual(c1[k], c2[k]);
    }
    forall j | 0 <= j < checks
      ensures Eval(c, Alpha(j)) == 0
    {
      assert AddLow(c1, c2) == c;
      EvalSum(c1, c2, Alpha(j));
      AddLaws(0, 0, 0);
    }
    FewPlacesAreZero(c, Differences(c1, c2), checks);
    forall k | 0 <= k < |c1|
      ensures c1[k] == c2[k]
    {
      AddZeroMeansEqual(c1[k], c2[k]);
    }
  }

  lemma SubsetSize<T>(a: set<T>, b: set<T>)
    requires a <= b
    ensures |a| <= |b|
  {
    assert b == a + (b - a);
  }

  lemma Triangle(a: seq<u8>, b: seq<u8>, m: seq<u8>)
    requires |a| == |b| == |m|
    ensures |Differences(a, b)| <= |Differences(a, m)| + |Differences(b, m)|
  {
    var s, t := Differences(a, m), Differences(b, m);
    SubsetSize(Differences(a, b), s + t);
  }

  /** A received block within half the check count of two codewords pins down one data
    * vector: up to three damaged bytes of a version 1-L symbol are correctable. */
  lemma DecodingIsUnique(d1: seq<u8>, d2: seq<u8>, received: seq<u8>, checks: nat, errors: nat)
    requires |d1| == |d2| && checks > 0 && |received| == |d1| + checks <= 26
    requires 2 * errors <= checks
    requires |Differences(Codeword(d1, checks), received)| <= errors
    requires |Differences(Codeword(d2, checks), received)| <= errors
    ensures d1 == d2
  {
    hide Codeword;
    if d1 != d2 {
      var c1, c2 := Codeword(d1, checks), Codeword(d2, checks);
      Triangle(c1, c2, received);
      CodewordsAreFarApart(d1, d2, checks);
      assert false;
    }
  }
}
