/** The byte field of the QR encoder: GF(2)[x] modulo x^8 + x^4 + x^3 + x^2 + 1 (0x11D). */
module Gf256 {
  import opened BinaryField
  import opened Words

  /** x^4 + x^3 + x^2 + 1, coefficient of x^0 first. */
  const REDUCTION: seq<bool> := [true, false, true, true, true, false, false, false]

  /** The field product. */
  function Mul(x: u8, y: u8): u8 {
    ToFromBits(Act(REDUCTION, ToBits(8, x), ToBits(8, y)));
    FromBits(Act(REDUCTION, ToBits(8, x), ToBits(8, y)))
  }

  function Add(x: u8, y: u8): u8 {
    BitXorBound(8, x, y);
    BitXor(x, y)
  }

  lemma XTimeIsTimesX(z: u8)
    ensures BitXor(2 * z, if z >= Pow2(7) then 0x11D else 0) < 0x100
    ensures ToBits(8, BitXor(2 * z, if z >= Pow2(7) then 0x11D else 0)) == TimesX(REDUCTION, ToBits(8, z))
  {
    ModulusBits();
    TopBitOfByte(z);
    FoldTopBit(8, REDUCTION, 0x11D, z);
  }

  lemma TopBitOfByte(z: u8)
    ensures (z / 128) * 0x11D == if z >= Pow2(7) then 0x11D else 0
    ensures 0x11D < Pow2(9) && Pow2(8) == 0x100
  {
    Pow2Values();
  }

  lemma ModulusBits()
    ensures ToBits(9, 0x11D) == Modulus(REDUCTION)
  {
    var v := 0x11D;
    assert Digit(v, 0) && !Digit(v, 1) && Digit(v, 2);
    assert Digit(v, 3) && Digit(v, 4) && !Digit(v, 5);
    assert !Digit(v, 6) && !Digit(v, 7) && Digit(v, 8);
  }

  // ── The multiply loop ─────────────────────────────────────────────────────

  /** The multiply loop of the encoder, on its 16-bit accumulator. */
  method RsMul(x: u8, y: u8) returns (r: u8)
    ensures r == Mul(x, y)
  {
    hide *;
    var z: u16 := 0;
    var i := 7;
    NothingYet(x, y);
    while i >= 0
      invariant -1 <= i <= 7
      invariant z < 0x100
      invariant ToBits(8, z) == Partial(x, y, i + 1)
    {
      ghost var h := z;
      z := ShiftAndFold(z);
      var bit := Shr(y, i) % 2;
      MultiplyStep(h, z, x, y, i);
      ByteTimesBit(bit, x);
      z := BitXor(z, bit * x);
      i := i - 1;
    }
    WholeProduct(x, y, z);
    r := z % 0x100;
  }

  /** What the accumulator holds once digits 7 down to i of y are used. */
  function Partial(x: u8, y: u8, i: nat): (s: seq<bool>)
    requires i <= 8
    ensures |s| == 8
  {
    Act(REDUCTION, ToBits(8, y)[i..], ToBits(8, x))
  }

  lemma NothingYet(x: u8, y: u8)
    ensures ToBits(8, 0) == Partial(x, y, 8)
  {
    ToBitsZero(8);
  }

  lemma ByteTimesBit(bit: nat, x: u8)
    requires bit < 2
    ensures 0 <= bit * x < 0x100
  {
  }

  lemma WholeProduct(x: u8, y: u8, z: u8)
    requires ToBits(8, z) == Partial(x, y, 0)
    ensures z == Mul(x, y)
  {
    assert ToBits(8, y)[0..] == ToBits(8, y);
    MultiplicationCommutes(REDUCTION, ToBits(8, x), ToBits(8, y));
    Pow2Values();
    FromToBits(8, z);
  }

  /** One accumulator shift, in 16 bits: (z << 1) ^ ((z >> 7) * 0x11D). */
  method ShiftAndFold(z: u16) returns (w: u16)
    requires z < 0x100
    ensures w < 0x100
    ensures ToBits(8, w) == TimesX(REDUCTION, ToBits(8, z))
  {
    hide *;
    TopBitOfByte(z);
    XTimeIsTimesX(z);
    var shifted := (2 * z) % 0x1_0000;
    var fold := (z / 128) * 0x11D;
    w := BitXor(shifted, fold);
  }

  lemma MultiplyStep(h: u8, z: u8, x: u8, y: u8, i: nat)
    requires i < 8
    requires ToBits(8, h) == Partial(x, y, i + 1)
    requires ToBits(8, z) == TimesX(REDUCTION, ToBits(8, h))
    ensures BitXor(z, (Shr(y, i) % 2) * x) < 0x100
    ensures ToBits(8, BitXor(z, (Shr(y, i) % 2) * x)) == Partial(x, y, i)
  {
    var ys := ToBits(8, y);
    assert ys[i] == Digit(y, i);
    assert (Shr(y, i) % 2) * x == if ys[i] then x else 0;
    AddBits(z, if ys[i] then x else 0);
    ToBitsZero(8);
    ActHorner(REDUCTION, ys[i..], ToBits(8, x));
    assert ys[i..][1..] == ys[i + 1..];
  }

  lemma AddBits(x: u8, y: u8)
    ensures BitXor(x, y) < 0x100
    ensures ToBits(8, BitXor(x, y)) == Xor(ToBits(8, x), ToBits(8, y))
  {
    BitXorBound(8, x, y);
    ToBitsXor(8, x, y);
  }

  // ── Ring laws on bytes ────────────────────────────────────────────────────

  lemma MulBits(x: u8, y: u8)
    ensures ToBits(8, Mul(x, y)) == Act(REDUCTION, ToBits(8, x), ToBits(8, y))
  {
    ToFromBits(Act(REDUCTION, ToBits(8, x), ToBits(8, y)));
  }

  lemma MulCommutes(x: u8, y: u8)
    ensures Mul(x, y) == Mul(y, x)
  {
    MultiplicationCommutes(REDUCTION, ToBits(8, x), ToBits(8, y));
  }

  lemma MulAssociates(x: u8, y: u8, z: u8)
    ensures Mul(Mul(x, y), z) == Mul(x, Mul(y, z))
  {
    MulBits(x, y);
    MulBits(y, z);
    MultiplicationAssociates(REDUCTION, ToBits(8, x), ToBits(8, y), ToBits(8, z));
  }

  lemma MulDistributes(x: u8, y: u8, z: u8)
    ensures Mul(Add(x, y), z) == Add(Mul(x, z), Mul(y, z))
    ensures Mul(z, Add(x, y)) == Add(Mul(z, x), Mul(z, y))
  {
    var sum := Add(Mul(x, z), Mul(y, z));
    MulBits(Add(x, y), z);
    MulBits(x, z);
    MulBits(y, z);
    ToBitsXor(8, x, y);
    ToBitsXor(8, Mul(x, z), Mul(y, z));
    MultiplicationDistributes(REDUCTION, ToBits(8, x), ToBits(8, y), ToBits(8, z));
    ToBitsInjective(8, Mul(Add(x, y), z), sum);
    MulCommutes(Add(x, y), z);
    MulCommutes(x, z);
    MulCommutes(y, z);
  }

  lemma MulUnits(x: u8)
    ensures Mul(1, x) == x && Mul(x, 1) == x
    ensures Mul(0, x) == 0 && Mul(x, 0) == 0
  {
    MulCommutes(1, x);
    MulCommutes(0, x);
    assert ToBits(8, 1) == One(8) by {
      ToBitsTail(8, 1);
      ToBitsZero(7);
      assert ToBits(8, 1) == [true] + Zero(7);
    }
    ResidueOfReduced(REDUCTION, ToBits(8, x));
    FromToBits(8, x);
    ToBitsZero(8);
    ActZero(REDUCTION, ToBits(8, x));
    FromToBits(8, 0);
  }

  lemma AddLaws(x: u8, y: u8, z: u8)
    ensures Add(x, y) == Add(y, x)
    ensures Add(Add(x, y), z) == Add(x, Add(y, z))
    ensures Add(x, 0) == x && Add(0, x) == x
    ensures Add(x, x) == 0
  {
    BitXorCommutes(x, y);
    BitXorAssociates(x, y, z);
    BitXorZero(x);
  }

  lemma AddZeroMeansEqual(x: u8, y: u8)
    ensures Add(x, y) == 0 <==> x == y
  {
    BitXorCancel(x, y);
    BitXorZero(x);
    BitXorZero(y);
  }

  /** Multiplying by x doubles, and folds 0x11D in when a bit falls out. */
  lemma MulByTwo(z: u8)
    ensures Mul(z, 2) == if z < 0x80 then 2 * z else BitXor(2 * z, 0x11D)
  {
    MulCommutes(z, 2);
    MulBits(2, z);
    XTimeIsTimesX(z);
    TwoIsX();
    hide Act, TimesX, BitXor, Mul, ToBits, FromBits;
    ActOfX(REDUCTION, ToBits(8, z));
    Pow2Values();
    BitXorZero(2 * z);
    ToBitsInjective(8, Mul(2, z), BitXor(2 * z, if z >= Pow2(7) then 0x11D else 0));
  }

  lemma TwoIsX()
    ensures ToBits(8, 2) == Monomial(8, 1)
  {
    assert Digit(2, 1) && !Digit(2, 0);
    forall i: nat | 2 <= i < 8
      ensures !Digit(2, i)
    {
      HighDigits(2, 2, i);
    }
  }
}
