/** GHASH over GF(2^128) (NIST SP 800-38D, sections 6.3 and 6.4). A block's bits, most
  * significant bit of the first byte first, are the coefficients of x^0, x^1, ... x^127.
  */
module Ghash {
  import opened BinaryField
  import opened BitStream
  import opened Words

  /** x^7 + x^2 + x + 1. */
  function Reduction(): (r: seq<bool>)
    ensures |r| == 128
  {
    seq(128, i => i == 0 || i == 1 || i == 2 || i == 7)
  }

  type Block = b: seq<u8> | |b| == 16 witness seq(16, _ => 0)

  function Element(b: Block): (e: seq<bool>)
    ensures |e| == 128
  {
    Stream(b)
  }

  /** The field product of two blocks. */
  function Product(x: Block, h: Block): Block {
    Bytes(Act(Reduction(), Element(x), Element(h)))
  }

  lemma ElementOfProduct(x: Block, h: Block)
    ensures Element(Product(x, h)) == Act(Reduction(), Element(x), Element(h))
  {
    hide Act;
    StreamOfBytes(Act(Reduction(), Element(x), Element(h)));
  }

  function XorBlock(a: Block, b: Block): Block {
    seq(16, i requires 0 <= i < 16 => XorByte(a[i], b[i]))
  }

  function XorByte(a: u8, b: u8): u8 {
    Pow2Values();
    BitXorBound(8, a, b);
    BitXor(a, b)
  }

  lemma DigitOfXor(a: u8, b: u8, i: nat)
    requires i < 8
    ensures Digit(XorByte(a, b), i) == (Digit(a, i) != Digit(b, i))
  {
    ToBitsXor(8, a, b);
    assert ToBits(8, BitXor(a, b))[i] == Xor(ToBits(8, a), ToBits(8, b))[i];
  }

  lemma ElementOfXor(a: Block, b: Block)
    ensures Element(XorBlock(a, b)) == Xor(Element(a), Element(b))
  {
    hide XorByte, Digit;
    forall k | 0 <= k < 128
      ensures Element(XorBlock(a, b))[k] == (Element(a)[k] != Element(b)[k])
    {
      DigitOfXor(a[k / 8], b[k / 8], 7 - k % 8);
    }
  }

  lemma ElementInjective(a: Block, b: Block)
    requires Element(a) == Element(b)
    ensures a == b
  {
    BytesOfStream(a);
    BytesOfStream(b);
  }

  // ── Algebra of blocks ─────────────────────────────────────────────────────

  lemma ProductAdditive(x: Block, y: Block, h: Block)
    ensures Product(XorBlock(x, y), h) == XorBlock(Product(x, h), Product(y, h))
    ensures Product(h, XorBlock(x, y)) == XorBlock(Product(h, x), Product(h, y))
  {
    hide Element, Product, Act, XorBlock;
    var r := Reduction();
    ElementOfXor(x, y);
    MultiplicationDistributes(r, Element(x), Element(y), Element(h));
    ElementOfProduct(x, h);
    ElementOfProduct(y, h);
    ElementOfProduct(XorBlock(x, y), h);
    ElementOfXor(Product(x, h), Product(y, h));
    ElementInjective(Product(XorBlock(x, y), h), XorBlock(Product(x, h), Product(y, h)));
    ElementOfProduct(h, x);
    ElementOfProduct(h, y);
    ElementOfProduct(h, XorBlock(x, y));
    ElementOfXor(Product(h, x), Product(h, y));
    ElementInjective(Product(h, XorBlock(x, y)), XorBlock(Product(h, x), Product(h, y)));
  }

  lemma ProductCommutes(x: Block, y: Block)
    ensures Product(x, y) == Product(y, x)
  {
    MultiplicationCommutes(Reduction(), Element(x), Element(y));
  }

  lemma ProductAssociates(x: Block, y: Block, z: Block)
    ensures Product(Product(x, y), z) == Product(x, Product(y, z))
  {
    hide Element, Product, Act;
    ElementOfProduct(x, y);
    ElementOfProduct(y, z);
    ElementOfProduct(Product(x, y), z);
    ElementOfProduct(x, Product(y, z));
    MultiplicationAssociates(Reduction(), Element(x), Element(y), Element(z));
    ElementInjective(Product(Product(x, y), z), Product(x, Product(y, z)));
  }

  /** Product is multiplication of polynomials modulo x^128 + x^7 + x^2 + x + 1. */
  lemma ProductIsModular(x: Block, h: Block, m: seq<bool>)
    ensures Element(Product(x, h))
         == Residue(Reduction(), PolyAdd(PolyMul(Element(x), Element(h)), PolyMul(m, Modulus(Reduction()))))
  {
    hide Element, Product, Act;
    ElementOfProduct(x, h);
    MultiplicationIsModular(Reduction(), Element(x), Element(h), m);
  }

  // ── The multiply loop ─────────────────────────────────────────────────────

  /** The digits of (b >> 1) | (c << 7), for the low bit c of the byte before. */
  lemma DigitOfShift(b: u8, c: nat, i: nat)
    requires c <= 1 && i < 8
    ensures b / 2 + 128 * c < 0x100
    ensures Digit(b / 2 + 128 * c, i) == if i == 7 then c == 1 else Digit(b, i + 1)
  {
    Pow2Values();
    var v: nat := b / 2 + 128 * c;
    assert Shr(b, i + 1) == Shr(b / 2, i);
    assert v % 128 == b / 2;
    if i == 7 {
      TopDigit(8, v);
    } else {
      DigitMod(7, v, i);
      hide Shr, Pow2;
    }
  }

  /** v[k] := (v[k] >> 1) | (v[k-1] << 7), from the last byte down. */
  method ShiftRight(v: array<u8>)
    requires v.Length == 16
    modifies v
    ensures forall p :: 0 <= p < 128 ==> Stream(v[..])[p] == (p > 0 && Stream(old(v[..]))[p - 1])
  {
    ghost var before := v[..];
    hide Digit;
    var k := 15;
    while k > 0
      invariant 0 <= k <= 15
      invariant forall j :: 0 <= j <= k ==> v[j] == before[j]
      invariant forall j :: k < j < 16 ==> v[j] == before[j] / 2 + 128 * (before[j - 1] % 2)
    {
      DigitOfShift(v[k], v[k - 1] % 2, 0);
      v[k] := v[k] / 2 + 128 * (v[k - 1] % 2);
      k := k - 1;
    }
    v[0] := v[0] / 2;
    ghost var after := v[..];
    ShiftedStream(before, after);
  }

  lemma ShiftedStream(before: Block, after: Block)
    requires after[0] == before[0] / 2
    requires forall j :: 0 < j < 16 ==> after[j] == before[j] / 2 + 128 * (before[j - 1] % 2)
    ensures forall p :: 0 <= p < 128 ==> Stream(after)[p] == (p > 0 && Stream(before)[p - 1])
  {
    forall p | 0 <= p < 128
      ensures Stream(after)[p] == (p > 0 && Stream(before)[p - 1])
    {
      ShiftedStreamAt(before, after, p);
    }
  }

  lemma ShiftedStreamAt(before: Block, after: Block, p: nat)
    requires p < 128
    requires after[0] == before[0] / 2
    requires forall j :: 0 < j < 16 ==> after[j] == before[j] / 2 + 128 * (before[j - 1] % 2)
    ensures Stream(after)[p] == (p > 0 && Stream(before)[p - 1])
  {
    var j, i := p / 8, 7 - p % 8;
    var c := if j == 0 then 0 else before[j - 1] % 2;
    assert after[j] == before[j] / 2 + 128 * c;
    DigitOfShift(before[j], c, i);
    if j > 0 && i == 7 {
      assert Shr(before[j - 1], 0) == before[j - 1];
      assert (p - 1) / 8 == j - 1 && 7 - (p - 1) % 8 == 0;
    } else if p > 0 {
      hide Digit;
      assert (p - 1) / 8 == j && 7 - (p - 1) % 8 == i + 1;
    }
  }

  /** The reduction byte 0xE1 carries x^0, x^1, x^2 and x^7. */
  lemma ReductionByte(i: nat)
    requires i < 8
    ensures Digit(0xE1, i) == (i == 7 || i == 6 || i == 5 || i == 0)
  {
    assert Digit(0xE1, 0) && !Digit(0xE1, 1) && !Digit(0xE1, 2) && !Digit(0xE1, 3);
    assert !Digit(0xE1, 4) && Digit(0xE1, 5) && Digit(0xE1, 6) && Digit(0xE1, 7);
  }

  lemma FoldStream(shifted: Block, before: Block)
    requires forall p :: 0 <= p < 128 ==> Stream(shifted)[p] == (p > 0 && Stream(before)[p - 1])
    ensures Stream(if before[15] % 2 == 1 then shifted[0 := XorByte(shifted[0], 0xE1)] else shifted)
         == TimesX(Reduction(), Stream(before))
  {
    var lsb := before[15] % 2 == 1;
    var after := if lsb then shifted[0 := XorByte(shifted[0], 0xE1)] else shifted;
    assert Stream(before)[127] == lsb by { assert Shr(before[15], 0) == before[15]; }
    forall p | 0 <= p < 128
      ensures Stream(after)[p] == TimesX(Reduction(), Stream(before))[p]
    {
      FoldStreamAt(shifted, after, lsb, p);
    }
  }

  lemma FoldStreamAt(shifted: Block, after: Block, lsb: bool, p: nat)
    requires p < 128
    requires after == if lsb then shifted[0 := XorByte(shifted[0], 0xE1)] else shifted
    ensures Stream(after)[p] == (Stream(shifted)[p] != (lsb && Reduction()[p]))
  {
    hide Digit, XorByte;
    if p < 8 {
      DigitOfXor(shifted[0], 0xE1, 7 - p);
      ReductionByte(7 - p);
    }
  }

  /** One advance of v: times x. */
  method AdvanceV(v: array<u8>)
    requires v.Length == 16
    modifies v
    ensures Stream(v[..]) == TimesX(Reduction(), Stream(old(v[..])))
  {
    hide Stream, XorByte, TimesX;
    ghost var before := v[..];
    var lsb := v[15] % 2;
    ShiftRight(v);
    ghost var shifted := v[..];
    if lsb != 0 {
      v[0] := XorByte(v[0], 0xE1);
      assert v[..] == shifted[0 := XorByte(shifted[0], 0xE1)];
    }
    FoldStream(shifted, before);
  }

  method XorInto(z: array<u8>, v: array<u8>)
    requires z.Length == v.Length == 16 && z != v
    modifies z
    ensures z[..] == XorBlock(old(z[..]), v[..])
  {
    for k := 0 to 16
      invariant forall j :: 0 <= j < k ==> z[j] == XorByte(old(z[j]), v[j])
      invariant forall j :: k <= j < 16 ==> z[j] == old(z[j])
    {
      z[k] := XorByte(z[k], v[k]);
    }
  }

  /** Accumulator and multiplier once p bits of x have been used. */
  ghost predicate Midway(x: Block, h: Block, z: Block, v: Block, p: nat)
    requires p <= 128
  {
    Xor(Element(z), Act(Reduction(), Element(x)[p..], Element(v))) == Act(Reduction(), Element(x), Element(h))
  }

  lemma MidwayStep(x: Block, h: Block, z: Block, v: Block, z': Block, v': Block, p: nat)
    requires p < 128 && Midway(x, h, z, v, p)
    requires z' == if Element(x)[p] then XorBlock(z, v) else z
    requires Element(v') == TimesX(Reduction(), Element(v))
    ensures Midway(x, h, z', v', p + 1)
  {
    hide Element, XorBlock, TimesX, Reduction;
    var rest := Element(x)[p..];
    assert rest[0] == Element(x)[p] && rest[1..] == Element(x)[p + 1..];
    ElementOfXor(z, v);
    var tail := Act(Reduction(), rest[1..], Element(v'));
    XorRegroup(Element(z), Scale(rest[0], Element(v)), tail);
    assert Xor(Element(z), Zero(128)) == Element(z);
  }

  lemma XorRegroup(a: seq<bool>, b: seq<bool>, c: seq<bool>)
    requires |a| == |b| == |c|
    ensures Xor(a, Xor(b, c)) == Xor(Xor(a, b), c)
  {
  }

  method GhashMul(x: Block, h: Block) returns (out: Block)
    ensures out == Product(x, h)
  {
    hide *;
    var z, v := StartProduct(h);
    MidwayStart(x, h, z[..]);
    for i := 0 to 16
      invariant Midway(x, h, z[..], v[..], 8 * i)
    {
      for j := 0 to 8
        invariant Midway(x, h, z[..], v[..], 8 * i + j)
      {
        UseBit(x, h, z, v, i, j);
      }
    }
    MidwayEnd(x, h, z[..], v[..]);
    out := z[..];
  }

  method StartProduct(h: Block) returns (z: array<u8>, v: array<u8>)
    ensures fresh(z) && fresh(v) && z != v && z.Length == v.Length == 16
    ensures (forall k :: 0 <= k < 16 ==> z[..][k] == 0) && v[..] == h
  {
    z := new u8[16](_ => 0);
    v := new u8[16];
    for i := 0 to 16
      modifies v
      invariant forall k :: 0 <= k < i ==> v[k] == h[k]
    {
      v[i] := h[i];
    }
  }

  method UseBit(x: Block, ghost h: Block, z: array<u8>, v: array<u8>, i: nat, j: nat)
    requires z.Length == v.Length == 16 && z != v && i < 16 && j < 8
    requires Midway(x, h, z[..], v[..], 8 * i + j)
    modifies z, v
    ensures Midway(x, h, z[..], v[..], 8 * i + j + 1)
  {
    hide Midway, XorBlock, TimesX, Digit;
    assert Element(x)[8 * i + j] == Digit(x[i], 7 - j);
    ghost var z0, v0 := z[..], v[..];
    if Digit(x[i], 7 - j) {
      XorInto(z, v);
    }
    ghost var z1 := z[..];
    AdvanceV(v);
    assert z[..] == z1;
    MidwayStep(x, h, z0, v0, z1, v[..], 8 * i + j);
  }

  lemma MidwayStart(x: Block, h: Block, z: Block)
    requires forall k :: 0 <= k < 16 ==> z[k] == 0
    ensures Midway(x, h, z, h, 0)
  {
    assert Element(x)[0..] == Element(x);
    forall k | 0 <= k < 128
      ensures !Element(z)[k]
    {
      DigitOfZero(7 - k % 8);
    }
    hide Act;
    assert Xor(Element(z), Act(Reduction(), Element(x), Element(h))) == Act(Reduction(), Element(x), Element(h));
  }

  lemma MidwayEnd(x: Block, h: Block, z: Block, v: Block)
    requires Midway(x, h, z, v, 128)
    ensures z == Product(x, h)
  {
    var r := Reduction();
    assert Element(x)[128..] == [];
    assert Act(r, [], Element(v)) == Zero(128);
    assert Xor(Element(z), Zero(128)) == Element(z);
    hide Act, Element;
    ElementOfProduct(x, h);
    ElementInjective(z, Product(x, h));
  }

  // ── GHASH ─────────────────────────────────────────────────────────────────

  function ZeroBlock(): Block {
    seq(16, _ => 0)
  }

  /** Number of blocks of a ciphertext, the last one possibly partial. */
  function BlockCount(len: nat): nat {
    (len + 15) / 16
  }

  /** Block i of ct, padded with zeros at the end. */
  function PaddedBlock(ct: seq<u8>, i: nat): Block
    requires 16 * i < |ct|
  {
    seq(16, k requires 0 <= k => if 16 * i + k < |ct| then ct[16 * i + k] else 0)
  }

  /** 64 bits of additional-data length (always 0) and 64 bits of ciphertext length. */
  function LengthBlock(len: nat): Block {
    seq(16, k requires 0 <= k < 16 => if k < 8 then 0 else 8 * len / Pow2(56 - 8 * (k - 8)) % 0x100)
  }

  /** The blocks GHASH runs over: ciphertext, then lengths. */
  function HashedBlocks(ct: seq<u8>): seq<Block> {
    CipherBlocks(ct, BlockCount(|ct|)) + [LengthBlock(|ct|)]
  }

  function CipherBlocks(ct: seq<u8>, n: nat): (b: seq<Block>)
    requires 16 * n < |ct| + 16
    ensures |b| == n
  {
    seq(n, i requires 0 <= i < n => PaddedBlock(ct, i))
  }

  /** The running hash: fold a block in, multiply by h. */
  function Fold(h: Block, blocks: seq<Block>): Block {
    if blocks == [] then ZeroBlock()
    else Product(XorBlock(blocks[|blocks| - 1], Fold(h, blocks[..|blocks| - 1])), h)
  }

  function GhashOf(h: Block, ct: seq<u8>): Block {
    Fold(h, HashedBlocks(ct))
  }

  /** h multiplied by itself n more times. */
  function PowerOf(h: Block, n: nat): Block {
    if n == 0 then h else Product(PowerOf(h, n - 1), h)
  }

  /** X_1 * h^m + X_2 * h^(m-1) + ... + X_m * h, plus e more factors of h on each term. */
  function PolynomialSum(h: Block, blocks: seq<Block>, e: nat): Block {
    if blocks == [] then ZeroBlock()
    else XorBlock(PolynomialSum(h, blocks[..|blocks| - 1], e + 1), Product(blocks[|blocks| - 1], PowerOf(h, e)))
  }

  lemma XorBlockLaws(a: Block, b: Block)
    ensures XorBlock(a, b) == XorBlock(b, a)
    ensures XorBlock(a, ZeroBlock()) == a && XorBlock(ZeroBlock(), a) == a
    ensures XorBlock(a, a) == ZeroBlock()
    ensures XorBlock(XorBlock(a, b), b) == a
  {
    hide BitXor;
    forall k | 0 <= k < 16
      ensures XorByte(a[k], b[k]) == XorByte(b[k], a[k])
      ensures XorByte(a[k], 0) == a[k] && XorByte(0, a[k]) == a[k] && XorByte(a[k], a[k]) == 0
      ensures XorByte(XorByte(a[k], b[k]), b[k]) == a[k]
    {
      BitXorCommutes(a[k], b[k]);
      BitXorZero(a[k]);
      BitXorCancel(a[k], b[k]);
    }
  }

  lemma ProductOfZero(h: Block)
    ensures Product(ZeroBlock(), h) == ZeroBlock()
  {
    hide Product, XorBlock, ZeroBlock;
    ProductAdditive(ZeroBlock(), ZeroBlock(), h);
    XorBlockLaws(ZeroBlock(), ZeroBlock());
    XorBlockLaws(Product(ZeroBlock(), h), Product(ZeroBlock(), h));
  }

  /** Multiplying the whole sum by h raises every exponent. */
  lemma {:induction false} SumTimesH(h: Block, blocks: seq<Block>, e: nat)
    ensures Product(PolynomialSum(h, blocks, e), h) == PolynomialSum(h, blocks, e + 1)
    decreases |blocks|
  {
    hide Product, XorBlock;
    if blocks == [] {
      ProductOfZero(h);
    } else {
      var front, last := blocks[..|blocks| - 1], blocks[|blocks| - 1];
      ProductAdditive(PolynomialSum(h, front, e + 1), Product(last, PowerOf(h, e)), h);
      SumTimesH(h, front, e + 1);
      ProductAssociates(last, PowerOf(h, e), h);
    }
  }

  /** The hash is the polynomial in h with the blocks as coefficients, first block highest. */
  lemma {:induction false} HashIsPolynomial(h: Block, blocks: seq<Block>)
    ensures Fold(h, blocks) == PolynomialSum(h, blocks, 0)
    decreases |blocks|
  {
    hide Product, XorBlock;
    if blocks != [] {
      var front, last := blocks[..|blocks| - 1], blocks[|blocks| - 1];
      HashIsPolynomial(h, front);
      ProductAdditive(last, Fold(h, front), h);
      SumTimesH(h, front, 0);
      XorBlockLaws(Product(last, h), Product(Fold(h, front), h));
    }
  }

  method Ghash(h: Block, ct: seq<u8>) returns (out: Block)
    ensures out == GhashOf(h, ct)
    ensures out == PolynomialSum(h, HashedBlocks(ct), 0)
  {
    hide Product, XorBlock, Fold, PaddedBlock;
    var y: Block := ZeroBlock();
    var off := 0;
    ghost var done := 0;
    FoldSteps(h, ct, 0);
    while off < |ct|
      invariant off == if 16 * done < |ct| then 16 * done else |ct|
      invariant 16 * done < |ct| + 16
      invariant y == Fold(h, CipherBlocks(ct, done))
    {
      var n := if |ct| - off > 16 then 16 else |ct| - off;
      var blk := LoadBlock(ct, off, n);
      FoldSteps(h, ct, done);
      y := GhashMul(XorBlock(blk, y), h);
      off := off + n;
      done := done + 1;
    }
    assert done == BlockCount(|ct|);
    FoldLengths(h, ct);
    out := GhashMul(XorBlock(LengthBlock(|ct|), y), h);
    HashIsPolynomial(h, HashedBlocks(ct));
  }

  lemma FoldSteps(h: Block, ct: seq<u8>, n: nat)
    requires 16 * n < |ct| + 16
    ensures n == 0 ==> Fold(h, CipherBlocks(ct, n)) == ZeroBlock()
    ensures 16 * n < |ct| ==>
              Fold(h, CipherBlocks(ct, n + 1)) == Product(XorBlock(PaddedBlock(ct, n), Fold(h, CipherBlocks(ct, n))), h)
  {
    hide Product, XorBlock, PaddedBlock;
    if 16 * n < |ct| {
      assert CipherBlocks(ct, n + 1)[..n] == CipherBlocks(ct, n);
    }
  }

  lemma FoldLengths(h: Block, ct: seq<u8>)
    ensures GhashOf(h, ct)
         == Product(XorBlock(LengthBlock(|ct|), Fold(h, CipherBlocks(ct, BlockCount(|ct|)))), h)
  {
    hide Product, XorBlock, LengthBlock, CipherBlocks;
    var b := HashedBlocks(ct);
    assert b[..|b| - 1] == CipherBlocks(ct, BlockCount(|ct|));
  }

  method LoadBlock(ct: seq<u8>, off: nat, n: nat) returns (blk: Block)
    requires off % 16 == 0 && off < |ct| && n == if |ct| - off > 16 then 16 else |ct| - off
    ensures blk == PaddedBlock(ct, off / 16)
  {
    var a := new u8[16];
    for i := 0 to 16
      invariant forall k :: 0 <= k < i ==> a[k] == if k < n then ct[off + k] else 0
    {
      a[i] := if i < n then ct[off + i] else 0;
    }
    blk := a[..];
  }
}
