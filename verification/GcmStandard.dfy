/** The sealing against NIST SP 800-38D, told as the standard tells it: blocks incremented as
  * numbers, GCTR by recursion on the text, lengths read back.
  */
module GcmStandard {
  import opened BigEndian
  import opened BinaryField
  import opened BitStream
  import opened Gcm
  import opened Ghash
  import opened Words

  // ── Counters (sections 6.2 and 7.1) ───────────────────────────────────────

  /** The last 32 bits counted up modulo 2^32, the rest as it was. */
  predicate IsIncrement(x: Block, y: Block) {
    y[..12] == x[..12] && Number(y[12..]) == (Number(x[12..]) + 1) % 0x1_0000_0000
  }

  function Inc32(x: Block): (y: Block) {
    x[..12] + Be4((FromBe4(x[12..]) + 1) % 0x1_0000_0000)
  }

  lemma NumberOfFour(b: seq<u8>)
    requires |b| == 4
    ensures Number(b) == FromBe4(b)
  {
    assert b[..3][..2] == b[..2] && b[..2][..1] == b[..1] && b[..1][..0] == [];
    assert Number(b[..1]) == 256 * Number(b[..1][..0]) + b[0];
    assert Number(b[..2]) == 256 * Number(b[..1]) + b[1];
    assert Number(b[..3]) == 256 * Number(b[..2]) + b[2];
  }

  lemma IncrementIs(x: Block)
    ensures IsIncrement(x, Inc32(x))
  {
    var n := (FromBe4(x[12..]) + 1) % 0x1_0000_0000;
    assert Inc32(x)[12..] == Be4(n) && Inc32(x)[..12] == x[..12];
    Be4ReadsBack(n);
    NumberOfFour(x[12..]);
    NumberOfFour(Inc32(x)[12..]);
  }

  /** The pre-counter block of a 96-bit nonce. */
  function PreCounter(nonce: Nonce): Block {
    nonce + [0, 0, 0, 1]
  }

  // ── GCTR (section 6.5) ────────────────────────────────────────────────────

  /** Each block of the text, the last one possibly short, is XORed with the enciphered counter
    * block, which is then incremented. */
  function Gctr(aes: Cipher, counter: Block, text: seq<u8>): (out: seq<u8>)
    ensures |out| == |text|
    decreases |text|
  {
    if |text| <= 16 then XorFront(text, aes(counter))
    else XorFront(text[..16], aes(counter)) + Gctr(aes, Inc32(counter), text[16..])
  }

  function XorFront(text: seq<u8>, stream: Block): (out: seq<u8>)
    requires |text| <= 16
    ensures |out| == |text|
  {
    seq(|text|, k requires 0 <= k < |text| => XorByte(text[k], stream[k]))
  }

  lemma IncrementCounts(nonce: Nonce, c: u32)
    ensures Inc32(CounterBlock(nonce, c)) == CounterBlock(nonce, (c + 1) % 0x1_0000_0000)
  {
    var x := CounterBlock(nonce, c);
    assert x[..12] == nonce && x[12..] == Be4(c);
    Be4ReadsBack(c);
  }

  /** The keystream from block n of the text on. */
  function CryptedFrom(aes: Cipher, nonce: Nonce, text: seq<u8>, n: nat): (out: seq<u8>)
    ensures |out| == |text|
  {
    seq(|text|, k requires 0 <= k < |text| => XorByte(text[k], KeystreamByte(aes, nonce, 16 * n + k)))
  }

  lemma NextCounterIs(nonce: Nonce, n: nat)
    ensures CounterBlock(nonce, TextCounter(n + 1)) == Inc32(CounterBlock(nonce, TextCounter(n)))
  {
    hide CounterBlock, Inc32;
    IncrementCounts(nonce, TextCounter(n));
    assert (TextCounter(n) + 1) % 0x1_0000_0000 == TextCounter(n + 1);
  }

  lemma {:induction false} CryptedFromIsGctr(aes: Cipher, nonce: Nonce, text: seq<u8>, n: nat)
    ensures CryptedFrom(aes, nonce, text, n) == Gctr(aes, CounterBlock(nonce, TextCounter(n)), text)
    decreases |text|
  {
    hide XorByte, CounterBlock, Inc32;
    var ctr := CounterBlock(nonce, TextCounter(n));
    var out := CryptedFrom(aes, nonce, text, n);
    if |text| <= 16 {
      FirstBlock(aes, nonce, text, n);
    } else {
      FirstBlock(aes, nonce, text[..16], n);
      NextCounterIs(nonce, n);
      hide TextCounter;
      CryptedFromIsGctr(aes, nonce, text[16..], n + 1);
      assert out[..16] == CryptedFrom(aes, nonce, text[..16], n);
      LaterBlocks(aes, nonce, text, n);
      assert out == out[..16] + out[16..];
    }
  }

  lemma FirstBlock(aes: Cipher, nonce: Nonce, text: seq<u8>, n: nat)
    requires |text| <= 16
    ensures CryptedFrom(aes, nonce, text, n) == XorFront(text, aes(CounterBlock(nonce, TextCounter(n))))
  {
    hide XorByte, CounterBlock;
    forall k | 0 <= k < |text|
      ensures CryptedFrom(aes, nonce, text, n)[k] == XorFront(text, aes(CounterBlock(nonce, TextCounter(n))))[k]
    {
      assert (16 * n + k) / 16 == n && (16 * n + k) % 16 == k;
    }
  }

  lemma LaterBlocks(aes: Cipher, nonce: Nonce, text: seq<u8>, n: nat)
    requires |text| > 16
    ensures CryptedFrom(aes, nonce, text, n)[16..] == CryptedFrom(aes, nonce, text[16..], n + 1)
  {
    hide XorByte, CounterBlock, KeystreamByte;
    var a, b := CryptedFrom(aes, nonce, text, n), CryptedFrom(aes, nonce, text[16..], n + 1);
    forall k | 0 <= k < |text| - 16
      ensures a[16..][k] == b[k]
    {
      assert 16 * n + (16 + k) == 16 * (n + 1) + k;
    }
  }

  /** Text is encrypted by GCTR from the block after the pre-counter block, and the tag is the
    * hash encrypted by GCTR from the pre-counter block itself (section 7.1, steps 3 and 6). */
  lemma SealIsStandard(aes: Cipher, nonce: Nonce, plain: seq<u8>)
    ensures var j := PreCounter(nonce);
            var ct := Gctr(aes, Inc32(j), plain);
            && IsIncrement(j, Inc32(j)) && Number(j[12..]) == 1
            && Sealed(aes, nonce, plain) == ct + Gctr(aes, j, GhashOf(aes(seq(16, _ => 0)), ct))
  {
    var j := PreCounter(nonce);
    hide XorByte, Gctr, GhashOf;
    IncrementIs(j);
    assert j[12..] == [0, 0, 0, 1];
    NumberOfFour(j[12..]);
    StartBlocks(nonce);
    CryptedFromIsGctr(aes, nonce, plain, 0);
    assert CryptedFrom(aes, nonce, plain, 0) == Crypted(aes, nonce, plain);
    var ct := Crypted(aes, nonce, plain);
    assert ZeroBlock() == seq(16, _ => 0);
    OneBlock(aes, j, GhashOf(aes(ZeroBlock()), ct));
  }

  lemma StartBlocks(nonce: Nonce)
    ensures CounterBlock(nonce, 1) == PreCounter(nonce)
    ensures CounterBlock(nonce, TextCounter(0)) == Inc32(PreCounter(nonce))
  {
    assert Be4(1) == [0, 0, 0, 1];
    IncrementCounts(nonce, 1);
  }

  lemma OneBlock(aes: Cipher, j: Block, b: Block)
    ensures Gctr(aes, j, b) == XorBlock(b, aes(j))
  {
    hide XorByte;
  }

  /** No counter block is used twice under one nonce, the tag's included, for any text the
    * standard allows (at most 2^32 - 2 blocks). */
  lemma CountersAreDistinct(nonce: Nonce, i: nat, j: nat)
    requires i < j < 0xFFFF_FFFE
    ensures CounterBlock(nonce, TextCounter(i)) != CounterBlock(nonce, TextCounter(j))
    ensures CounterBlock(nonce, TextCounter(i)) != PreCounter(nonce)
    ensures CounterBlock(nonce, TextCounter(j)) != PreCounter(nonce)
  {
    StartBlocks(nonce);
    assert TextCounter(i) != TextCounter(j) && TextCounter(i) != 1 && TextCounter(j) != 1;
    BlockShowsCounter(nonce, TextCounter(i));
    BlockShowsCounter(nonce, TextCounter(j));
    BlockShowsCounter(nonce, 1);
  }

  lemma BlockShowsCounter(nonce: Nonce, c: u32)
    ensures FromBe4(CounterBlock(nonce, c)[12..]) == c
  {
    assert CounterBlock(nonce, c)[12..] == Be4(c);
    Be4ReadsBack(c);
  }

  // ── Hashing (sections 6.3 and 6.4) ────────────────────────────────────────

  const UNIT: Block := [0x80] + seq(15, _ => 0)
  const X: Block := [0x40] + seq(15, _ => 0)

  /** The whole block moved one bit to the right, and 0xE1 folded in for a bit that falls out. */
  predicate IsShifted(b: Block, s: Block) {
    && s[0] == XorByte(b[0] / 2, if b[15] % 2 == 1 then 0xE1 else 0)
    && forall i :: 1 <= i < 16 ==> s[i] == b[i] / 2 + 128 * (b[i - 1] % 2)
  }

  lemma SingleDigits(i: nat)
    requires i < 8
    ensures Digit(0x80, i) == (i == 7) && Digit(0x40, i) == (i == 6) && !Digit(0, i)
  {
    DigitOfZero(i);
    assert !Digit(0x80, 0) && !Digit(0x80, 1) && !Digit(0x80, 2) && !Digit(0x80, 3);
    assert !Digit(0x80, 4) && !Digit(0x80, 5) && !Digit(0x80, 6) && Digit(0x80, 7);
    assert !Digit(0x40, 0) && !Digit(0x40, 1) && !Digit(0x40, 2) && !Digit(0x40, 3);
    assert !Digit(0x40, 4) && !Digit(0x40, 5) && Digit(0x40, 6) && !Digit(0x40, 7);
  }

  lemma ElementOfUnit()
    ensures Element(UNIT) == Monomial(128, 0) && Element(X) == Monomial(128, 1)
  {
    hide Digit;
    forall k | 0 <= k < 128
      ensures Element(UNIT)[k] == (k == 0) && Element(X)[k] == (k == 1)
    {
      SingleDigits(7 - k % 8);
      assert Element(UNIT)[k] == Digit(UNIT[k / 8], 7 - k % 8) && Element(X)[k] == Digit(X[k / 8], 7 - k % 8);
    }
  }

  /** The two products that, with the ring laws, fix all others: the unit block leaves a block as
    * it is, and the block x moves it one bit to the right with the reduction 0xE1. */
  lemma ProductsOfUnitAndX(b: Block)
    ensures Product(b, UNIT) == b
    ensures IsShifted(b, Product(b, X))
  {
    var r, e := Reduction(), Element(b);
    ElementOfUnit();
    ProductCommutes(b, UNIT);
    ProductCommutes(b, X);
    ElementOfProduct(b, UNIT);
    assert Monomial(128, 0) == One(128);
    hide Product, Element, Act, IsShifted;
    ResidueOfReduced(r, e);
    assert Act(r, e, One(128)) == e by { ResidueIs(r, e); }
    ElementInjective(Product(b, UNIT), b);
    ElementOfProduct(X, b);
    ActOfX(r, e);
    ShiftIs(b, Product(b, X));
  }

  lemma ResidueIs(r: seq<bool>, e: seq<bool>)
    requires |r| > 0
    ensures Residue(r, e) == Act(r, e, One(|r|))
  {
  }

  /** b moved one bit to the right. */
  function ShiftedBlock(b: Block): Block {
    seq(16, i requires 0 <= i < 16 => if i == 0 then b[0] / 2 else b[i] / 2 + 128 * (b[i - 1] % 2))
  }

  lemma ShiftIs(b: Block, s: Block)
    requires Element(s) == TimesX(Reduction(), Element(b))
    ensures IsShifted(b, s)
  {
    var t := ShiftedBlock(b);
    ShiftedStream(b, t);
    FoldStream(t, b);
    ElementInjective(s, if b[15] % 2 == 1 then t[0 := XorByte(t[0], 0xE1)] else t);
    BitXorZero(t[0]);
    hide Element, TimesX, BitXor;
  }

  lemma LengthBytes(len: nat, i: nat)
    requires i < 8
    ensures LengthBlock(len)[8 + i] == LowBytes(8 * len, 8)[i]
  {
    LowBytesAt(8 * len, 8, i);
    assert 56 - 8 * i == 8 * (7 - i);
  }

  lemma LengthBlockIs(len: nat)
    ensures var l := LengthBlock(len);
            l[..8] == seq(8, _ => 0) && l[8..] == LowBytes(8 * len, 8)
  {
    var l := LengthBlock(len);
    hide LowBytes, Pow2;
    forall i | 0 <= i < 8
      ensures l[8..][i] == LowBytes(8 * len, 8)[i]
    {
      LengthBytes(len, i);
    }
    assert l[8..] == LowBytes(8 * len, 8);
    assert l[..8] == seq(8, _ => 0);
  }

  /** The hash runs over the ciphertext, cut into blocks with zeros after its end, and one block
    * with the two lengths in bits: none of additional data, and the ciphertext's. */
  lemma HashedIsStandard(ct: seq<u8>)
    ensures var b := HashedBlocks(ct);
            var n := |b| - 1;
            && 16 * (n - 1) < |ct| <= 16 * n
            && (forall i :: 0 <= i < n ==> b[i] == Stretch(ct, i))
            && b[n][..8] == seq(8, _ => 0)
            && (8 * |ct| < Pow2(64) ==> Number(b[n][8..]) == 8 * |ct|)
  {
    hide LengthBlock, LowBytes, Pow2;
    LengthBlockIs(|ct|);
    NumberOfLowBytes(8 * |ct|, 8);
    if 8 * |ct| < Pow2(64) {
      SmallRemainder(8 * |ct|, Pow2(64));
    }
  }

  lemma SmallRemainder(v: nat, p: nat)
    requires v < p
    ensures v % p == v
  {
  }

  /** Sixteen bytes from 16 i on, zeros after the end. */
  function Stretch(ct: seq<u8>, i: nat): seq<u8>
    requires 16 * i < |ct|
  {
    if 16 * i + 16 <= |ct| then ct[16 * i..16 * i + 16] else ct[16 * i..] + seq(16 * i + 16 - |ct|, _ => 0)
  }
}
