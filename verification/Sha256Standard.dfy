/** The six functions of the hash as section 4.1.2 of FIPS 180-4 writes them, on 32-bit machine
  * words, against the ones the models compute with, on every input; and the padding of section
  * 5.1.1 with the message's length at its end.
  */
module Sha256Standard {
  import opened BigEndian
  import opened MachineWords
  import opened Words
  import S = Sha256

  // ── Functions (section 4.1.2) ─────────────────────────────────────────────

  function Ch(x: word, y: word, z: word): word {
    (x & y) ^ (!x & z)
  }

  function Maj(x: word, y: word, z: word): word {
    (x & y) ^ (x & z) ^ (y & z)
  }

  function Xor3(x: word, y: word, z: word): word {
    XorOf(XorOf(x, y), z)
  }

  function BigSigma0(x: word): word {
    Xor3(Rotr(x, 2), Rotr(x, 13), Rotr(x, 22))
  }

  function BigSigma1(x: word): word {
    Xor3(Rotr(x, 6), Rotr(x, 11), Rotr(x, 25))
  }

  function SmallSigma0(x: word): word {
    Xor3(Rotr(x, 7), Rotr(x, 18), x >> 3)
  }

  function SmallSigma1(x: word): word {
    Xor3(Rotr(x, 17), Rotr(x, 19), x >> 10)
  }

  // ── Choice and majority ───────────────────────────────────────────────────

  lemma ChoiceBit(x: word, y: word, z: word, m: word)
    requires m != 0 && m & (m - 1) == 0
    ensures (((x & y) ^ (!x & z)) & m != 0) == if x & m != 0 then y & m != 0 else z & m != 0
  {
  }

  lemma MajorityBit(x: word, y: word, z: word, m: word)
    requires m != 0 && m & (m - 1) == 0
    ensures (((x & y) ^ (x & z) ^ (y & z)) & m != 0) ==
            if x & m != 0 then y & m != 0 || z & m != 0 else y & m != 0 && z & m != 0
  {
  }

  lemma BitOfCh(x: word, y: word, z: word, m: word)
    requires OneBit(m)
    ensures Has(Ch(x, y, z), m) == if Has(x, m) then Has(y, m) else Has(z, m)
  {
    ChoiceBit(x, y, z, m);
  }

  lemma BitOfMaj(x: word, y: word, z: word, m: word)
    requires OneBit(m)
    ensures Has(Maj(x, y, z), m) == if Has(x, m) then Has(y, m) || Has(z, m) else Has(y, m) && Has(z, m)
  {
    MajorityBit(x, y, z, m);
  }

  lemma ChAgrees(x: word, y: word, z: word)
    ensures S.Ch(Value(x), Value(y), Value(z)) == Value(Ch(x, y, z))
    ensures S.Maj(Value(x), Value(y), Value(z)) == Value(Maj(x, y, z))
  {
    hide Value, Digit, Has, OneBit, Mask, Ch, Maj;
    forall i: nat | i < 32
      ensures Digit(S.Ch(Value(x), Value(y), Value(z)), i) == Bit(Ch(x, y, z), i)
      ensures Digit(S.Maj(Value(x), Value(y), Value(z)), i) == Bit(Maj(x, y, z), i)
    {
      S.DigitOfChoice(Value(x), Value(y), Value(z), i);
      ValueDigit(x, i);
      ValueDigit(y, i);
      ValueDigit(z, i);
      MaskIsOneBit(i);
      BitOfCh(x, y, z, Mask(i));
      BitOfMaj(x, y, z, Mask(i));
    }
    hide S.Ch, S.Maj;
    SameValue(S.Ch(Value(x), Value(y), Value(z)), Ch(x, y, z));
    SameValue(S.Maj(Value(x), Value(y), Value(z)), Maj(x, y, z));
  }

  // ── Sums of rotations ─────────────────────────────────────────────────────

  /** The models rotate numbers as the standard rotates words. */
  lemma RotrAgrees(x: word, n: nat)
    requires n <= 32
    ensures S.Rotr(Value(x), n) == Value(Rotr(x, n))
  {
    hide Value, Digit, Bit, Rotr;
    forall i: nat | i < 32
      ensures Digit(S.Rotr(Value(x), n), i) == Bit(Rotr(x, n), i)
    {
      S.DigitOfRotation(Value(x), n, i);
      ValueDigit(x, if i + n < 32 then i + n else i + n - 32);
      BitOfRotr(x, n, i);
      if i + n >= 32 {
        BitRound(x, i + n - 32);
      }
    }
    hide S.Rotr;
    SameValue(S.Rotr(Value(x), n), Rotr(x, n));
  }

  lemma BitRound(x: word, i: nat)
    ensures Bit(x, i + 32) == Bit(x, i)
  {
    MaskRound(i);
  }

  lemma ThreeXored(x: word, y: word, z: word)
    ensures BitXor(BitXor(Value(x), Value(y)), Value(z)) == Value(Xor3(x, y, z))
  {
    hide Value, BitXor, XorOf;
    ValueOfXor(x, y);
    ValueOfXor(XorOf(x, y), z);
  }

  lemma BigSigmasAgree(x: word)
    ensures S.BigSigma0(Value(x)) == Value(BigSigma0(x)) && S.BigSigma1(Value(x)) == Value(BigSigma1(x))
  {
    hide Value, BitXor, Xor3, Rotr, S.Rotr;
    RotrAgrees(x, 2);
    RotrAgrees(x, 13);
    RotrAgrees(x, 22);
    RotrAgrees(x, 6);
    RotrAgrees(x, 11);
    RotrAgrees(x, 25);
    ThreeXored(Rotr(x, 2), Rotr(x, 13), Rotr(x, 22));
    ThreeXored(Rotr(x, 6), Rotr(x, 11), Rotr(x, 25));
  }

  function Halved(x: word, n: nat): word {
    if n == 0 then x else Half(Halved(x, n - 1))
  }

  lemma HalvingsShift(x: word)
    ensures Half(Half(Half(x))) == x >> 3
    ensures Half(Half(Half(Half(Half(Half(Half(Half(Half(Half(x)))))))))) == x >> 10
  {
  }

  lemma ShiftsAreHalvings(x: word)
    ensures Halved(x, 3) == x >> 3 && Halved(x, 10) == x >> 10
  {
    HalvingsShift(x);
    hide Half;
    assert Halved(x, 1) == Half(Halved(x, 0));
    assert Halved(x, 2) == Half(Halved(x, 1));
    assert Halved(x, 3) == Half(Halved(x, 2));
    assert Halved(x, 4) == Half(Halved(x, 3));
    assert Halved(x, 5) == Half(Halved(x, 4));
    assert Halved(x, 6) == Half(Halved(x, 5));
    assert Halved(x, 7) == Half(Halved(x, 6));
    assert Halved(x, 8) == Half(Halved(x, 7));
    assert Halved(x, 9) == Half(Halved(x, 8));
    assert Halved(x, 10) == Half(Halved(x, 9));
    assert Halved(x, 0) == x;
  }

  lemma {:induction false} ValueHalved(x: word, n: nat)
    ensures Value(Halved(x, n)) == Quot(Value(x), Pow2(n))
  {
    hide Value, Half;
    if n == 0 {
      assert Pow2(0) == 1;
    } else {
      ValueHalved(x, n - 1);
      ValueOfHalf(Halved(x, n - 1));
      QuotTwice(Value(x), Pow2(n - 1));
    }
  }

  lemma QuotTwice(v: nat, p: nat)
    requires p > 0
    ensures Quot(v, 2 * p) == Quot(v, p) / 2
  {
    DivMod(v, p);
    HalvedTwice(v, p, v / p, v % p);
  }

  lemma HalvedTwice(v: nat, p: nat, q: nat, m: nat)
    requires p > 0 && m < p && v == q * p + m
    ensures v / (2 * p) == q / 2
  {
    var h, r := q / 2, q % 2;
    assert q == 2 * h + r;
    assert q * p == h * (2 * p) + r * p;
    assert r == 0 || r == 1;
    ModUnique(v, 2 * p, h, r * p + m);
  }

  lemma SmallSigmasAgree(x: word)
    ensures S.SmallSigma0(Value(x)) == Value(SmallSigma0(x)) && S.SmallSigma1(Value(x)) == Value(SmallSigma1(x))
  {
    ShiftsAreHalvings(x);
    Powers();
    hide Value, BitXor, Xor3, Rotr, S.Rotr, Half, Halved, Pow2;
    RotrAgrees(x, 7);
    RotrAgrees(x, 18);
    RotrAgrees(x, 17);
    RotrAgrees(x, 19);
    ValueHalved(x, 3);
    ValueHalved(x, 10);
    ThreeXored(Rotr(x, 7), Rotr(x, 18), Halved(x, 3));
    ThreeXored(Rotr(x, 17), Rotr(x, 19), Halved(x, 10));
  }

  lemma Powers()
    ensures Pow2(3) == 8 && Pow2(10) == 1024
  {
    assert Pow2(5) == 32;
  }

  /** On every input the models' functions are the standard's: every number is some word's. */
  lemma FunctionsAgree(v: u32, w: u32, z: u32)
    ensures var (x, y, t) := (WordOf(v), WordOf(w), WordOf(z));
            && v == Value(x) && w == Value(y) && z == Value(t)
            && S.Ch(v, w, z) == Value(Ch(x, y, t)) && S.Maj(v, w, z) == Value(Maj(x, y, t))
            && S.BigSigma0(v) == Value(BigSigma0(x)) && S.BigSigma1(v) == Value(BigSigma1(x))
            && S.SmallSigma0(v) == Value(SmallSigma0(x)) && S.SmallSigma1(v) == Value(SmallSigma1(x))
  {
    hide *;
    ValueOfWord(v);
    ValueOfWord(w);
    ValueOfWord(z);
    ChAgrees(WordOf(v), WordOf(w), WordOf(z));
    BigSigmasAgree(WordOf(v));
    SmallSigmasAgree(WordOf(v));
  }

  // ── Padding (section 5.1.1) ───────────────────────────────────────────────

  lemma Pow64()
    ensures Pow2(64) == S.TWO_64
  {
    Pow2Values();
    EightDoublings(32);
    EightDoublings(40);
    EightDoublings(48);
    EightDoublings(56);
  }

  lemma LengthBytes(v: nat)
    ensures S.Be64(v) == LowBytes(v, 8)
  {
    forall i | 0 <= i < 8
      ensures S.Be64(v)[i] == LowBytes(v, 8)[i]
    {
      LowBytesAt(v, 8, i);
      assert 56 - 8 * i == 8 * (7 - i);
    }
  }

  lemma LengthReadsBack(len: nat)
    ensures Number(S.Be64(S.BitLength(len))) == 8 * len % 0x1_0000_0000_0000_0000
  {
    hide S.Be64, LowBytes, Pow2, Number;
    Pow64();
    LengthBytes(S.BitLength(len));
    NumberOfLowBytes(S.BitLength(len), 8);
  }

  lemma PaddingShape(m: seq<u8>)
    ensures var p := S.Padded(m);
            |p| % 64 == 0 && |m| + 9 <= |p| < |m| + 9 + 64 && p[|p| - 8..] == S.Be64(S.BitLength(|m|))
  {
    hide S.Be64, S.BitLength, Zeros;
    S.WholePadding(|m|);
  }

  /** The message, the bit 1, as few zeros as fill whole blocks, and the message's length in bits as
    * a 64-bit number. */
  lemma PaddingIsStandard(m: seq<u8>)
    ensures var p := S.Padded(m);
            && |p| % 64 == 0 && |m| + 9 <= |p| < |m| + 9 + 64
            && p[..|m|] == m && p[|m|] == 0x80 && (forall i :: |m| < i < |p| - 8 ==> p[i] == 0)
            && Number(p[|p| - 8..]) == 8 * |m| % 0x1_0000_0000_0000_0000
  {
    hide *;
    PaddingShape(m);
    S.LastOne(m, S.Padded(m));
    LengthReadsBack(|m|);
  }
}
