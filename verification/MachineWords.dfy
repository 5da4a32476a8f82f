/** 32-bit machine words against the numbers the models compute with: bitwise operations, rotations,
  * shifts and sums come to the same.
  *
  * A word's number is the sum of its bits' powers of two, every number below 2^32 is some word's,
  * and a word that is written down evaluates to its number.
  */
module MachineWords {
  import opened BinaryField
  import opened Words

  type word = bv32

  // ── Bits of a word ────────────────────────────────────────────────────────

  /** The word with bit i alone, counting round. */
  function Mask(i: nat): word {
    if i == 0 then 1 else Next(Mask(i - 1))
  }

  function Next(m: word): word {
    (m << 1) | (m >> 31)
  }

  predicate Has(x: word, m: word) {
    x & m != 0
  }

  predicate OneBit(m: word) {
    m != 0 && m & (m - 1) == 0
  }

  predicate Bit(x: word, i: nat) {
    Has(x, Mask(i))
  }

  lemma {:induction false} MaskIsOneBit(i: nat)
    ensures OneBit(Mask(i))
  {
    hide Next;
    if i > 0 {
      MaskIsOneBit(i - 1);
      RotatedBit(Mask(i - 1));
    }
  }

  lemma RotatedBit(m: word)
    requires OneBit(m)
    ensures OneBit(Next(m))
  {
  }

  /** Below bit 31 the next mask is the double. */
  lemma LowMasks(i: nat)
    requires i < 31
    ensures Mask(i) <= 0x4000_0000 && (i < 29 ==> Mask(i) < 0x2000_0000) && (i < 22 ==> Mask(i) < 0x40_0000)
    ensures i >= 22 ==> Mask(i) >= 0x40_0000
    ensures i >= 29 ==> Mask(i) >= 0x2000_0000
  {
    match i
    case 0 => assert Mask(0) == 0x1;
    case 1 => assert Mask(1) == 0x2;
    case 2 => assert Mask(2) == 0x4;
    case 3 => assert Mask(3) == 0x8;
    case 4 => assert Mask(4) == 0x10;
    case 5 => assert Mask(5) == 0x20;
    case 6 => assert Mask(6) == 0x40;
    case 7 => assert Mask(7) == 0x80;
    case 8 => assert Mask(8) == 0x100;
    case 9 => assert Mask(9) == 0x200;
    case 10 => assert Mask(10) == 0x400;
    case 11 => assert Mask(11) == 0x800;
    case 12 => assert Mask(12) == 0x1000;
    case 13 => assert Mask(13) == 0x2000;
    case 14 => assert Mask(14) == 0x4000;
    case 15 => assert Mask(15) == 0x8000;
    case 16 => assert Mask(16) == 0x10000;
    case 17 => assert Mask(17) == 0x20000;
    case 18 => assert Mask(18) == 0x40000;
    case 19 => assert Mask(19) == 0x80000;
    case 20 => assert Mask(20) == 0x100000;
    case 21 => assert Mask(21) == 0x200000;
    case 22 => assert Mask(22) == 0x400000;
    case 23 => assert Mask(23) == 0x800000;
    case 24 => assert Mask(24) == 0x1000000;
    case 25 => assert Mask(25) == 0x2000000;
    case 26 => assert Mask(26) == 0x4000000;
    case 27 => assert Mask(27) == 0x8000000;
    case 28 => assert Mask(28) == 0x10000000;
    case 29 => assert Mask(29) == 0x20000000;
    case 30 => assert Mask(30) == 0x40000000;
  }

  lemma TopMask()
    ensures Mask(31) == 0x8000_0000 && Mask(32) == 1
  {
    assert Mask(8) == 0x100 && Mask(16) == 0x1_0000 && Mask(24) == 0x100_0000;
  }

  function Bits(x: word): (s: seq<bool>)
    ensures |s| == 32
    ensures forall i :: 0 <= i < 32 ==> s[i] == Bit(x, i)
  {
    seq(32, i requires 0 <= i => Bit(x, i))
  }

  /** Eight bits as a number, lowest first. */
  function Octet(b0: bool, b1: bool, b2: bool, b3: bool, b4: bool, b5: bool, b6: bool, b7: bool): u8 {
    (if b0 then 1 else 0) + (if b1 then 2 else 0) + (if b2 then 4 else 0) + (if b3 then 8 else 0)
    + (if b4 then 16 else 0) + (if b5 then 32 else 0) + (if b6 then 64 else 0) + (if b7 then 128 else 0)
  }

  /** The number a word stands for. */
  function Value(x: word): u32 {
    var o0, o1 := Octet(x & 0x1 != 0, x & 0x2 != 0, x & 0x4 != 0, x & 0x8 != 0,
                        x & 0x10 != 0, x & 0x20 != 0, x & 0x40 != 0, x & 0x80 != 0),
                  Octet(x & 0x100 != 0, x & 0x200 != 0, x & 0x400 != 0, x & 0x800 != 0,
                        x & 0x1000 != 0, x & 0x2000 != 0, x & 0x4000 != 0, x & 0x8000 != 0);
    var o2, o3 := Octet(x & 0x10000 != 0, x & 0x20000 != 0, x & 0x40000 != 0, x & 0x80000 != 0,
                        x & 0x100000 != 0, x & 0x200000 != 0, x & 0x400000 != 0, x & 0x800000 != 0),
                  Octet(x & 0x1000000 != 0, x & 0x2000000 != 0, x & 0x4000000 != 0, x & 0x8000000 != 0,
                        x & 0x10000000 != 0, x & 0x20000000 != 0, x & 0x40000000 != 0, x & 0x80000000 != 0);
    o0 + 0x100 * o1 + 0x1_0000 * o2 + 0x100_0000 * o3
  }

  /** The same written out, which is quicker to evaluate. */
  function Flat(x: word): int {
    ((if x & 0x1 != 0 then 1 else 0) + (if x & 0x2 != 0 then 2 else 0)
     + (if x & 0x4 != 0 then 4 else 0) + (if x & 0x8 != 0 then 8 else 0)
     + (if x & 0x10 != 0 then 16 else 0) + (if x & 0x20 != 0 then 32 else 0)
     + (if x & 0x40 != 0 then 64 else 0) + (if x & 0x80 != 0 then 128 else 0))
    + 0x100 *
      ((if x & 0x100 != 0 then 1 else 0) + (if x & 0x200 != 0 then 2 else 0)
       + (if x & 0x400 != 0 then 4 else 0) + (if x & 0x800 != 0 then 8 else 0)
       + (if x & 0x1000 != 0 then 16 else 0) + (if x & 0x2000 != 0 then 32 else 0)
       + (if x & 0x4000 != 0 then 64 else 0) + (if x & 0x8000 != 0 then 128 else 0))
    + 0x1_0000 *
      ((if x & 0x10000 != 0 then 1 else 0) + (if x & 0x20000 != 0 then 2 else 0)
       + (if x & 0x40000 != 0 then 4 else 0) + (if x & 0x80000 != 0 then 8 else 0)
       + (if x & 0x100000 != 0 then 16 else 0) + (if x & 0x200000 != 0 then 32 else 0)
       + (if x & 0x400000 != 0 then 64 else 0) + (if x & 0x800000 != 0 then 128 else 0))
    + 0x100_0000 *
      ((if x & 0x1000000 != 0 then 1 else 0) + (if x & 0x2000000 != 0 then 2 else 0)
       + (if x & 0x4000000 != 0 then 4 else 0) + (if x & 0x8000000 != 0 then 8 else 0)
       + (if x & 0x10000000 != 0 then 16 else 0) + (if x & 0x20000000 != 0 then 32 else 0)
       + (if x & 0x40000000 != 0 then 64 else 0) + (if x & 0x80000000 != 0 then 128 else 0))
  }

  lemma FlatIsValue(x: word)
    ensures Flat(x) == Value(x)
  {
  }

  lemma Eight(s: seq<bool>)
    requires |s| >= 8
    ensures FromBits(s) == Octet(s[0], s[1], s[2], s[3], s[4], s[5], s[6], s[7]) + 256 * FromBits(s[8..])
  {
    Four(s);
    Four(s[4..]);
    hide FromBits;
    assert s[4..][4..] == s[8..];
  }

  lemma Four(s: seq<bool>)
    requires |s| >= 4
    ensures FromBits(s) ==
            (if s[0] then 1 else 0) + (if s[1] then 2 else 0) + (if s[2] then 4 else 0) + (if s[3] then 8 else 0)
            + 16 * FromBits(s[4..])
  {
    assert s[1..][1..] == s[2..] && s[2..][1..] == s[3..] && s[3..][1..] == s[4..];
    assert FromBits(s[1..]) == (if s[1] then 1 else 0) + 2 * FromBits(s[2..]);
    assert FromBits(s[2..]) == (if s[2] then 1 else 0) + 2 * FromBits(s[3..]);
    assert FromBits(s[3..]) == (if s[3] then 1 else 0) + 2 * FromBits(s[4..]);
  }

  lemma Masks()
    ensures Mask(0) == 0x1 && Mask(1) == 0x2 && Mask(2) == 0x4 && Mask(3) == 0x8
    ensures Mask(4) == 0x10 && Mask(5) == 0x20 && Mask(6) == 0x40 && Mask(7) == 0x80
    ensures Mask(8) == 0x100 && Mask(9) == 0x200 && Mask(10) == 0x400 && Mask(11) == 0x800
    ensures Mask(12) == 0x1000 && Mask(13) == 0x2000 && Mask(14) == 0x4000 && Mask(15) == 0x8000
    ensures Mask(16) == 0x10000 && Mask(17) == 0x20000 && Mask(18) == 0x40000 && Mask(19) == 0x80000
    ensures Mask(20) == 0x100000 && Mask(21) == 0x200000 && Mask(22) == 0x400000 && Mask(23) == 0x800000
    ensures Mask(24) == 0x1000000 && Mask(25) == 0x2000000 && Mask(26) == 0x4000000 && Mask(27) == 0x8000000
    ensures Mask(28) == 0x10000000 && Mask(29) == 0x20000000 && Mask(30) == 0x40000000 && Mask(31) == 0x80000000
  {
    assert Mask(8) == 0x100;
    assert Mask(16) == 0x1_0000;
    assert Mask(24) == 0x100_0000;
  }

  lemma BitsAre(x: word)
    ensures Bit(x, 0) == (x & 0x1 != 0) && Bit(x, 1) == (x & 0x2 != 0)
    ensures Bit(x, 2) == (x & 0x4 != 0) && Bit(x, 3) == (x & 0x8 != 0)
    ensures Bit(x, 4) == (x & 0x10 != 0) && Bit(x, 5) == (x & 0x20 != 0)
    ensures Bit(x, 6) == (x & 0x40 != 0) && Bit(x, 7) == (x & 0x80 != 0)
    ensures Bit(x, 8) == (x & 0x100 != 0) && Bit(x, 9) == (x & 0x200 != 0)
    ensures Bit(x, 10) == (x & 0x400 != 0) && Bit(x, 11) == (x & 0x800 != 0)
    ensures Bit(x, 12) == (x & 0x1000 != 0) && Bit(x, 13) == (x & 0x2000 != 0)
    ensures Bit(x, 14) == (x & 0x4000 != 0) && Bit(x, 15) == (x & 0x8000 != 0)
    ensures Bit(x, 16) == (x & 0x10000 != 0) && Bit(x, 17) == (x & 0x20000 != 0)
    ensures Bit(x, 18) == (x & 0x40000 != 0) && Bit(x, 19) == (x & 0x80000 != 0)
    ensures Bit(x, 20) == (x & 0x100000 != 0) && Bit(x, 21) == (x & 0x200000 != 0)
    ensures Bit(x, 22) == (x & 0x400000 != 0) && Bit(x, 23) == (x & 0x800000 != 0)
    ensures Bit(x, 24) == (x & 0x1000000 != 0) && Bit(x, 25) == (x & 0x2000000 != 0)
    ensures Bit(x, 26) == (x & 0x4000000 != 0) && Bit(x, 27) == (x & 0x8000000 != 0)
    ensures Bit(x, 28) == (x & 0x10000000 != 0) && Bit(x, 29) == (x & 0x20000000 != 0)
    ensures Bit(x, 30) == (x & 0x40000000 != 0) && Bit(x, 31) == (x & 0x80000000 != 0)
  {
    Masks();
    hide Mask;
  }

  lemma ValueOfBits(x: word)
    ensures Value(x) == FromBits(Bits(x))
  {
    var s := Bits(x);
    BitsAre(x);
    hide Bit, FromBits, Octet;
    Eight(s);
    Eight(s[8..]);
    Eight(s[16..]);
    Eight(s[24..]);
    assert s[8..][8..] == s[16..] && s[16..][8..] == s[24..] && s[24..][8..] == [];
    NoBits();
  }

  /** It has the word's bits for binary digits. */
  lemma ValueIsOfBits(x: word)
    ensures ToBits(32, Value(x)) == Bits(x)
  {
    hide Value, Bits, FromBits, ToBits;
    ValueOfBits(x);
    ToFromBits(Bits(x));
  }

  lemma NoBits()
    ensures FromBits([]) == 0
  {
  }

  lemma SameValue(v: u32, x: word)
    requires forall i: nat :: i < 32 ==> Digit(v, i) == Bit(x, i)
    ensures v == Value(x)
  {
    assert ToBits(32, v) == Bits(x);
    ValueIsOfBits(x);
    Pow2Values();
    hide Value, Bit;
    ToBitsInjective(32, v, Value(x));
  }

  lemma ValueDigit(x: word, i: nat)
    requires i < 32
    ensures Digit(Value(x), i) == Bit(x, i)
  {
    ValueIsOfBits(x);
    hide Value, Bit;
    assert ToBits(32, Value(x))[i] == Bits(x)[i];
  }

  // ── Bitwise operations ────────────────────────────────────────────────────

  function XorOf(x: word, y: word): word {
    x ^ y
  }

  lemma XorBit(x: word, y: word, m: word)
    requires m != 0 && m & (m - 1) == 0
    ensures ((x ^ y) & m != 0) == ((x & m != 0) != (y & m != 0))
  {
  }

  lemma BitOfXor(x: word, y: word, m: word)
    requires OneBit(m)
    ensures Has(XorOf(x, y), m) == (Has(x, m) != Has(y, m))
  {
    XorBit(x, y, m);
  }

  lemma DigitOfBitXor(a: u32, b: u32, i: nat)
    requires i < 32
    ensures Digit(BitXor(a, b), i) == (Digit(a, i) != Digit(b, i))
  {
    hide Digit, BitXor;
    ToBitsXor(32, a, b);
    assert ToBits(32, BitXor(a, b))[i] == Xor(ToBits(32, a), ToBits(32, b))[i];
  }

  lemma ValueOfXor(x: word, y: word)
    ensures BitXor(Value(x), Value(y)) == Value(XorOf(x, y))
  {
    ValueIsOfBits(x);
    ValueIsOfBits(y);
    hide Value, Mask, XorOf, Has, OneBit;
    forall i: nat | i < 32
      ensures Digit(BitXor(Value(x), Value(y)), i) == Bit(XorOf(x, y), i)
    {
      DigitOfBitXor(Value(x), Value(y), i);
      ValueDigit(x, i);
      ValueDigit(y, i);
      MaskIsOneBit(i);
      BitOfXor(x, y, Mask(i));
    }
    SameValue(BitXor(Value(x), Value(y)), XorOf(x, y));
  }

  // ── Rotations and shifts ──────────────────────────────────────────────────

  lemma {:induction false} MaskRound(i: nat)
    ensures Mask(i + 32) == Mask(i)
  {
    if i == 0 {
      TopMask();
    } else {
      MaskRound(i - 1);
    }
  }

  function TurnRight(x: word): word {
    (x >> 1) | (x << 31)
  }

  /** Rotation to the right by n. */
  function Rotr(x: word, n: nat): word {
    if n == 0 then x else TurnRight(Rotr(x, n - 1))
  }

  lemma TurnBit(x: word, m: word)
    ensures Has(TurnRight(x), m) == Has(x, Next(m))
  {
  }

  lemma BitOfTurn(x: word, i: nat)
    ensures Bit(TurnRight(x), i) == Bit(x, i + 1)
  {
    hide Has, TurnRight, Next;
    TurnBit(x, Mask(i));
    assert Mask(i + 1) == Next(Mask(i));
  }

  lemma {:induction false} BitOfRotr(x: word, n: nat, i: nat)
    ensures Bit(Rotr(x, n), i) == Bit(x, i + n)
  {
    hide Bit, TurnRight;
    if n > 0 {
      BitOfTurn(Rotr(x, n - 1), i);
      BitOfRotr(x, n - 1, i + 1);
    }
  }

  lemma TurnFurther(x: word)
    ensures TurnRight((x >> 1) | (x << 31)) == (x >> 2) | (x << 30)
    ensures TurnRight((x >> 2) | (x << 30)) == (x >> 3) | (x << 29)
    ensures TurnRight((x >> 3) | (x << 29)) == (x >> 4) | (x << 28)
    ensures TurnRight((x >> 4) | (x << 28)) == (x >> 5) | (x << 27)
    ensures TurnRight((x >> 5) | (x << 27)) == (x >> 6) | (x << 26)
    ensures TurnRight((x >> 6) | (x << 26)) == (x >> 7) | (x << 25)
    ensures TurnRight((x >> 7) | (x << 25)) == (x >> 8) | (x << 24)
    ensures TurnRight((x >> 8) | (x << 24)) == (x >> 9) | (x << 23)
    ensures TurnRight((x >> 9) | (x << 23)) == (x >> 10) | (x << 22)
    ensures TurnRight((x >> 10) | (x << 22)) == (x >> 11) | (x << 21)
    ensures TurnRight((x >> 11) | (x << 21)) == (x >> 12) | (x << 20)
    ensures TurnRight((x >> 12) | (x << 20)) == (x >> 13) | (x << 19)
    ensures TurnRight((x >> 13) | (x << 19)) == (x >> 14) | (x << 18)
    ensures TurnRight((x >> 14) | (x << 18)) == (x >> 15) | (x << 17)
    ensures TurnRight((x >> 15) | (x << 17)) == (x >> 16) | (x << 16)
    ensures TurnRight((x >> 16) | (x << 16)) == (x >> 17) | (x << 15)
    ensures TurnRight((x >> 17) | (x << 15)) == (x >> 18) | (x << 14)
    ensures TurnRight((x >> 18) | (x << 14)) == (x >> 19) | (x << 13)
    ensures TurnRight((x >> 19) | (x << 13)) == (x >> 20) | (x << 12)
    ensures TurnRight((x >> 20) | (x << 12)) == (x >> 21) | (x << 11)
    ensures TurnRight((x >> 21) | (x << 11)) == (x >> 22) | (x << 10)
    ensures TurnRight((x >> 22) | (x << 10)) == (x >> 23) | (x << 9)
    ensures TurnRight((x >> 23) | (x << 9)) == (x >> 24) | (x << 8)
    ensures TurnRight((x >> 24) | (x << 8)) == (x >> 25) | (x << 7)
  {
  }

  /** The rotations the hash needs, by shifts. */
  lemma RotrByShifts(x: word)
    ensures Rotr(x, 2) == (x >> 2) | (x << 30)
    ensures Rotr(x, 6) == (x >> 6) | (x << 26)
    ensures Rotr(x, 7) == (x >> 7) | (x << 25)
    ensures Rotr(x, 11) == (x >> 11) | (x << 21)
    ensures Rotr(x, 13) == (x >> 13) | (x << 19)
    ensures Rotr(x, 17) == (x >> 17) | (x << 15)
    ensures Rotr(x, 18) == (x >> 18) | (x << 14)
    ensures Rotr(x, 19) == (x >> 19) | (x << 13)
    ensures Rotr(x, 22) == (x >> 22) | (x << 10)
    ensures Rotr(x, 25) == (x >> 25) | (x << 7)
  {
    TurnFurther(x);
    assert Rotr(x, 1) == (x >> 1) | (x << 31) by { assert Rotr(x, 0) == x; }
    hide TurnRight;
    assert Rotr(x, 2) == TurnRight(Rotr(x, 1));
    assert Rotr(x, 3) == TurnRight(Rotr(x, 2));
    assert Rotr(x, 4) == TurnRight(Rotr(x, 3));
    assert Rotr(x, 5) == TurnRight(Rotr(x, 4));
    assert Rotr(x, 6) == TurnRight(Rotr(x, 5));
    assert Rotr(x, 7) == TurnRight(Rotr(x, 6));
    assert Rotr(x, 8) == TurnRight(Rotr(x, 7));
    assert Rotr(x, 9) == TurnRight(Rotr(x, 8));
    assert Rotr(x, 10) == TurnRight(Rotr(x, 9));
    assert Rotr(x, 11) == TurnRight(Rotr(x, 10));
    assert Rotr(x, 12) == TurnRight(Rotr(x, 11));
    assert Rotr(x, 13) == TurnRight(Rotr(x, 12));
    assert Rotr(x, 14) == TurnRight(Rotr(x, 13));
    assert Rotr(x, 15) == TurnRight(Rotr(x, 14));
    assert Rotr(x, 16) == TurnRight(Rotr(x, 15));
    assert Rotr(x, 17) == TurnRight(Rotr(x, 16));
    assert Rotr(x, 18) == TurnRight(Rotr(x, 17));
    assert Rotr(x, 19) == TurnRight(Rotr(x, 18));
    assert Rotr(x, 20) == TurnRight(Rotr(x, 19));
    assert Rotr(x, 21) == TurnRight(Rotr(x, 20));
    assert Rotr(x, 22) == TurnRight(Rotr(x, 21));
    assert Rotr(x, 23) == TurnRight(Rotr(x, 22));
    assert Rotr(x, 24) == TurnRight(Rotr(x, 23));
    assert Rotr(x, 25) == TurnRight(Rotr(x, 24));
  }

  /** A shift to the right by n divides by 2^n. */
  lemma ShiftedDigit(x: word, n: nat, i: nat)
    requires i < 32
    ensures Digit(Quot(Value(x), Pow2(n)), i) == (i + n < 32 && Bit(x, i + n))
  {
    ValueIsOfBits(x);
    hide Bit, Value, Quot, Digit;
    Pow2Values();
    DigitAbove(n, Value(x), i);
    if i + n < 32 {
      ValueDigit(x, i + n);
    } else {
      HighDigits(32, Value(x), i + n);
    }
  }

  lemma Shift(x: word, n: nat, y: word)
    requires forall i: nat :: i < 32 ==> Bit(y, i) == (i + n < 32 && Bit(x, i + n))
    ensures Quot(Value(x), Pow2(n)) == Value(y)
  {
    ValueIsOfBits(x);
    hide Bit, Value, Digit;
    forall i: nat | i < 32
      ensures Digit(Quot(Value(x), Pow2(n)), i) == Bit(y, i)
    {
      hide Quot;
      ShiftedDigit(x, n, i);
    }
    QuotientFits(Value(x), Pow2(n));
    SameValue(Quot(Value(x), Pow2(n)), y);
  }

  lemma QuotientFits(v: u32, p: nat)
    requires p > 0
    ensures Quot(v, p) <= v
  {
  }

  function Half(x: word): word {
    x >> 1
  }

  lemma HalfBit(x: word, m: word)
    ensures m <= 0x4000_0000 ==> ((x >> 1) & m != 0) == (x & ((m << 1) | (m >> 31)) != 0)
    ensures m == 0x8000_0000 ==> (x >> 1) & m == 0
  {
  }

  lemma BitOfHalf(x: word, i: nat)
    requires i < 32
    ensures Bit(Half(x), i) == (i + 1 < 32 && Bit(x, i + 1))
  {
    hide Has, Half, Next;
    if i < 31 {
      LowMasks(i);
    } else {
      TopMask();
    }
    assert Mask(i + 1) == Next(Mask(i));
    hide Mask;
    HalfHas(x, Mask(i));
  }

  lemma HalfHas(x: word, m: word)
    ensures m <= 0x4000_0000 ==> Has(Half(x), m) == Has(x, Next(m))
    ensures m == 0x8000_0000 ==> !Has(Half(x), m)
  {
    HalfBit(x, m);
  }

  lemma ValueOfHalf(x: word)
    ensures Value(Half(x)) == Value(x) / 2
  {
    hide Value, Bit, Half;
    forall i: nat | i < 32
      ensures Bit(Half(x), i) == (i + 1 < 32 && Bit(x, i + 1))
    {
      BitOfHalf(x, i);
    }
    Shift(x, 1, Half(x));
    assert Pow2(1) == 2 by { assert Pow2(0) == 1; }
  }

  // ── Every number is a word ────────────────────────────────────────────────

  lemma {:induction false} MasksRise(i: nat, j: nat)
    requires i < j < 32
    ensures Mask(i) < Mask(j)
    decreases j
  {
    LowMasks(j - 1);
    MaskIsOneBit(j - 1);
    NextIsMore(Mask(j - 1));
    if i < j - 1 {
      hide Next;
      MasksRise(i, j - 1);
    }
  }

  lemma NextIsMore(m: word)
    requires 0 < m <= 0x4000_0000
    ensures Next(m) > m
  {
  }

  function Set(x: word, m: word): word {
    x | m
  }

  lemma SetApart(x: word, a: word, b: word)
    requires a != 0 && a & (a - 1) == 0 && b != 0 && b & (b - 1) == 0
    ensures (x | a) & a != 0
    ensures a != b ==> ((x | a) & b != 0) == (x & b != 0)
  {
  }

  lemma OneBitsApart(x: word, a: word, b: word)
    requires OneBit(a) && OneBit(b)
    ensures Has(Set(x, a), a)
    ensures a != b ==> Has(Set(x, a), b) == Has(x, b)
  {
    SetApart(x, a, b);
  }

  lemma BitOfSet(x: word, i: nat, j: nat)
    requires i < 32 && j < 32
    ensures Bit(Set(x, Mask(i)), j) == (j == i || Bit(x, j))
  {
    hide Next, Set, Has, OneBit;
    MaskIsOneBit(i);
    MaskIsOneBit(j);
    if i < j {
      MasksRise(i, j);
    } else if j < i {
      MasksRise(j, i);
    }
    hide Mask;
    OneBitsApart(x, Mask(i), Mask(j));
  }

  /** The n low binary digits of v as a word. */
  function LowWord(v: nat, n: nat): word {
    if n == 0 then 0
    else if Digit(v, n - 1) then Set(LowWord(v, n - 1), Mask(n - 1)) else LowWord(v, n - 1)
  }

  lemma {:induction false} LowWordBits(v: nat, n: nat, j: nat)
    requires n <= 32 && j < 32
    ensures Bit(LowWord(v, n), j) == (j < n && Digit(v, j))
  {
    if n == 0 {
      NoBitSet(Mask(j));
    } else {
      LowWordBits(v, n - 1, j);
      BitOfSet(LowWord(v, n - 1), n - 1, j);
      hide Bit, Mask, Set;
    }
  }

  lemma NoBitSet(m: word)
    ensures !Has(0, m)
  {
  }

  function WordOf(v: u32): word {
    LowWord(v, 32)
  }

  lemma ValueOfWord(v: u32)
    ensures Value(WordOf(v)) == v
  {
    forall i: nat | i < 32
      ensures Digit(v, i) == Bit(WordOf(v), i)
    {
      LowWordBits(v, 32, i);
    }
    hide Value, WordOf, Bit;
    SameValue(v, WordOf(v));
  }
}
