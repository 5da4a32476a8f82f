/** The check value of CRC-16/CCITT-FALSE, the checksum of "123456789", followed bit by bit; with what
  * one bit alone does, it fixes polynomial, initial value and bit order.
  *
  * Every shift of the register is written down as a machine word and shown to follow from the one
  * before by the model's own step.
  */
module Crc16Check {
  import opened BinaryField
  import opened BitStream
  import opened Crc16
  import opened MachineWords
  import opened Words

  lemma PlusPower(b: nat, k: nat, c: nat)
    requires k < 16 && b < 0x1_0000 && !Digit(b, k) && c == b + Pow2(k)
    ensures forall i: nat :: Digit(c, i) == (i == k || Digit(b, i))
  {
    assert Pow2(16) == 0x1_0000 by { Pow2Values(); }
    hide Pow2, Digit;
    AddDigit(16, b, k);
  }

  /** x^16 is x^12 + x^5 + 1. */
  lemma PolynomialIs()
    ensures forall i :: 0 <= i < 16 ==> Reduction()[i] == (i == 12 || i == 5 || i == 0)
  {
    assert Pow2(0) == 1 && Pow2(5) == 0x20 && Pow2(12) == 0x1000 by { Pow2Values(); }
    hide Pow2, Digit;
    forall i: nat
      ensures !Digit(0, i)
    {
      DigitOfZero(i);
    }
    PlusPower(0, 0, 1);
    PlusPower(1, 5, 0x21);
    PlusPower(0x21, 12, 0x1021);
    forall i | 0 <= i < 16
      ensures Reduction()[i] == (i == 12 || i == 5 || i == 0)
    {
      assert Reduction()[i] == Digit(0x1021, i);
    }
  }

  /** The register after some bytes, as a word. */
  predicate Holds(data: seq<u8>, c: word) {
    Value(c) < 0x1_0000 && Register(data) == ToBits(16, Value(c))
  }

  /** k shifts on from `start`. */
  predicate Shifted(start: word, k: nat, x: word) {
    && Value(start) < 0x1_0000 && Value(x) < 0x1_0000
    && ToBits(16, Value(x)) == Powers(Reduction(), k, ToBits(16, Value(start)))
  }

  /** One shift, with the doubled value on the way. */
  lemma Shift(start: word, k: nat, x: word, z: word, y: word)
    requires Shifted(start, k, x) && Flat(z) == 2 * Flat(x) % 0x1_0000
    requires y == if Flat(x) >= 0x8000 then XorOf(z, 0x1021) else z
    ensures Shifted(start, k + 1, y)
  {
    FlatIsValue(x);
    FlatIsValue(z);
    hide Flat, Value, ToBits, BitXor, TimesX, XorOf;
    ShiftIsTimesX(Value(x));
    ValueOfXor(z, 0x1021);
    PolynomialWord();
    hide Reduction;
  }

  lemma PolynomialWord()
    ensures Value(0x1021) == 0x1021
  {
    FlatIsValue(0x1021);
    hide Value;
  }

  /** One byte in: into the top half, then eight shifts. */
  lemma ByteIn(data: seq<u8>, b: u8, c: word, top: word, start: word, x: word)
    requires Holds(data, c) && Flat(top) == 0x100 * b && start == XorOf(c, top) && Shifted(start, 8, x)
    ensures Holds(data + [b], x)
  {
    FlatIsValue(top);
    hide Flat, Value, ToBits, BitXor, XorOf, Powers, Stream, MsbBits, FeedBits;
    ValueOfXor(c, top);
    ByteStepIsFeed(Value(c), Value(x), b, 8);
    assert (data + [b])[..|data|] == data && (data + [b])[..|data| + 1] == data + [b];
    StreamStep(data + [b], |data|);
    FeedConcat(ToBits(16, INITIAL), Stream(data), MsbBits(8, b));
    hide Reduction, INITIAL;
  }

  lemma Begins(c: word, v: u16)
    requires Flat(c) == v
    ensures Shifted(c, 0, c)
  {
    FlatIsValue(c);
    hide Flat, Value, ToBits;
  }

  lemma Nothing()
    ensures Holds([], 0xFFFF)
  {
    FlatIsValue(0xFFFF);
    FeedNothing();
    hide Value, ToBits, FeedBits, Stream;
  }

  lemma ByteOne(data: seq<u8>)
    requires Holds(data, 0xffff)
    ensures Holds(data + [0x31], 0xc782)
  {
    hide Shifted, Holds;
    Begins(0xceff, 0xceff);
    Shift(0xceff, 0, 0xceff, 0x9dfe, 0x8ddf);
    Shift(0xceff, 1, 0x8ddf, 0x1bbe, 0x0b9f);
    Shift(0xceff, 2, 0x0b9f, 0x173e, 0x173e);
    Shift(0xceff, 3, 0x173e, 0x2e7c, 0x2e7c);
    Shift(0xceff, 4, 0x2e7c, 0x5cf8, 0x5cf8);
    Shift(0xceff, 5, 0x5cf8, 0xb9f0, 0xb9f0);
    Shift(0xceff, 6, 0xb9f0, 0x73e0, 0x63c1);
    Shift(0xceff, 7, 0x63c1, 0xc782, 0xc782);
    ByteIn(data, 0x31, 0xffff, 0x3100, 0xceff, 0xc782);
  }

  lemma ByteTwo(data: seq<u8>)
    requires Holds(data, 0xc782)
    ensures Holds(data + [0x32], 0x3dba)
  {
    hide Shifted, Holds;
    Begins(0xf582, 0xf582);
    Shift(0xf582, 0, 0xf582, 0xeb04, 0xfb25);
    Shift(0xf582, 1, 0xfb25, 0xf64a, 0xe66b);
    Shift(0xf582, 2, 0xe66b, 0xccd6, 0xdcf7);
    Shift(0xf582, 3, 0xdcf7, 0xb9ee, 0xa9cf);
    Shift(0xf582, 4, 0xa9cf, 0x539e, 0x43bf);
    Shift(0xf582, 5, 0x43bf, 0x877e, 0x877e);
    Shift(0xf582, 6, 0x877e, 0x0efc, 0x1edd);
    Shift(0xf582, 7, 0x1edd, 0x3dba, 0x3dba);
    ByteIn(data, 0x32, 0xc782, 0x3200, 0xf582, 0x3dba);
  }

  lemma ByteThree(data: seq<u8>)
    requires Holds(data, 0x3dba)
    ensures Holds(data + [0x33], 0x5bce)
  {
    hide Shifted, Holds;
    Begins(0x0eba, 0x0eba);
    Shift(0x0eba, 0, 0x0eba, 0x1d74, 0x1d74);
    Shift(0x0eba, 1, 0x1d74, 0x3ae8, 0x3ae8);
    Shift(0x0eba, 2, 0x3ae8, 0x75d0, 0x75d0);
    Shift(0x0eba, 3, 0x75d0, 0xeba0, 0xeba0);
    Shift(0x0eba, 4, 0xeba0, 0xd740, 0xc761);
    Shift(0x0eba, 5, 0xc761, 0x8ec2, 0x9ee3);
    Shift(0x0eba, 6, 0x9ee3, 0x3dc6, 0x2de7);
    Shift(0x0eba, 7, 0x2de7, 0x5bce, 0x5bce);
    ByteIn(data, 0x33, 0x3dba, 0x3300, 0x0eba, 0x5bce);
  }

  lemma ByteFour(data: seq<u8>)
    requires Holds(data, 0x5bce)
    ensures Holds(data + [0x34], 0x5349)
  {
    hide Shifted, Holds;
    Begins(0x6fce, 0x6fce);
    Shift(0x6fce, 0, 0x6fce, 0xdf9c, 0xdf9c);
    Shift(0x6fce, 1, 0xdf9c, 0xbf38, 0xaf19);
    Shift(0x6fce, 2, 0xaf19, 0x5e32, 0x4e13);
    Shift(0x6fce, 3, 0x4e13, 0x9c26, 0x9c26);
    Shift(0x6fce, 4, 0x9c26, 0x384c, 0x286d);
    Shift(0x6fce, 5, 0x286d, 0x50da, 0x50da);
    Shift(0x6fce, 6, 0x50da, 0xa1b4, 0xa1b4);
    Shift(0x6fce, 7, 0xa1b4, 0x4368, 0x5349);
    ByteIn(data, 0x34, 0x5bce, 0x3400, 0x6fce, 0x5349);
  }

  lemma ByteFive(data: seq<u8>)
    requires Holds(data, 0x5349)
    ensures Holds(data + [0x35], 0x4560)
  {
    hide Shifted, Holds;
    Begins(0x6649, 0x6649);
    Shift(0x6649, 0, 0x6649, 0xcc92, 0xcc92);
    Shift(0x6649, 1, 0xcc92, 0x9924, 0x8905);
    Shift(0x6649, 2, 0x8905, 0x120a, 0x022b);
    Shift(0x6649, 3, 0x022b, 0x0456, 0x0456);
    Shift(0x6649, 4, 0x0456, 0x08ac, 0x08ac);
    Shift(0x6649, 5, 0x08ac, 0x1158, 0x1158);
    Shift(0x6649, 6, 0x1158, 0x22b0, 0x22b0);
    Shift(0x6649, 7, 0x22b0, 0x4560, 0x4560);
    ByteIn(data, 0x35, 0x5349, 0x3500, 0x6649, 0x4560);
  }

  lemma ByteSix(data: seq<u8>)
    requires Holds(data, 0x4560)
    ensures Holds(data + [0x36], 0x2ef4)
  {
    hide Shifted, Holds;
    Begins(0x7360, 0x7360);
    Shift(0x7360, 0, 0x7360, 0xe6c0, 0xe6c0);
    Shift(0x7360, 1, 0xe6c0, 0xcd80, 0xdda1);
    Shift(0x7360, 2, 0xdda1, 0xbb42, 0xab63);
    Shift(0x7360, 3, 0xab63, 0x56c6, 0x46e7);
    Shift(0x7360, 4, 0x46e7, 0x8dce, 0x8dce);
    Shift(0x7360, 5, 0x8dce, 0x1b9c, 0x0bbd);
    Shift(0x7360, 6, 0x0bbd, 0x177a, 0x177a);
    Shift(0x7360, 7, 0x177a, 0x2ef4, 0x2ef4);
    ByteIn(data, 0x36, 0x4560, 0x3600, 0x7360, 0x2ef4);
  }

  lemma ByteSeven(data: seq<u8>)
    requires Holds(data, 0x2ef4)
    ensures Holds(data + [0x37], 0x7718)
  {
    hide Shifted, Holds;
    Begins(0x19f4, 0x19f4);
    Shift(0x19f4, 0, 0x19f4, 0x33e8, 0x33e8);
    Shift(0x19f4, 1, 0x33e8, 0x67d0, 0x67d0);
    Shift(0x19f4, 2, 0x67d0, 0xcfa0, 0xcfa0);
    Shift(0x19f4, 3, 0xcfa0, 0x9f40, 0x8f61);
    Shift(0x19f4, 4, 0x8f61, 0x1ec2, 0x0ee3);
    Shift(0x19f4, 5, 0x0ee3, 0x1dc6, 0x1dc6);
    Shift(0x19f4, 6, 0x1dc6, 0x3b8c, 0x3b8c);
    Shift(0x19f4, 7, 0x3b8c, 0x7718, 0x7718);
    ByteIn(data, 0x37, 0x2ef4, 0x3700, 0x19f4, 0x7718);
  }

  lemma ByteEight(data: seq<u8>)
    requires Holds(data, 0x7718)
    ensures Holds(data + [0x38], 0xa12b)
  {
    hide Shifted, Holds;
    Begins(0x4f18, 0x4f18);
    Shift(0x4f18, 0, 0x4f18, 0x9e30, 0x9e30);
    Shift(0x4f18, 1, 0x9e30, 0x3c60, 0x2c41);
    Shift(0x4f18, 2, 0x2c41, 0x5882, 0x5882);
    Shift(0x4f18, 3, 0x5882, 0xb104, 0xb104);
    Shift(0x4f18, 4, 0xb104, 0x6208, 0x7229);
    Shift(0x4f18, 5, 0x7229, 0xe452, 0xe452);
    Shift(0x4f18, 6, 0xe452, 0xc8a4, 0xd885);
    Shift(0x4f18, 7, 0xd885, 0xb10a, 0xa12b);
    ByteIn(data, 0x38, 0x7718, 0x3800, 0x4f18, 0xa12b);
  }

  lemma ByteNine(data: seq<u8>)
    requires Holds(data, 0xa12b)
    ensures Holds(data + [0x39], 0x29b1)
  {
    hide Shifted, Holds;
    Begins(0x982b, 0x982b);
    Shift(0x982b, 0, 0x982b, 0x3056, 0x2077);
    Shift(0x982b, 1, 0x2077, 0x40ee, 0x40ee);
    Shift(0x982b, 2, 0x40ee, 0x81dc, 0x81dc);
    Shift(0x982b, 3, 0x81dc, 0x03b8, 0x1399);
    Shift(0x982b, 4, 0x1399, 0x2732, 0x2732);
    Shift(0x982b, 5, 0x2732, 0x4e64, 0x4e64);
    Shift(0x982b, 6, 0x4e64, 0x9cc8, 0x9cc8);
    Shift(0x982b, 7, 0x9cc8, 0x3990, 0x29b1);
    ByteIn(data, 0x39, 0xa12b, 0x3900, 0x982b, 0x29b1);
  }

  const CHECK: seq<u8> := [0x31, 0x32, 0x33, 0x34, 0x35, 0x36, 0x37, 0x38, 0x39]

  /** CRC("123456789") = 0x29B1. */
  lemma CheckValue()
    ensures Crc(CHECK) == 0x29B1
  {
    Nothing();
    hide Holds;
    ByteOne([]);
    assert [] + [0x31] == [0x31];
    ByteTwo([0x31]);
    assert [0x31] + [0x32] == [0x31, 0x32];
    ByteThree([0x31, 0x32]);
    assert [0x31, 0x32] + [0x33] == [0x31, 0x32, 0x33];
    ByteFour([0x31, 0x32, 0x33]);
    assert [0x31, 0x32, 0x33] + [0x34] == [0x31, 0x32, 0x33, 0x34];
    ByteFive([0x31, 0x32, 0x33, 0x34]);
    assert [0x31, 0x32, 0x33, 0x34] + [0x35] == [0x31, 0x32, 0x33, 0x34, 0x35];
    ByteSix([0x31, 0x32, 0x33, 0x34, 0x35]);
    assert [0x31, 0x32, 0x33, 0x34, 0x35] + [0x36] == [0x31, 0x32, 0x33, 0x34, 0x35, 0x36];
    ByteSeven([0x31, 0x32, 0x33, 0x34, 0x35, 0x36]);
    assert [0x31, 0x32, 0x33, 0x34, 0x35, 0x36] + [0x37] == [0x31, 0x32, 0x33, 0x34, 0x35, 0x36, 0x37];
    ByteEight([0x31, 0x32, 0x33, 0x34, 0x35, 0x36, 0x37]);
    assert [0x31, 0x32, 0x33, 0x34, 0x35, 0x36, 0x37] + [0x38] == [0x31, 0x32, 0x33, 0x34, 0x35, 0x36, 0x37, 0x38];
    ByteNine([0x31, 0x32, 0x33, 0x34, 0x35, 0x36, 0x37, 0x38]);
    assert [0x31, 0x32, 0x33, 0x34, 0x35, 0x36, 0x37, 0x38] + [0x39]
        == [0x31, 0x32, 0x33, 0x34, 0x35, 0x36, 0x37, 0x38, 0x39];
    Ends();
  }

  lemma Ends()
    requires Holds(CHECK, 0x29B1)
    ensures Crc(CHECK) == 0x29B1
  {
    FlatIsValue(0x29B1);
    hide Value, ToBits, Register;
    SameRegister(0x29B1, CHECK);
  }
}
