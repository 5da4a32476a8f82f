/** CRC-16/CCITT-FALSE as division in GF(2)[x] modulo x^16 + x^12 + x^5 + 1.
  *
  * The register is fed with a message's bits, most significant first; the firmware's byte loop is
  * that, eight bits at a time. What a register that runs to zero says about a message and its
  * trailer, and about bursts of wrong bits, follows from the arithmetic.
  */
module Crc16 {
  import opened BinaryField
  import opened BitStream
  import opened Words

  const POLYNOMIAL: u16 := 0x1021
  const INITIAL: u16 := 0xFFFF

  function Reduction(): (r: seq<bool>)
    ensures |r| == 16
  {
    ToBits(16, POLYNOMIAL)
  }

  /** One message bit enters at the top of the register. */
  function FeedBit(s: seq<bool>, b: bool): (t: seq<bool>)
    requires |s| == 16
    ensures |t| == 16
  {
    TimesX(Reduction(), Xor(s, Scale(b, Monomial(16, 15))))
  }

  function FeedBits(s: seq<bool>, bits: seq<bool>): (t: seq<bool>)
    requires |s| == 16
    ensures |t| == 16
    decreases |bits|
  {
    if bits == [] then s else FeedBits(FeedBit(s, bits[0]), bits[1..])
  }

  /** The register after a whole message, and the checksum it spells. */
  function Register(data: seq<u8>): (t: seq<bool>)
    ensures |t| == 16
  {
    FeedBits(ToBits(16, INITIAL), Stream(data))
  }

  function Crc(data: seq<u8>): u16 {
    ToFromBits(Register(data));
    Pow2Values();
    FromBits(Register(data))
  }

  lemma CrcBits(data: seq<u8>)
    ensures ToBits(16, Crc(data)) == Register(data)
  {
    ToFromBits(Register(data));
  }

  // ── The byte loop computes the register ───────────────────────────────────

  lemma FeedNoBits(s: seq<bool>)
    requires |s| == 16
    ensures FeedBits(s, Reversed([])) == Powers(Reduction(), 0, Xor(s, Zero(16) + []))
  {
    hide ToBits;
    assert Xor(s, Zero(16) + []) == s;
  }

  lemma FeedLastFirst(s: seq<bool>, t: seq<bool>)
    requires |s| == 16 && 0 < |t| <= 16
    ensures FeedBits(s, Reversed(t)) == FeedBits(FeedBit(s, t[|t| - 1]), Reversed(t[..|t| - 1]))
  {
    hide FeedBit;
    assert Reversed(t)[0] == t[|t| - 1] && Reversed(t)[1..] == Reversed(t[..|t| - 1]);
  }

  /** Feeding n bits is adding them to the top of the register and shifting n times. */
  lemma {:induction false} FeedTogether(s: seq<bool>, t: seq<bool>)
    requires |s| == 16 && |t| <= 16
    ensures FeedBits(s, Reversed(t)) == Powers(Reduction(), |t|, Xor(s, Zero(16 - |t|) + t))
    decreases |t|
  {
    hide Reduction, FeedBits, FeedBit, Reversed, Xor, Zero, TimesX;
    if t == [] {
      FeedNoBits(s);
    } else {
      FeedLastFirst(s, t);
      FeedTogether(FeedBit(s, t[|t| - 1]), t[..|t| - 1]);
      FeedTopBit(s, t);
      PowersShift(Reduction(), |t| - 1, Xor(s, Zero(16 - |t|) + t));
    }
  }

  lemma FeedTopBit(s: seq<bool>, t: seq<bool>)
    requires |s| == 16 && 0 < |t| <= 16
    ensures Xor(FeedBit(s, t[|t| - 1]), Zero(17 - |t|) + t[..|t| - 1]) ==
            TimesX(Reduction(), Xor(s, Zero(16 - |t|) + t))
  {
    hide ToBits;
    var r, n := Reduction(), |t|;
    var low := t[..n - 1];
    var top := Scale(t[n - 1], Monomial(16, 15));
    var rest := Zero(16 - n) + low + [false];
    assert TimesX(r, rest) == Zero(17 - n) + low;
    TimesXAdditive(r, Xor(s, top), rest);
    assert Xor(Xor(s, top), rest) == Xor(s, Zero(16 - n) + t);
  }

  lemma ReverseOfByte(b: u8)
    ensures MsbBits(8, b) == Reversed(ToBits(8, b))
  {
  }

  lemma StreamStep(data: seq<u8>, i: nat)
    requires i < |data|
    ensures Stream(data[..i + 1]) == Stream(data[..i]) + MsbBits(8, data[i])
  {
  }

  lemma {:induction false} FeedConcat(s: seq<bool>, a: seq<bool>, b: seq<bool>)
    requires |s| == 16
    ensures FeedBits(s, a + b) == FeedBits(FeedBits(s, a), b)
    decreases |a|
  {
    if a == [] {
      assert a + b == b;
    } else {
      assert (a + b)[1..] == a[1..] + b;
      FeedConcat(FeedBit(s, a[0]), a[1..], b);
    }
  }

  lemma ByteAtTop(crc: u16, b: u8)
    ensures BitXor(crc, b * 256) < 0x1_0000
    ensures ToBits(16, BitXor(crc, b * 256)) == Xor(ToBits(16, crc), Zero(8) + ToBits(8, b))
  {
    Pow2Values();
    BitXorBound(16, crc, b * 256);
    ToBitsXor(16, crc, b * 256);
    forall i: nat | i < 16
      ensures Digit(b * 256, i) == (Zero(8) + ToBits(8, b))[i]
    {
      DigitOfShifted(8, b, i);
    }
  }

  lemma ByteStepIsFeed(before: u16, after: u16, b: u8, k: nat)
    requires k == 8
    requires ToBits(16, after) == Powers(Reduction(), k, ToBits(16, BitXor(before, b * 256)))
    ensures ToBits(16, after) == FeedBits(ToBits(16, before), MsbBits(8, b))
  {
    ByteAtTop(before, b);
    ReverseOfByte(b);
    FeedTogether(ToBits(16, before), ToBits(8, b));
  }

  method Crc16Ccitt(data: seq<u8>) returns (crc: u16)
    ensures crc == Crc(data)
  {
    hide BitXor, ToBits, FeedBits, Stream, MsbBits;
    crc := 0xFFFF;
    FeedNothing();
    assert data[..0] == [];
    for i := 0 to |data|
      invariant ToBits(16, crc) == FeedBits(ToBits(16, INITIAL), Stream(data[..i]))
    {
      ghost var before := crc;
      crc := CrcByte(crc, data[i]);
      StreamStep(data, i);
      FeedConcat(ToBits(16, INITIAL), Stream(data[..i]), MsbBits(8, data[i]));
    }
    assert data[..|data|] == data;
    SameRegister(crc, data);
  }

  lemma SameRegister(crc: u16, data: seq<u8>)
    requires ToBits(16, crc) == Register(data)
    ensures crc == Crc(data)
  {
    CrcBits(data);
    Pow2Values();
    ToBitsInjective(16, crc, Crc(data));
  }

  /** One byte of the loop: into the top half, then eight shifts. */
  method CrcByte(crc0: u16, b: u8) returns (crc: u16)
    ensures ToBits(16, crc) == FeedBits(ToBits(16, crc0), MsbBits(8, b))
  {
    hide BitXor, ToBits, FeedBits, MsbBits, TimesX, Xor;
    ByteAtTop(crc0, b);
    crc := BitXor(crc0, b * 256);
    ghost var start := crc;
    PowersZero(start);
    for k := 0 to 8
      invariant ToBits(16, crc) == Powers(Reduction(), k, ToBits(16, start))
    {
      crc := ShiftOnce(crc);
    }
    ByteStepIsFeed(crc0, crc, b, 8);
  }

  method ShiftOnce(crc0: u16) returns (crc: u16)
    ensures ToBits(16, crc) == TimesX(Reduction(), ToBits(16, crc0))
  {
    hide BitXor, ToBits, TimesX;
    ShiftIsTimesX(crc0);
    if crc0 >= 0x8000 {
      crc := BitXor((2 * crc0) % 0x1_0000, 0x1021);
    } else {
      crc := (2 * crc0) % 0x1_0000;
    }
  }

  lemma FeedNothing()
    ensures FeedBits(ToBits(16, INITIAL), Stream([])) == ToBits(16, INITIAL)
  {
  }

  lemma PowersZero(v: u16)
    ensures Powers(Reduction(), 0, ToBits(16, v)) == ToBits(16, v)
  {
  }

  lemma ShiftIsTimesX(crc: u16)
    ensures BitXor((2 * crc) % 0x1_0000, 0x1021) < 0x1_0000 || crc < 0x8000
    ensures ToBits(16, if crc >= 0x8000 then BitXor((2 * crc) % 0x1_0000, 0x1021) else (2 * crc) % 0x1_0000)
         == TimesX(Reduction(), ToBits(16, crc))
  {
    hide BitXor;
    Pow2Values();
    FoldTruncated(16, Reduction(), POLYNOMIAL, crc);
    BitXorZero((2 * crc) % 0x1_0000);
  }

  // ── Error detection ───────────────────────────────────────────────────────

  /** x is invertible modulo the polynomial, so shifting loses nothing. */
  lemma TimesXInjective(s: seq<bool>)
    requires |s| == 16 && TimesX(Reduction(), s) == Zero(16)
    ensures s == Zero(16)
  {
    var r := Reduction();
    assert r[0] by { assert Digit(0x1021, 0); }
    hide ToBits;
    var t := TimesX(r, s);
    assert t[0] == (r[0] && s[15]);
    forall i | 0 <= i < 15
      ensures !s[i]
    {
      assert t[i + 1] == (s[i] != (r[i + 1] && s[15]));
    }
  }

  lemma {:induction false} PowersInjective(k: nat, s: seq<bool>)
    requires |s| == 16 && Powers(Reduction(), k, s) == Zero(16)
    ensures s == Zero(16)
  {
    if k > 0 {
      TimesXInjective(Powers(Reduction(), k - 1, s));
      PowersInjective(k - 1, s);
    }
  }

  lemma {:induction false} FeedDifference(s: seq<bool>, t: seq<bool>, a: seq<bool>, b: seq<bool>)
    requires |s| == |t| == 16 && |a| == |b|
    ensures FeedBits(Xor(s, t), Xor(a, b)) == Xor(FeedBits(s, a), FeedBits(t, b))
    decreases |a|
  {
    if a == [] {
    } else {
      var r := Reduction();
      var u, v := Scale(a[0], Monomial(16, 15)), Scale(b[0], Monomial(16, 15));
      assert Xor(a, b)[1..] == Xor(a[1..], b[1..]);
      hide ToBits;
      assert Xor(Xor(s, t), Scale(a[0] != b[0], Monomial(16, 15))) == Xor(Xor(s, u), Xor(t, v));
      TimesXAdditive(r, Xor(s, u), Xor(t, v));
      FeedDifference(FeedBit(s, a[0]), FeedBit(t, b[0]), a[1..], b[1..]);
    }
  }

  lemma {:induction false} FeedZeros(s: seq<bool>, n: nat)
    requires |s| == 16
    ensures FeedBits(s, Zero(n)) == Powers(Reduction(), n, s)
    decreases n
  {
    if n > 0 {
      assert Zero(n)[1..] == Zero(n - 1);
      assert Xor(s, Zero(16)) == s;
      FeedZeros(FeedBit(s, false), n - 1);
      PowersShift(Reduction(), n - 1, s);
    }
  }

  /** A burst of at most sixteen bits anywhere in the stream leaves a nonzero register. */
  lemma BurstIsVisible(before: nat, burst: seq<bool>, after: nat)
    requires |burst| <= 16 && burst != Zero(|burst|)
    ensures FeedBits(Zero(16), Zero(before) + burst + Zero(after)) != Zero(16)
  {
    hide FeedBits, Powers, ToBits, TimesX;
    var middle := FeedBits(Zero(16), burst);
    FeedConcat(Zero(16), Zero(before) + burst, Zero(after));
    FeedConcat(Zero(16), Zero(before), burst);
    FeedZeros(Zero(16), before);
    PowersOfZero(before);
    FeedZeros(middle, after);
    BurstEnters(burst);
    if FeedBits(Zero(16), Zero(before) + burst + Zero(after)) == Zero(16) {
      PowersInjective(after, middle);
      assert false;
    }
  }

  lemma EnteredIsNonzero(burst: seq<bool>)
    requires |burst| <= 16 && burst != Zero(|burst|)
    ensures Xor(Zero(16), Zero(16 - |burst|) + Reversed(burst)) != Zero(16)
  {
    var entered := Xor(Zero(16), Zero(16 - |burst|) + Reversed(burst));
    var i :| 0 <= i < |burst| && burst[i];
    assert entered[16 - 1 - i];
  }

  lemma ReversedTwice(bits: seq<bool>)
    ensures Reversed(Reversed(bits)) == bits
  {
  }

  lemma BurstEnters(burst: seq<bool>)
    requires |burst| <= 16 && burst != Zero(|burst|)
    ensures FeedBits(Zero(16), burst) != Zero(16)
  {
    hide FeedBits, Powers, Reduction, Xor, Zero, Reversed;
    var low := Reversed(burst);
    ReversedTwice(burst);
    EnteredIsNonzero(burst);
    FeedTogether(Zero(16), low);
    if FeedBits(Zero(16), burst) == Zero(16) {
      PowersInjective(|low|, Xor(Zero(16), Zero(16 - |low|) + low));
      assert false;
    }
  }

  lemma {:induction false} PowersOfZero(k: nat)
    ensures Powers(Reduction(), k, Zero(16)) == Zero(16)
  {
    if k > 0 {
      PowersOfZero(k - 1);
      TimesXZero(Reduction());
    }
  }

  lemma XorIsZero(a: seq<bool>, b: seq<bool>)
    requires |a| == |b|
    ensures Xor(a, b) == Zero(|a|) <==> a == b
  {
    if Xor(a, b) == Zero(|a|) {
      forall i | 0 <= i < |a|
        ensures a[i] == b[i]
      {
        assert !Xor(a, b)[i];
      }
    }
  }

  lemma TrailerFeeds(data: seq<u8>, v: u16)
    ensures FeedBits(ToBits(16, INITIAL), Stream(data + Be2(v))) ==
            Powers(Reduction(), 16, Xor(Register(data), ToBits(16, v)))
  {
    var start, low := ToBits(16, INITIAL), ToBits(16, v);
    TrailerStream(data, v);
    hide FeedBits, Powers, Stream, ToBits, Reduction, Xor, Reversed;
    FeedConcat(start, Stream(data), Reversed(low));
    FeedTogether(Register(data), low);
    assert Zero(0) + low == low;
  }

  /** A message followed by its checksum runs the register to zero, and only then. */
  lemma TrailerClears(data: seq<u8>, v: u16)
    ensures FeedBits(ToBits(16, INITIAL), Stream(data + Be2(v))) == Zero(16) <==> v == Crc(data)
  {
    hide FeedBits, Powers, Stream, ToBits, Reduction, Register, Crc, Xor, Zero;
    var s, low := Register(data), ToBits(16, v);
    TrailerFeeds(data, v);
    XorIsZero(s, low);
    if v == Crc(data) {
      CrcBits(data);
      PowersOfZero(16);
    } else if Powers(Reduction(), 16, Xor(s, low)) == Zero(16) {
      PowersInjective(16, Xor(s, low));
      SameRegister(v, data);
      assert false;
    }
  }

  lemma TrailerStream(data: seq<u8>, v: u16)
    ensures Stream(data + Be2(v)) == Stream(data) + Reversed(ToBits(16, v))
  {
    var n := 8 * |data|;
    forall k | n <= k < n + 16
      ensures Stream(data + Be2(v))[k] == Reversed(ToBits(16, v))[k - n]
    {
      if k < n + 8 {
        HighByteDigit(v, 7 - k % 8);
      } else {
        LowByteDigit(v, 7 - k % 8);
      }
    }
  }

  lemma HighByteDigit(v: u16, i: nat)
    requires i < 8
    ensures Digit(v / 256, i) == Digit(v, 8 + i)
  {
    Pow2Values();
    DigitAbove(8, v, i);
  }

  lemma LowByteDigit(v: u16, i: nat)
    requires i < 8
    ensures Digit(v % 256, i) == Digit(v, i)
  {
    Pow2Values();
    DigitMod(8, v, i);
  }
}
