/** The data codewords of the six-digit symbol: numeric mode, one 10-bit group per
  * three digits, terminator and pad bytes (ISO/IEC 18004:2015, sections 7.4.3 and 7.4.10).
  */
module QrPayload {
  import opened BitStream
  import opened Words

  const DATA_CODEWORDS := 19

  /** b | (1 << k). */
  function SetBit(b: u8, k: nat): (r: u8)
    requires k < 8
  {
    if Digit(b, k) then b
    else
      SetBitInRange(b, k);
      b + Pow2(k)
  }

  lemma SetBitInRange(b: u8, k: nat)
    requires k < 8 && !Digit(b, k)
    ensures b + Pow2(k) < 0x100
  {
    Pow2Values();
    AddDigit(8, b, k);
  }

  lemma SetBitDigits(b: u8, k: nat, i: nat)
    requires k < 8
    ensures Digit(SetBit(b, k), i) == (i == k || Digit(b, i))
  {
    Pow2Values();
    if !Digit(b, k) {
      AddDigit(8, b, k);
    }
  }

  lemma StreamOfSetBit(bytes: seq<u8>, p: nat)
    requires p < 8 * |bytes|
    ensures Stream(bytes[p / 8 := SetBit(bytes[p / 8], 7 - p % 8)]) == Stream(bytes)[p := true]
  {
    hide SetBit, Digit;
    var after := bytes[p / 8 := SetBit(bytes[p / 8], 7 - p % 8)];
    forall k | 0 <= k < 8 * |bytes|
      ensures Stream(after)[k] == Stream(bytes)[p := true][k]
    {
      if k / 8 == p / 8 {
        SetBitDigits(bytes[p / 8], 7 - p % 8, 7 - k % 8);
      }
    }
  }

  // ── The payload ───────────────────────────────────────────────────────────

  predicate ValidCode(code: seq<u8>) {
    |code| == 6 && forall i :: 0 <= i < 6 ==> '0' as int <= code[i] <= '9' as int
  }

  function Group(code: seq<u8>, g: nat): nat
    requires ValidCode(code) && g < 2
  {
    (code[3 * g] - '0' as int) * 100 + (code[3 * g + 1] - '0' as int) * 10 + (code[3 * g + 2] - '0' as int)
  }

  /** Mode indicator, character count, two groups, terminator and byte padding. */
  function PayloadBits(code: seq<u8>): (s: seq<bool>)
    requires ValidCode(code)
    ensures |s| == 40
  {
    MsbBits(4, 1) + MsbBits(10, 6) + MsbBits(10, Group(code, 0)) + MsbBits(10, Group(code, 1)) + MsbBits(6, 0)
  }

  function PadByte(i: nat): u8 {
    if i % 2 == 0 then 0xEC else 0x11
  }

  /** What the nineteen data codewords must be. */
  predicate IsPayload(data: seq<u8>, code: seq<u8>)
    requires ValidCode(code)
  {
    |data| == DATA_CODEWORDS
    && Stream(data)[..40] == PayloadBits(code)
    && forall i :: 5 <= i < DATA_CODEWORDS ==> data[i] == PadByte(i - 5)
  }

  lemma StartOfPayload(data: seq<u8>, code: seq<u8>)
    requires ValidCode(code) && IsPayload(data, code)
    ensures |Stream(data)| >= 40 && Stream(data)[..40] == PayloadBits(code)
  {
    hide PayloadBits;
  }

  /** A reader of the data codewords, as a scanner applies it. */
  function ReadDigits(data: seq<u8>): Option<seq<u8>> {
    if |data| != DATA_CODEWORDS then None
    else
      var s := Stream(data);
      var g0, g1 := MsbValue(s[14..24]), MsbValue(s[24..34]);
      if MsbValue(s[..4]) != 1 || MsbValue(s[4..14]) != 6 || g0 >= 1000 || g1 >= 1000 then None
      else Some(ThreeDigits(g0) + ThreeDigits(g1))
  }

  function ThreeDigits(g: nat): seq<u8>
    requires g < 1000
  {
    [48 + g / 100, 48 + g / 10 % 10, 48 + g % 10]
  }

  lemma PayloadReadsBack(data: seq<u8>, code: seq<u8>)
    requires ValidCode(code) && IsPayload(data, code)
    ensures ReadDigits(data) == Some(code)
  {
    var s, p := Stream(data), PayloadBits(code);
    assert p == s[..40];
    var g0, g1 := Group(code, 0), Group(code, 1);
    assert s[..4] == p[..4] == MsbBits(4, 1);
    assert s[4..14] == p[4..14] == MsbBits(10, 6);
    assert s[14..24] == p[14..24] == MsbBits(10, g0);
    assert s[24..34] == p[24..34] == MsbBits(10, g1);
    TenBits();
    MsbRoundTrip(4, 1);
    MsbRoundTrip(10, 6);
    MsbRoundTrip(10, g0);
    MsbRoundTrip(10, g1);
    ThreeDigitsOfGroup(code, 0);
    ThreeDigitsOfGroup(code, 1);
    assert code == code[..3] + code[3..6];
  }

  lemma TenBits()
    ensures Pow2(10) == 1024 && Pow2(4) == 16
  {
  }

  lemma ThreeDigitsOfGroup(code: seq<u8>, g: nat)
    requires ValidCode(code) && g < 2
    ensures Group(code, g) < 1000
    ensures ThreeDigits(Group(code, g)) == code[3 * g..3 * g + 3]
  {
    var a, b, c := code[3 * g] - 48, code[3 * g + 1] - 48, code[3 * g + 2] - 48;
    var v := Group(code, g);
    assert v / 100 == a;
    assert v / 10 == 10 * a + b;
  }

  // ── The loops ─────────────────────────────────────────────────────────────

  method AppendBits(data: array<u8>, bitLen: nat, val: u16, n: nat) returns (newLen: nat)
    requires bitLen + n <= 8 * data.Length
    requires forall k :: bitLen <= k < 8 * data.Length ==> !Stream(data[..])[k]
    modifies data
    ensures newLen == bitLen + n
    ensures Stream(data[..])[..newLen] == Stream(old(data[..]))[..bitLen] + MsbBits(n, val)
    ensures forall k :: newLen <= k < 8 * data.Length ==> !Stream(data[..])[k]
  {
    newLen := bitLen;
    ghost var before := Stream(data[..]);
    hide *;
    var i := n - 1;
    while i >= 0
      invariant -1 <= i < n
      invariant newLen == bitLen + n - 1 - i
      invariant Stream(data[..])[..newLen] == before[..bitLen] + MsbBits(n, val)[..newLen - bitLen]
      invariant forall k :: newLen <= k < 8 * data.Length ==> !Stream(data[..])[k]
    {
      ghost var s := Stream(data[..]);
      AppendBit(data, newLen, Digit(val, i));
      OneMoreBit(s, Stream(data[..]), before[..bitLen], MsbBits(n, val), newLen);
      newLen := newLen + 1;
      i := i - 1;
    }
    assert MsbBits(n, val)[..n] == MsbBits(n, val);
  }

  lemma OneMoreBit(s: seq<bool>, t: seq<bool>, front: seq<bool>, bits: seq<bool>, p: nat)
    requires |front| <= p < |s| && p - |front| < |bits|
    requires s[..p] == front + bits[..p - |front|] && t == s[p := bits[p - |front|]]
    ensures t[..p + 1] == front + bits[..p + 1 - |front|]
  {
    assert t[..p + 1] == s[..p] + [bits[p - |front|]];
    assert bits[..p + 1 - |front|] == bits[..p - |front|] + [bits[p - |front|]];
  }

  /** One bit goes in at a place that holds zero. */
  method AppendBit(data: array<u8>, p: nat, bit: bool)
    requires p < 8 * data.Length && !Stream(data[..])[p]
    modifies data
    ensures Stream(data[..]) == Stream(old(data[..]))[p := bit]
  {
    hide SetBit, Digit, Stream;
    if bit {
      StreamOfSetBit(data[..], p);
      data[p / 8] := SetBit(data[p / 8], 7 - p % 8);
    }
  }

  lemma EmptyStream(bytes: seq<u8>)
    requires forall i :: 0 <= i < |bytes| ==> bytes[i] == 0
    ensures forall k :: 0 <= k < 8 * |bytes| ==> !Stream(bytes)[k]
  {
    forall k | 0 <= k < 8 * |bytes|
      ensures !Stream(bytes)[k]
    {
      DigitOfZero(7 - k % 8);
    }
  }

  /** Terminator and padding together are six zero bits. */
  lemma ZeroBits()
    ensures MsbBits(4, 0) + MsbBits(2, 0) == MsbBits(6, 0)
  {
    forall k: nat
      ensures !Digit(0, k)
    {
      DigitOfZero(k);
    }
  }

  method AppendGroups(code: seq<u8>, data: array<u8>, ghost header: seq<bool>) returns (bitLen: nat)
    requires ValidCode(code) && data.Length == DATA_CODEWORDS
    requires Stream(data[..])[..14] == header
    requires forall k :: 14 <= k < 8 * DATA_CODEWORDS ==> !Stream(data[..])[k]
    modifies data
    ensures bitLen == 34
    ensures Stream(data[..])[..34] == header + MsbBits(10, Group(code, 0)) + MsbBits(10, Group(code, 1))
    ensures forall k :: 34 <= k < 8 * DATA_CODEWORDS ==> !Stream(data[..])[k]
  {
    hide SetBit, Digit, Stream, MsbBits;
    bitLen := 14;
    for g := 0 to 2
      invariant bitLen == 14 + 10 * g
      invariant forall k :: bitLen <= k < 8 * DATA_CODEWORDS ==> !Stream(data[..])[k]
      invariant g == 0 ==> Stream(data[..])[..bitLen] == header
      invariant g == 1 ==> Stream(data[..])[..bitLen] == header + MsbBits(10, Group(code, 0))
      invariant g == 2 ==>
                  Stream(data[..])[..bitLen] == header + MsbBits(10, Group(code, 0)) + MsbBits(10, Group(code, 1))
    {
      bitLen := AppendBits(data, bitLen, Group(code, g), 10);
    }
  }

  /** Everything up to the error-correction stage. */
  method BuildPayload(code: seq<u8>, data: array<u8>)
    requires ValidCode(code) && data.Length == DATA_CODEWORDS
    modifies data
    ensures IsPayload(data[..], code)
  {
    hide SetBit, Digit, Stream, MsbBits;
    var bitLen := AppendHeader(data);
    ghost var header := Stream(data[..])[..14];
    bitLen := AppendGroups(code, data, header);
    var term := 8 * DATA_CODEWORDS - bitLen;
    if term > 4 {
      term := 4;
    }
    ghost var body := Stream(data[..])[..bitLen];
    bitLen := AppendBits(data, bitLen, 0, term);
    bitLen := AppendBits(data, bitLen, 0, (8 - bitLen % 8) % 8);
    ZeroBits();
    assert Stream(data[..])[..40] == PayloadBits(code);
    Pad(data, bitLen / 8);
  }

  /** The mode indicator and the digit count. */
  method AppendHeader(data: array<u8>) returns (bitLen: nat)
    requires data.Length == DATA_CODEWORDS
    modifies data
    ensures bitLen == 14
    ensures Stream(data[..])[..14] == MsbBits(4, 1) + MsbBits(10, 6)
    ensures forall k :: 14 <= k < 8 * DATA_CODEWORDS ==> !Stream(data[..])[k]
  {
    for i := 0 to DATA_CODEWORDS
      invariant forall k :: 0 <= k < i ==> data[k] == 0
    {
      data[i] := 0;
    }
    EmptyStream(data[..]);
    hide SetBit, Digit, Stream, MsbBits;
    bitLen := AppendBits(data, 0, 0x1, 4);
    bitLen := AppendBits(data, bitLen, 6, 10);
  }

  method Pad(data: array<u8>, used: nat)
    requires data.Length == DATA_CODEWORDS && used == 5
    modifies data
    ensures Stream(data[..])[..40] == Stream(old(data[..]))[..40]
    ensures forall i :: 5 <= i < DATA_CODEWORDS ==> data[i] == PadByte(i - 5)
  {
    for i := used to DATA_CODEWORDS
      invariant data[..5] == old(data[..5])
      invariant forall k :: 5 <= k < i ==> data[k] == PadByte(k - 5)
    {
      data[i] := if (i - used) % 2 == 0 then 0xEC else 0x11;
    }
    hide Stream;
    StreamPrefix(data[..], old(data[..]), 5);
  }

  /** The nineteen data codewords, as a value. */
  function Payload(code: seq<u8>): (data: seq<u8>)
    requires ValidCode(code)
    ensures |data| == DATA_CODEWORDS
  {
    Bytes(PayloadBits(code)) + seq(14, i requires 0 <= i => PadByte(i))
  }

  lemma PayloadIsUnique(data: seq<u8>, code: seq<u8>)
    requires ValidCode(code) && IsPayload(data, code)
    ensures data == Payload(code)
  {
    assert Stream(data[..5]) == Stream(data)[..40];
    BytesOfStream(data[..5]);
    forall i | 0 <= i < DATA_CODEWORDS
      ensures data[i] == Payload(code)[i]
    {
      if i < 5 {
        assert data[..5][i] == Bytes(PayloadBits(code))[i];
      } else {
        assert data[i] == PadByte(i - 5);
      }
    }
  }

  lemma PayloadIsPayload(code: seq<u8>)
    requires ValidCode(code)
    ensures IsPayload(Payload(code), code)
  {
    var data := Payload(code);
    StreamOfBytes(PayloadBits(code));
    assert data[..5] == Bytes(PayloadBits(code));
    StreamOfPrefix(data, 5);
  }

  const FILLER: seq<u8> :=
    [0xEC, 0x11, 0xEC, 0x11, 0xEC, 0x11, 0xEC] + [0x11, 0xEC, 0x11, 0xEC, 0x11, 0xEC, 0x11]

  /** After the two groups come six zero bits and then the standard's alternating pad codewords. */
  lemma FillerIsStandard(code: seq<u8>)
    requires ValidCode(code)
    ensures Payload(code)[5..] == FILLER
    ensures forall k :: 34 <= k < 40 ==> !Stream(Payload(code))[k]
  {
    PayloadIsPayload(code);
    var s := Stream(Payload(code));
    forall k | 34 <= k < 40
      ensures !s[k]
    {
      assert s[k] == s[..40][k] == PayloadBits(code)[k] == MsbBits(6, 0)[k - 34];
      DigitOfZero(5 - (k - 34));
    }
    hide Payload, PayloadBits;
  }
}
