/** Digests as hexadecimal text, and the comparison the head makes of two of them. */
module OtaHex {
  import opened OtaManifest
  import opened Words

  const HEX: string := "0123456789abcdef"

  function Hex(d: seq<u8>): (s: string)
    ensures |s| == 2 * |d|
  {
    seq(2 * |d|, i requires 0 <= i < 2 * |d| => HEX[if i % 2 == 0 then d[i / 2] / 16 else d[i / 2] % 16])
  }

  method BytesToHex(d: seq<u8>, out: array<char>)
    requires out.Length >= 2 * |d|
    modifies out
    ensures out[..2 * |d|] == Hex(d)
  {
    for k := 0 to |d|
      invariant forall i :: 0 <= i < 2 * k ==> out[i] == Hex(d)[i]
    {
      out[2 * k] := HEX[d[k] / 16];
      out[2 * k + 1] := HEX[d[k] % 16];
    }
  }

  function LowerHex(c: char): char {
    if 'A' <= c <= 'F' then (c as int + 32) as char else c
  }

  predicate Matches(actual: string, expected: string) {
    && IsHex64(actual) && IsHex64(expected)
    && forall i :: 0 <= i < SHA_HEX_LEN ==> LowerHex(actual[i]) == LowerHex(expected[i])
  }

  method ManifestMatches(actual: string, expected: string) returns (same: bool)
    ensures same <==> Matches(actual, expected)
  {
    if !IsHex64(actual) || !IsHex64(expected) {
      return false;
    }
    for k := 0 to SHA_HEX_LEN
      invariant forall i :: 0 <= i < k ==> LowerHex(actual[i]) == LowerHex(expected[i])
    {
      if LowerHex(actual[k]) != LowerHex(expected[k]) {
        return false;
      }
    }
    return true;
  }


  lemma HexDigits(n: nat, m: nat)
    requires n < 16 && m < 16
    ensures IsHexChar(HEX[n]) && LowerHex(HEX[n]) == HEX[n]
    ensures HEX[n] == HEX[m] ==> n == m
  {
    NibbleValue(n);
    NibbleValue(m);
  }

  lemma NibbleValue(n: nat)
    requires n < 16
    ensures HEX[n] as int == if n < 10 then 48 + n else 87 + n
  {
  }

  lemma HexIsLowerCase(d: seq<u8>)
    requires |d| == 32
    ensures IsHex64(Hex(d))
    ensures forall i :: 0 <= i < SHA_HEX_LEN ==> LowerHex(Hex(d)[i]) == Hex(d)[i]
  {
    forall i | 0 <= i < SHA_HEX_LEN
      ensures IsHexChar(Hex(d)[i]) && LowerHex(Hex(d)[i]) == Hex(d)[i]
    {
      var x := if i % 2 == 0 then d[i / 2] / 16 else d[i / 2] % 16;
      HexDigits(x, x);
    }
  }

  lemma HexIsInjective(a: seq<u8>, b: seq<u8>)
    requires |a| == |b| && Hex(a) == Hex(b)
    ensures a == b
  {
    forall k | 0 <= k < |a| ensures a[k] == b[k] {
      assert Hex(a)[2 * k] == Hex(b)[2 * k];
      assert Hex(a)[2 * k + 1] == Hex(b)[2 * k + 1];
      HexDigits(a[k] / 16, b[k] / 16);
      HexDigits(a[k] % 16, b[k] % 16);
    }
  }

  /** The comparison succeeds on two written digests exactly when the digests are equal. */
  lemma MatchesIsEquality(a: seq<u8>, b: seq<u8>)
    requires |a| == 32 && |b| == 32
    ensures IsHex64(Hex(a))
    ensures Matches(Hex(a), Hex(b)) <==> a == b
  {
    HexIsLowerCase(a);
    HexIsLowerCase(b);
    if Matches(Hex(a), Hex(b)) {
      hide Hex, IsHex64, LowerHex;
      assert forall i :: 0 <= i < SHA_HEX_LEN ==> Hex(a)[i] == Hex(b)[i];
      assert Hex(a) == Hex(b);
      HexIsInjective(a, b);
    }
  }

  /** The lower-case digit of a value, counted from the characters' codes. */
  function DigitOf(v: nat): int
    requires v < 16
  {
    if v < 10 then '0' as int + v else 'a' as int + v - 10
  }

  lemma HexAlphabet(v: nat)
    requires v < 16
    ensures HEX[v] as int == DigitOf(v)
  {
    assert |HEX| == 16;
  }

  /** Two lower-case digits a byte, the high one first. */
  lemma HexIs(d: seq<u8>, i: nat)
    requires i < |d|
    ensures Hex(d)[2 * i] as int == DigitOf(d[i] / 16) && Hex(d)[2 * i + 1] as int == DigitOf(d[i] % 16)
  {
    HexAlphabet(d[i] / 16);
    HexAlphabet(d[i] % 16);
  }

  /** The value of a digit in either case. */
  function HexValue(c: char): int
    requires IsHexChar(c)
  {
    if c <= '9' then c as int - '0' as int
    else if c <= 'F' then c as int - 'A' as int + 10
    else c as int - 'a' as int + 10
  }

  lemma LowerIsSameValue(a: char, b: char)
    requires IsHexChar(a) && IsHexChar(b)
    ensures LowerHex(a) == LowerHex(b) <==> HexValue(a) == HexValue(b)
  {
  }

  /** Two texts match exactly when they are digests of equal value, digit by digit. */
  lemma MatchesIff(a: string, b: string)
    ensures Matches(a, b) <==>
            IsHex64(a) && IsHex64(b) && forall i :: 0 <= i < 64 ==> HexValue(a[i]) == HexValue(b[i])
  {
    hide LowerHex, HexValue, IsHexChar;
    if IsHex64(a) && IsHex64(b) {
      forall i | 0 <= i < 64
        ensures LowerHex(a[i]) == LowerHex(b[i]) <==> HexValue(a[i]) == HexValue(b[i])
      {
        LowerIsSameValue(a[i], b[i]);
      }
    }
  }
}
