/** Bytes as bit streams, most significant bit first.
  *
  * The QR payload, the placement of codewords and the checksum all read bytes this way. The stream
  * of a byte string determines the bytes and is determined by them, and the bits of a number of any
  * width read back as the number; the codecs' round trips rest on these two facts.
  */
module BitStream {
  import opened Words

  function MsbBits(n: nat, v: nat): (s: seq<bool>)
    ensures |s| == n
    ensures forall i :: 0 <= i < n ==> s[i] == Digit(v, n - 1 - i)
  {
    seq(n, i requires 0 <= i < n => Digit(v, n - 1 - i))
  }

  function MsbValue(s: seq<bool>): nat {
    if s == [] then 0 else 2 * MsbValue(s[..|s| - 1]) + (if s[|s| - 1] then 1 else 0)
  }

  lemma {:induction false} MsbRoundTrip(n: nat, v: nat)
    requires v < Pow2(n)
    ensures MsbValue(MsbBits(n, v)) == v
  {
    if n > 0 {
      var s, t := MsbBits(n, v), MsbBits(n - 1, v / 2);
      forall i | 0 <= i < n - 1
        ensures s[i] == t[i]
      {
        var m: nat := n - 2 - i;
        assert s[i] == Digit(v, m + 1);
        assert t[i] == Digit(v / 2, m);
        assert Shr(v, m + 1) == Shr(v / 2, m);
      }
      assert s[..n - 1] == t;
      assert Shr(v, 0) == v;
      MsbRoundTrip(n - 1, v / 2);
    }
  }

  /** The bits of a byte sequence in transmission order. */
  function Stream(bytes: seq<u8>): (s: seq<bool>)
    ensures |s| == 8 * |bytes|
  {
    seq(8 * |bytes|, k requires 0 <= k < 8 * |bytes| => Digit(bytes[k / 8], 7 - k % 8))
  }

  function Bytes(s: seq<bool>): (b: seq<u8>)
    requires |s| % 8 == 0
    ensures |b| == |s| / 8
  {
    seq(|s| / 8, i requires 0 <= i < |s| / 8 => ByteValue(s[8 * i..8 * i + 8]))
  }

  function ByteValue(s: seq<bool>): u8
    requires |s| == 8
  {
    MsbValueBound(s);
    Pow2Values();
    MsbValue(s)
  }

  lemma {:induction false} MsbValueBound(s: seq<bool>)
    ensures MsbValue(s) < Pow2(|s|)
  {
    if s != [] {
      MsbValueBound(s[..|s| - 1]);
    }
  }

  lemma BytesOfStream(bytes: seq<u8>)
    ensures Bytes(Stream(bytes)) == bytes
  {
    var s := Stream(bytes);
    forall i | 0 <= i < |bytes|
      ensures Bytes(s)[i] == bytes[i]
    {
      assert s[8 * i..8 * i + 8] == MsbBits(8, bytes[i]);
      Pow2Values();
      MsbRoundTrip(8, bytes[i]);
    }
  }

  lemma {:induction false} MsbBitsOfValue(s: seq<bool>)
    ensures MsbBits(|s|, MsbValue(s)) == s
  {
    if s != [] {
      var n := |s| - 1;
      var v := MsbValue(s);
      MsbBitsOfValue(s[..n]);
      assert v / 2 == MsbValue(s[..n]);
      forall i | 0 <= i < |s|
        ensures MsbBits(|s|, v)[i] == s[i]
      {
        if i < n {
          var m: nat := n - 1 - i;
          assert Shr(v, m + 1) == Shr(v / 2, m);
          assert MsbBits(n, v / 2)[i] == s[..n][i];
        } else {
          assert Shr(v, 0) == v;
        }
      }
    }
  }

  lemma StreamOfBytes(s: seq<bool>)
    requires |s| % 8 == 0
    ensures Stream(Bytes(s)) == s
  {
    forall k | 0 <= k < |s|
      ensures Stream(Bytes(s))[k] == s[k]
    {
      var w := s[8 * (k / 8)..8 * (k / 8) + 8];
      MsbBitsOfValue(w);
      assert MsbBits(8, MsbValue(w))[k % 8] == w[k % 8];
    }
  }

  lemma StreamPrefix(a: seq<u8>, b: seq<u8>, n: nat)
    requires |a| == |b| && n <= |a| && a[..n] == b[..n]
    ensures Stream(a)[..8 * n] == Stream(b)[..8 * n]
  {
    forall k | 0 <= k < 8 * n
      ensures Stream(a)[k] == Stream(b)[k]
    {
      assert a[..n][k / 8] == b[..n][k / 8];
    }
  }

  lemma StreamOfPrefix(a: seq<u8>, n: nat)
    requires n <= |a|
    ensures Stream(a[..n]) == Stream(a)[..8 * n]
  {
  }
}
