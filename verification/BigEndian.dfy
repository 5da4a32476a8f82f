/** Byte strings as numbers, most significant byte first, told without powers or shifts.
  *
  * The firmware writes counters and lengths with shifts and masks; here the same bytes are read
  * back with nothing but multiplication by 256, so that what a field means is said apart from how
  * it was written.
  */
module BigEndian {
  import opened Words

  function Number(b: seq<u8>): nat {
    if b == [] then 0 else 256 * Number(b[..|b| - 1]) + b[|b| - 1]
  }

  /** The n low bytes of v. */
  function LowBytes(v: nat, n: nat): (b: seq<u8>)
    ensures |b| == n
  {
    if n == 0 then [] else LowBytes(v / 256, n - 1) + [v % 256]
  }

  lemma {:induction false} NumberOfLowBytes(v: nat, n: nat)
    ensures Number(LowBytes(v, n)) == v % Pow2(8 * n)
  {
    if n == 0 {
      assert Pow2(0) == 1;
    } else {
      NumberOfLowBytes(v / 256, n - 1);
      Pow2Bytes(n);
      WholeMod(v, Pow2(8 * (n - 1)));
    }
  }

  lemma Pow2Bytes(n: nat)
    requires n > 0
    ensures Pow2(8 * n) == 256 * Pow2(8 * (n - 1)) && Pow2(8 * (n - 1)) > 0
  {
    EightDoublings(8 * (n - 1));
  }

  lemma EightDoublings(k: nat)
    ensures Pow2(k + 8) == 256 * Pow2(k)
  {
    FourDoublings(k);
    FourDoublings(k + 4);
    hide Pow2;
  }

  lemma FourDoublings(k: nat)
    ensures Pow2(k + 4) == 16 * Pow2(k)
  {
    assert Pow2(k + 1) == 2 * Pow2(k);
    assert Pow2(k + 2) == 2 * Pow2(k + 1);
    assert Pow2(k + 3) == 2 * Pow2(k + 2);
    assert Pow2(k + 4) == 2 * Pow2(k + 3);
  }

  lemma WholeMod(v: nat, p: nat)
    requires p > 0
    ensures v % (256 * p) == 256 * ((v / 256) % p) + v % 256
    ensures v / (256 * p) == v / 256 / p
  {
    var w := v / 256;
    DivMod(w, p);
    Widened(v, p, w / p, w % p);
  }

  lemma Widened(v: nat, p: nat, q: nat, m: nat)
    requires p > 0 && m < p && v / 256 == q * p + m
    ensures v / (256 * p) == q && v % (256 * p) == 256 * m + v % 256
  {
    assert 256 * (q * p) == q * (256 * p);
    ModUnique(v, 256 * p, q, 256 * m + v % 256);
  }

  /** Byte i of n, counted from the front, by division. */
  lemma {:induction false} LowBytesAt(v: nat, n: nat, i: nat)
    requires i < n
    ensures LowBytes(v, n)[i] == v / Pow2(8 * (n - 1 - i)) % 256
  {
    if i == n - 1 {
      assert Pow2(0) == 1;
    } else {
      LowBytesAt(v / 256, n - 1, i);
      var p := Pow2(8 * (n - 2 - i));
      Pow2Bytes(n - 1 - i);
      WholeMod(v, p);
    }
  }
}
