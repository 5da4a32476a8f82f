/** Unsigned machine words as bounded integers, with their binary digits.
  *
  * Shifts are multiplications and divisions by powers of two; exclusive or is
  * defined on the digits. Widths are explicit wherever the firmware truncates.
  * Counting, clock differences and remainders for the other modules are here too.
  */
module Words {
  import opened BinaryField

  type u8 = x: int | 0 <= x < 0x100
  type u16 = x: int | 0 <= x < 0x1_0000
  type u32 = x: int | 0 <= x < 0x1_0000_0000

  datatype Option<T> = None | Some(value: T)

  function Reversed<T>(s: seq<T>): (r: seq<T>)
    ensures |r| == |s|
  {
    seq(|s|, i requires 0 <= i < |s| => s[|s| - 1 - i])
  }

  function Zeros(n: nat): (z: seq<u8>)
    ensures |z| == n
  {
    seq(n, _ => 0)
  }

  /** u32 difference now - before. */
  function Since(before: u32, now: u32): u32 {
    (now - before + 0x1_0000_0000) % 0x1_0000_0000
  }

  // ── Big-endian bytes ──────────────────────────────────────────────────────

  function Be2(v: u16): (b: seq<u8>)
    ensures |b| == 2
  {
    [v / 0x100, v % 0x100]
  }

  function FromBe2(b: seq<u8>): u16
    requires |b| == 2
  {
    b[0] as int * 0x100 + b[1]
  }

  function Be4(v: u32): (b: seq<u8>)
    ensures |b| == 4
  {
    [v / 0x100_0000, v / 0x1_0000 % 0x100, v / 0x100 % 0x100, v % 0x100]
  }

  function FromBe4(b: seq<u8>): u32
    requires |b| == 4
  {
    b[0] as int * 0x100_0000 + b[1] as int * 0x1_0000 + b[2] as int * 0x100 + b[3]
  }

  lemma Be4ReadsBack(v: u32)
    ensures FromBe4(Be4(v)) == v
  {
    assert v / 0x1_0000 == v / 0x100 / 0x100;
    assert v / 0x100_0000 == v / 0x1_0000 / 0x100;
  }

  // ── Binary digits ─────────────────────────────────────────────────────────

  function Pow2(n: nat): (p: nat)
    ensures p >= 1
  {
    if n == 0 then 1 else 2 * Pow2(n - 1)
  }

  lemma Pow2Values()
    ensures Pow2(7) == 0x80 && Pow2(8) == 0x100 && Pow2(9) == 0x200
    ensures Pow2(15) == 0x8000 && Pow2(16) == 0x1_0000
    ensures Pow2(32) == 0x1_0000_0000
  {
    assert Pow2(8) == 0x100;
    assert Pow2(12) == 0x1000;
    assert Pow2(16) == 0x1_0000;
    assert Pow2(20) == 0x10_0000;
    assert Pow2(24) == 0x100_0000;
    assert Pow2(28) == 0x1000_0000;
    assert Pow2(30) == 0x4000_0000;
  }

  /** v >> k. */
  function Shr(v: nat, k: nat): nat {
    if k == 0 then v else Shr(v / 2, k - 1)
  }

  /** Binary digit k of v. */
  predicate Digit(v: nat, k: nat) {
    Shr(v, k) % 2 == 1
  }

  /** The n low binary digits of v, least significant first. */
  function ToBits(n: nat, v: nat): (s: seq<bool>)
    ensures |s| == n
    ensures forall i :: 0 <= i < n ==> s[i] == Digit(v, i)
  {
    seq(n, i requires 0 <= i => Digit(v, i))
  }

  function FromBits(s: seq<bool>): (v: nat) {
    if s == [] then 0 else (if s[0] then 1 else 0) + 2 * FromBits(s[1..])
  }

  /** Bitwise exclusive or of words of at most 32 bits. */
  function BitXor(a: u32, b: u32): u32 {
    XorInRange(a, b);
    FromBits(Xor(ToBits(32, a), ToBits(32, b)))
  }

  lemma XorInRange(a: u32, b: u32)
    ensures FromBits(Xor(ToBits(32, a), ToBits(32, b))) < 0x1_0000_0000
  {
    ToFromBits(Xor(ToBits(32, a), ToBits(32, b)));
    Pow2Values();
  }

  lemma ToBitsTail(n: nat, v: nat)
    requires n > 0
    ensures ToBits(n, v)[0] == (v % 2 == 1)
    ensures ToBits(n, v)[1..] == ToBits(n - 1, v / 2)
  {
    assert Shr(v, 0) == v;
    forall i: nat | i < n - 1
      ensures ToBits(n, v)[1..][i] == ToBits(n - 1, v / 2)[i]
    {
      assert Shr(v, i + 1) == Shr(v / 2, i);
    }
  }

  lemma {:induction false} FromToBits(n: nat, v: nat)
    requires v < Pow2(n)
    ensures FromBits(ToBits(n, v)) == v
  {
    if n == 0 {
    } else {
      ToBitsTail(n, v);
      FromToBits(n - 1, v / 2);
    }
  }

  lemma {:induction false} ToFromBits(s: seq<bool>)
    ensures FromBits(s) < Pow2(|s|)
    ensures ToBits(|s|, FromBits(s)) == s
  {
    if s == [] {
    } else {
      ToFromBits(s[1..]);
      var v := FromBits(s);
      assert v % 2 == (if s[0] then 1 else 0) && v / 2 == FromBits(s[1..]);
      ToBitsTail(|s|, v);
      HeadAndTail(ToBits(|s|, v), s);
    }
  }

  lemma HeadAndTail(a: seq<bool>, b: seq<bool>)
    requires a != [] && b != [] && a[0] == b[0] && a[1..] == b[1..]
    ensures a == b
  {
    assert a == [a[0]] + a[1..] && b == [b[0]] + b[1..];
  }

  lemma ToBitsInjective(n: nat, a: nat, b: nat)
    requires a < Pow2(n) && b < Pow2(n)
    requires ToBits(n, a) == ToBits(n, b)
    ensures a == b
  {
    FromToBits(n, a);
    FromToBits(n, b);
  }

  lemma {:induction false} DigitOfZero(k: nat)
    ensures !Digit(0, k)
  {
    if k > 0 {
      DigitOfZero(k - 1);
    }
  }

  lemma ToBitsZero(n: nat)
    ensures ToBits(n, 0) == Zero(n)
  {
    forall i: nat | i < n
      ensures !ToBits(n, 0)[i]
    {
      DigitOfZero(i);
    }
  }

  lemma ToBitsXor(n: nat, a: u32, b: u32)
    requires n <= 32
    ensures ToBits(n, BitXor(a, b)) == Xor(ToBits(n, a), ToBits(n, b))
  {
    var s := Xor(ToBits(32, a), ToBits(32, b));
    ToFromBits(s);
    forall i: nat | i < n
      ensures ToBits(n, BitXor(a, b))[i] == (ToBits(n, a)[i] != ToBits(n, b)[i])
    {
      assert ToBits(32, BitXor(a, b))[i] == s[i];
    }
  }

  /** Digits at and above position n vanish exactly below 2^n. */
  lemma {:induction false} HighDigits(n: nat, v: nat, k: nat)
    requires v < Pow2(n) && k >= n
    ensures !Digit(v, k)
    decreases n, k
  {
    if n == 0 {
      DigitOfZero(k);
    } else {
      HighDigits(n - 1, v / 2, k - 1);
    }
  }

  lemma {:induction false} FewDigits(n: nat, s: seq<bool>)
    requires n <= |s|
    requires forall i :: n <= i < |s| ==> !s[i]
    ensures FromBits(s) < Pow2(n)
    decreases |s|
  {
    if s == [] {
    } else if n == 0 {
      FewDigits(0, s[1..]);
    } else {
      FewDigits(n - 1, s[1..]);
    }
  }

  lemma BitXorBound(n: nat, a: u32, b: u32)
    requires n <= 32
    requires a < Pow2(n) && b < Pow2(n)
    ensures BitXor(a, b) < Pow2(n)
  {
    var s := Xor(ToBits(32, a), ToBits(32, b));
    forall i | n <= i < 32
      ensures !s[i]
    {
      HighDigits(n, a, i);
      HighDigits(n, b, i);
    }
    FewDigits(n, s);
  }

  lemma BitXorCommutes(a: u32, b: u32)
    ensures BitXor(a, b) == BitXor(b, a)
  {
    assert Xor(ToBits(32, a), ToBits(32, b)) == Xor(ToBits(32, b), ToBits(32, a));
  }

  lemma BitXorAssociates(a: u32, b: u32, c: u32)
    ensures BitXor(BitXor(a, b), c) == BitXor(a, BitXor(b, c))
  {
    ToBitsXor(32, a, b);
    ToBitsXor(32, b, c);
    assert Xor(Xor(ToBits(32, a), ToBits(32, b)), ToBits(32, c)) ==
           Xor(ToBits(32, a), Xor(ToBits(32, b), ToBits(32, c)));
  }

  lemma BitXorZero(a: u32)
    ensures BitXor(a, 0) == a && BitXor(0, a) == a
    ensures BitXor(a, a) == 0
  {
    var s := ToBits(32, a);
    ToBitsZero(32);
    assert Xor(s, Zero(32)) == s && Xor(Zero(32), s) == s;
    assert Xor(s, s) == ToBits(32, 0);
    Pow2Values();
    FromToBits(32, a);
    FromToBits(32, 0);
  }

  lemma BitXorIsZero(a: u32, b: u32)
    ensures BitXor(a, b) == 0 <==> a == b
  {
    BitXorCancel(a, b);
    BitXorZero(a);
    BitXorZero(b);
  }

  lemma BitXorCancel(a: u32, b: u32)
    ensures BitXor(BitXor(a, b), b) == a
    ensures BitXor(b, BitXor(b, a)) == a
  {
    BitXorAssociates(a, b, b);
    BitXorAssociates(b, b, a);
    BitXorZero(a);
    BitXorZero(b);
  }

  /** Digit-by-digit check that a ^ b is c, for constants. */
  predicate XorsTo(a: nat, b: nat, c: nat) {
    if a == 0 && b == 0 then c == 0
    else c % 2 == (a + b) % 2 && XorsTo(a / 2, b / 2, c / 2)
  }

  lemma {:induction false} XorsToDigits(a: nat, b: nat, c: nat, i: nat)
    requires XorsTo(a, b, c)
    ensures Digit(c, i) == (Digit(a, i) != Digit(b, i))
  {
    if a == 0 && b == 0 {
      DigitOfZero(i);
    } else if i > 0 {
      XorsToDigits(a / 2, b / 2, c / 2, i - 1);
      hide XorsTo;
    } else {
      ParityOfSum(a, b);
      hide XorsTo;
    }
  }

  lemma ParityOfSum(a: nat, b: nat)
    ensures (a + b) % 2 == if (a % 2 == 1) != (b % 2 == 1) then 1 else 0
  {
  }

  lemma XorsToIsBitXor(a: u32, b: u32, c: u32)
    requires XorsTo(a, b, c)
    ensures BitXor(a, b) == c
  {
    Pow2Values();
    ToBitsXor(32, a, b);
    forall i: nat | i < 32
      ensures ToBits(32, BitXor(a, b))[i] == ToBits(32, c)[i]
    {
      XorsToDigits(a, b, c, i);
    }
    ToBitsInjective(32, BitXor(a, b), c);
  }

  // ── Shifts on digits ──────────────────────────────────────────────────────

  /** w << n. */
  lemma {:induction false} DigitOfShifted(n: nat, w: nat, i: nat)
    ensures Digit(Pow2(n) * w, i) == (i >= n && Digit(w, i - n))
    decreases n
  {
    if n == 0 {
    } else {
      var u := Pow2(n - 1) * w;
      assert Pow2(n) * w == 2 * u;
      if i == 0 {
        assert Shr(2 * u, 0) == 2 * u;
      } else {
        assert (2 * u) / 2 == u;
        DigitOfShifted(n - 1, w, i - 1);
      }
    }
  }

  /** v / p. */
  function Quot(v: nat, p: nat): nat
    requires p > 0
  {
    v / p
  }

  /** w >> n. */
  lemma {:induction false} DigitAbove(n: nat, v: nat, i: nat)
    ensures Digit(Quot(v, Pow2(n)), i) == Digit(v, i + n)
    decreases n
  {
    if n > 0 {
      DigitAbove(n - 1, v / 2, i);
      DivTwice(v, Pow2(n - 1));
    }
  }

  lemma DivTwice(v: nat, p: nat)
    requires p > 0
    ensures v / (2 * p) == v / 2 / p
  {
    Halves(v, p);
  }

  lemma Halves(v: nat, p: nat)
    requires p > 0
    ensures v / (2 * p) == v / 2 / p && v % (2 * p) == 2 * ((v / 2) % p) + v % 2
  {
    DivMod(v / 2, p);
    Doubled(v, p, v / 2 / p, (v / 2) % p);
  }

  lemma DivMod(v: nat, d: nat)
    requires d > 0
    ensures v == (v / d) * d + v % d && v % d < d
  {
  }

  lemma Doubled(v: nat, p: nat, q: nat, m: nat)
    requires p > 0 && m < p && v / 2 == q * p + m
    ensures v / (2 * p) == q && v % (2 * p) == 2 * m + v % 2
  {
    assert 2 * (q * p) == q * (2 * p);
    ModUnique(v, 2 * p, q, 2 * m + v % 2);
  }

  lemma ToBitsDouble(n: nat, v: nat)
    requires n > 0
    ensures ToBits(n, 2 * v) == [false] + ToBits(n, v)[..n - 1]
  {
    assert (2 * v) / 2 == v;
    ToBitsTail(n, 2 * v);
    var s := ToBits(n, 2 * v);
    assert s == [s[0]] + s[1..];
    assert ToBits(n - 1, v) == ToBits(n, v)[..n - 1];
  }

  lemma {:induction false} DigitMod(n: nat, v: nat, k: nat)
    requires k < n
    ensures Digit(v % Pow2(n), k) == Digit(v, k)
    decreases k
  {
    ModHalves(v, Pow2(n - 1));
    if k == 0 {
    } else {
      DigitMod(n - 1, v / 2, k - 1);
    }
  }

  lemma ToBitsMod(n: nat, v: nat)
    ensures ToBits(n, v % Pow2(n)) == ToBits(n, v)
  {
    forall i: nat | i < n
      ensures ToBits(n, v % Pow2(n))[i] == ToBits(n, v)[i]
    {
      DigitMod(n, v, i);
    }
  }

  lemma ModHalves(v: nat, p: nat)
    requires p > 0
    ensures (v % (2 * p)) / 2 == (v / 2) % p
    ensures (v % (2 * p)) % 2 == v % 2
  {
    Halves(v, p);
  }

  lemma ModUnique(a: nat, p: nat, q: nat, m: nat)
    requires p > 0 && m < p && a == q * p + m
    ensures a % p == m && a / p == q
  {
    var d := a / p - q;
    assert a % p == a - (a / p) * p;
    assert (a / p) * p == (q + d) * p == q * p + d * p;
    assert m - a % p == d * p;
    if d >= 1 {
      MulAtLeast(d, p);
      assert false;
    } else if d <= -1 {
      MulAtLeast(-d, p);
      assert false;
    }
  }

  lemma MulAtLeast(d: int, p: nat)
    requires d >= 1
    ensures d * p >= p
    ensures (-d) * p <= -(p as int)
  {
    assert d * p == (d - 1) * p + p;
  }

  /** The top digit of an n-digit number. */
  lemma {:induction false} TopDigit(n: nat, v: nat)
    requires n > 0 && v < Pow2(n)
    ensures Digit(v, n - 1) == (v >= Pow2(n - 1))
  {
    if n == 1 {
      assert Shr(v, 0) == v;
    } else {
      TopDigit(n - 1, v / 2);
    }
  }

  /** Shift left and, when the top digit falls out, fold it back through the full
    * modulus (n + 1 digits): the value stays below 2^n and is multiplied by x. */
  lemma FoldTopBit(n: nat, r: seq<bool>, modulus: u32, z: u32)
    requires 0 < n < 32 && |r| == n && z < Pow2(n) && modulus < Pow2(n + 1) && 2 * z < 0x1_0000_0000
    requires ToBits(n + 1, modulus) == Modulus(r)
    ensures BitXor(2 * z, if z >= Pow2(n - 1) then modulus else 0) < Pow2(n)
    ensures ToBits(n, BitXor(2 * z, if z >= Pow2(n - 1) then modulus else 0)) == TimesX(r, ToBits(n, z))
  {
    var top := z >= Pow2(n - 1);
    var m := if top then modulus else 0;
    var w := BitXor(2 * z, m);
    var zs := ToBits(n, z);
    BitXorBound(n + 1, 2 * z, m);
    TopDigit(n, z);
    var ws := ToBits(n + 1, w);
    assert ws == Xor([false] + zs, Scale(top, Modulus(r))) by {
      ToBitsDouble(n + 1, z);
      assert ToBits(n + 1, z)[..n] == zs;
      ToBitsZero(n + 1);
      ToBitsXor(n + 1, 2 * z, m);
    }
    assert !ws[n];
    TopDigit(n + 1, w);
    assert ToBits(n, w) == ws[..n];
    assert ws[..n] == TimesX(r, zs);
  }

  /** The same step when the word is truncated to n digits and only the low part of
    * the modulus is folded in. */
  lemma FoldTruncated(n: nat, r: seq<bool>, low: u32, z: u32)
    requires 0 < n <= 32 && |r| == n && z < Pow2(n) && low < Pow2(n)
    requires ToBits(n, low) == r
    requires (2 * z) % Pow2(n) < 0x1_0000_0000
    ensures BitXor((2 * z) % Pow2(n), if z >= Pow2(n - 1) then low else 0) < Pow2(n)
    ensures ToBits(n, BitXor((2 * z) % Pow2(n), if z >= Pow2(n - 1) then low else 0)) == TimesX(r, ToBits(n, z))
  {
    var top := z >= Pow2(n - 1);
    var m := if top then low else 0;
    var zs := ToBits(n, z);
    var shifted := (2 * z) % Pow2(n);
    BitXorBound(n, shifted, m);
    TopDigit(n, z);
    assert ToBits(n, shifted) == [false] + zs[..n - 1] by {
      ToBitsMod(n, 2 * z);
      ToBitsDouble(n, z);
    }
    assert ToBits(n, m) == Scale(top, r) by { ToBitsZero(n); }
    ToBitsXor(n, shifted, m);
    assert Xor([false] + zs[..n - 1], Scale(top, r)) == TimesX(r, zs);
  }

  // ── Wrapping counters ─────────────────────────────────────────────────────

  /** A 16-bit counter after i increments. */
  function Count16(start: u16, i: nat): u16 {
    (start + i) % 0x1_0000
  }

  function Next16(n: u16): u16 {
    (n + 1) % 0x1_0000
  }

  lemma CountOneMore(start: u16, i: nat)
    ensures Next16(Count16(start, i)) == Count16(start, i + 1)
    ensures Count16(start, 0) == start
  {
  }

  lemma {:induction false} AddDigit(n: nat, b: nat, k: nat)
    requires k < n && b < Pow2(n) && !Digit(b, k)
    ensures b + Pow2(k) < Pow2(n)
    ensures forall i: nat :: Digit(b + Pow2(k), i) == (i == k || Digit(b, i))
    decreases n
  {
    var c := b + Pow2(k);
    if k == 0 {
      assert b % 2 == 0 && c / 2 == b / 2;
      assert Pow2(n) == 2 * Pow2(n - 1);
      forall i: nat
        ensures Digit(c, i) == (i == 0 || Digit(b, i))
      {
        assert i > 0 ==> Shr(c, i) == Shr(c / 2, i - 1) && Shr(b, i) == Shr(b / 2, i - 1);
      }
    } else {
      assert Shr(b, k) == Shr(b / 2, k - 1);
      AddDigit(n - 1, b / 2, k - 1);
      assert c / 2 == b / 2 + Pow2(k - 1) && c % 2 == b % 2;
      forall i: nat
        ensures Digit(c, i) == (i == k || Digit(b, i))
      {
        assert i > 0 ==> Shr(c, i) == Shr(c / 2, i - 1) && Shr(b, i) == Shr(b / 2, i - 1);
        assert i > 0 ==> Digit(c, i) == Digit(c / 2, i - 1) && Digit(b, i) == Digit(b / 2, i - 1);
      }
    }
  }
}
