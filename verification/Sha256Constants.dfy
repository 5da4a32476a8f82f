/** Where the hash's constants come from (sections 4.2.2 and 5.3.3 of FIPS 180-4): the first 32 bits
  * of the fractional parts of the cube roots of the first 64 primes, and of the square roots of
  * the first eight. Primes are found by trial division and roots by comparing whole cubes and
  * squares, so nothing is rounded.
  */
module Sha256Constants {
  import opened Words
  import S = Sha256

  const PRIMES: seq<nat> :=
    [2, 3, 5, 7, 11, 13, 17, 19] +
    [23, 29, 31, 37, 41, 43, 47, 53] +
    [59, 61, 67, 71, 73, 79, 83, 89] +
    [97, 101, 103, 107, 109, 113, 127, 131] +
    [137, 139, 149, 151, 157, 163, 167, 173] +
    [179, 181, 191, 193, 197, 199, 211, 223] +
    [227, 229, 233, 239, 241, 251, 257, 263] +
    [269, 271, 277, 281, 283, 293, 307, 311]

  predicate IsPrime(n: nat) {
    n >= 2 && forall d :: 2 <= d < n ==> n % d != 0
  }

  /** q and 32 binary places r are the cube root of p, cut off. */
  predicate CubeAround(p: nat, q: nat, r: u32) {
    var x := q * 0x1_0000_0000 + r;
    Cube(x) <= p * 0x1_0000_0000_0000_0000_0000_0000 < Cube(x + 1)
  }

  ghost predicate IsCubeRootFraction(p: nat, r: u32) {
    exists q: nat :: CubeAround(p, q, r)
  }

  predicate SquareAround(p: nat, q: nat, r: u32) {
    var x := q * 0x1_0000_0000 + r;
    Square(x) <= p * 0x1_0000_0000_0000_0000 < Square(x + 1)
  }

  ghost predicate IsSquareRootFraction(p: nat, r: u32) {
    exists q: nat :: SquareAround(p, q, r)
  }

  function Cube(x: nat): nat {
    x * x * x
  }

  function Square(x: nat): nat {
    x * x
  }

  // ── Small primes by trial division ────────────────────────────────────────

  predicate Trial(n: nat) {
    && n >= 2
    && (n <= 2 || n % 2 != 0) && (n <= 3 || n % 3 != 0) && (n <= 4 || n % 4 != 0) && (n <= 5 || n % 5 != 0)
    && (n <= 6 || n % 6 != 0) && (n <= 7 || n % 7 != 0) && (n <= 8 || n % 8 != 0) && (n <= 9 || n % 9 != 0)
    && (n <= 10 || n % 10 != 0) && (n <= 11 || n % 11 != 0) && (n <= 12 || n % 12 != 0) && (n <= 13 || n % 13 != 0)
    && (n <= 14 || n % 14 != 0) && (n <= 15 || n % 15 != 0) && (n <= 16 || n % 16 != 0) && (n <= 17 || n % 17 != 0)
  }

  lemma TrialDecides(n: nat)
    requires n < 18 * 18
    ensures Trial(n) <==> IsPrime(n)
  {
    if Trial(n) {
      forall d | 2 <= d < n
        ensures n % d != 0
      {
        if n % d == 0 {
          SmallCofactor(n, d);
        }
      }
    }
  }

  lemma SmallCofactor(n: nat, d: nat)
    requires 2 <= d < n < 18 * 18 && n % d == 0
    ensures !Trial(n)
  {
    var e := n / d;
    assert n == d * e;
    if e >= 18 && d >= 18 {
      Product(d, e);
    }
    assert n % e == 0 by { Multiple(d, e); }
    if d < 18 {
      Divides(n, d);
    } else {
      OtherFactor(n, d, e);
      Divides(n, e);
    }
  }

  lemma Product(d: nat, e: nat)
    requires d >= 18 && e >= 18
    ensures d * e >= 18 * 18
  {
  }

  lemma Multiple(d: nat, e: nat)
    requires e > 0
    ensures d * e % e == 0
  {
    ModUnique(d * e, e, d, 0);
  }

  lemma OtherFactor(n: nat, d: nat, e: nat)
    requires n == d * e && 2 <= d < n
    ensures 2 <= e < n
  {
    assert e == 0 ==> d * e == 0;
    assert d * e >= 2 * e;
  }

  lemma Divides(n: nat, d: nat)
    requires 2 <= d < n && d < 18 && n % d == 0
    ensures !Trial(n)
  {
  }

  /** Nothing strictly between a and b passes the trial. */
  predicate NoneBetween(a: nat, b: nat)
    decreases b - a
  {
    a + 1 >= b || (!Trial(a + 1) && NoneBetween(a + 1, b))
  }

  lemma {:induction false} NoPrimeBetween(a: nat, b: nat, n: nat)
    requires NoneBetween(a, b) && a < n < b < 18 * 18
    ensures !IsPrime(n)
    decreases b - a
  {
    if n == a + 1 {
      TrialDecides(n);
    } else {
      NoPrimeBetween(a + 1, b, n);
    }
  }

  // ── The table ─────────────────────────────────────────────────────────────

  function RootPart(p: nat): nat {
    if p < 8 then 1 else if p < 27 then 2 else if p < 64 then 3 else if p < 125 then 4 else if p < 216 then 5 else 6
  }

  predicate Fits(before: nat, p: nat, r: u32) {
    p < 18 * 18 && Trial(p) && NoneBetween(before, p) && CubeAround(p, RootPart(p), r)
  }

  lemma FitsBy(before: nat, p: nat, q: nat, r: u32)
    requires p < 18 * 18 && RootPart(p) == q && CubeAround(p, q, r) && Trial(p) && NoneBetween(before, p)
    ensures Fits(before, p, r)
  {
  }

  predicate RowFits(t: nat)
    requires t < 64
  {
    Fits(if t == 0 then 1 else PRIMES[t - 1], PRIMES[t], S.ROUND_CONSTANTS[t])
  }

  lemma Primes0()
    ensures PRIMES[0] == 2 && PRIMES[1] == 3 && PRIMES[2] == 5 && PRIMES[3] == 7
    ensures PRIMES[4] == 11 && PRIMES[5] == 13 && PRIMES[6] == 17 && PRIMES[7] == 19
  {
  }

  lemma Constants0()
    ensures S.ROUND_CONSTANTS[0] == 0x428a2f98 && S.ROUND_CONSTANTS[1] == 0x71374491
    ensures S.ROUND_CONSTANTS[2] == 0xb5c0fbcf && S.ROUND_CONSTANTS[3] == 0xe9b5dba5
    ensures S.ROUND_CONSTANTS[4] == 0x3956c25b && S.ROUND_CONSTANTS[5] == 0x59f111f1
    ensures S.ROUND_CONSTANTS[6] == 0x923f82a4 && S.ROUND_CONSTANTS[7] == 0xab1c5ed5
  {
  }

  lemma Fit0a()
    ensures Fits(1, 2, 0x428a2f98) && Fits(2, 3, 0x71374491)
    ensures Fits(3, 5, 0xb5c0fbcf) && Fits(5, 7, 0xe9b5dba5)
  {
    hide Fits;
    FitsBy(1, 2, 1, 0x428a2f98);
    FitsBy(2, 3, 1, 0x71374491);
    FitsBy(3, 5, 1, 0xb5c0fbcf);
    FitsBy(5, 7, 1, 0xe9b5dba5);
  }

  lemma Fit0b()
    ensures Fits(7, 11, 0x3956c25b) && Fits(11, 13, 0x59f111f1)
    ensures Fits(13, 17, 0x923f82a4) && Fits(17, 19, 0xab1c5ed5)
  {
    hide Fits;
    FitsBy(7, 11, 2, 0x3956c25b);
    FitsBy(11, 13, 2, 0x59f111f1);
    FitsBy(13, 17, 2, 0x923f82a4);
    FitsBy(17, 19, 2, 0xab1c5ed5);
  }

  lemma Row0(t: nat)
    requires 0 <= t < 8
    ensures RowFits(t)
  {
    hide PRIMES, S.ROUND_CONSTANTS, Fits;
    Primes0();
    Constants0();
    Fit0a();
    Fit0b();
    match t
    case 0 => assert RowFits(0);
    case 1 => assert RowFits(1);
    case 2 => assert RowFits(2);
    case 3 => assert RowFits(3);
    case 4 => assert RowFits(4);
    case 5 => assert RowFits(5);
    case 6 => assert RowFits(6);
    case 7 => assert RowFits(7);
  }

  lemma Primes1()
    ensures PRIMES[8] == 23 && PRIMES[9] == 29 && PRIMES[10] == 31 && PRIMES[11] == 37
    ensures PRIMES[12] == 41 && PRIMES[13] == 43 && PRIMES[14] == 47 && PRIMES[15] == 53
  {
  }

  lemma Constants1()
    ensures S.ROUND_CONSTANTS[8] == 0xd807aa98 && S.ROUND_CONSTANTS[9] == 0x12835b01
    ensures S.ROUND_CONSTANTS[10] == 0x243185be && S.ROUND_CONSTANTS[11] == 0x550c7dc3
    ensures S.ROUND_CONSTANTS[12] == 0x72be5d74 && S.ROUND_CONSTANTS[13] == 0x80deb1fe
    ensures S.ROUND_CONSTANTS[14] == 0x9bdc06a7 && S.ROUND_CONSTANTS[15] == 0xc19bf174
  {
  }

  lemma Fit1a()
    ensures Fits(19, 23, 0xd807aa98) && Fits(23, 29, 0x12835b01)
    ensures Fits(29, 31, 0x243185be) && Fits(31, 37, 0x550c7dc3)
  {
    hide Fits;
    FitsBy(19, 23, 2, 0xd807aa98);
    FitsBy(23, 29, 3, 0x12835b01);
    FitsBy(29, 31, 3, 0x243185be);
    FitsBy(31, 37, 3, 0x550c7dc3);
  }

  lemma Fit1b()
    ensures Fits(37, 41, 0x72be5d74) && Fits(41, 43, 0x80deb1fe)
    ensures Fits(43, 47, 0x9bdc06a7) && Fits(47, 53, 0xc19bf174)
  {
    hide Fits;
    FitsBy(37, 41, 3, 0x72be5d74);
    FitsBy(41, 43, 3, 0x80deb1fe);
    FitsBy(43, 47, 3, 0x9bdc06a7);
    FitsBy(47, 53, 3, 0xc19bf174);
  }

  lemma Row1(t: nat)
    requires 8 <= t < 16
    ensures RowFits(t)
  {
    hide PRIMES, S.ROUND_CONSTANTS, Fits;
    Primes0();
    Primes1();
    Constants1();
    Fit1a();
    Fit1b();
    match t
    case 8 => assert RowFits(8);
    case 9 => assert RowFits(9);
    case 10 => assert RowFits(10);
    case 11 => assert RowFits(11);
    case 12 => assert RowFits(12);
    case 13 => assert RowFits(13);
    case 14 => assert RowFits(14);
    case 15 => assert RowFits(15);
  }

  lemma Primes2()
    ensures PRIMES[16] == 59 && PRIMES[17] == 61 && PRIMES[18] == 67 && PRIMES[19] == 71
    ensures PRIMES[20] == 73 && PRIMES[21] == 79 && PRIMES[22] == 83 && PRIMES[23] == 89
  {
  }

  lemma Constants2()
    ensures S.ROUND_CONSTANTS[16] == 0xe49b69c1 && S.ROUND_CONSTANTS[17] == 0xefbe4786
    ensures S.ROUND_CONSTANTS[18] == 0x0fc19dc6 && S.ROUND_CONSTANTS[19] == 0x240ca1cc
    ensures S.ROUND_CONSTANTS[20] == 0x2de92c6f && S.ROUND_CONSTANTS[21] == 0x4a7484aa
    ensures S.ROUND_CONSTANTS[22] == 0x5cb0a9dc && S.ROUND_CONSTANTS[23] == 0x76f988da
  {
  }

  lemma Fit2a()
    ensures Fits(53, 59, 0xe49b69c1) && Fits(59, 61, 0xefbe4786)
    ensures Fits(61, 67, 0x0fc19dc6) && Fits(67, 71, 0x240ca1cc)
  {
    hide Fits;
    FitsBy(53, 59, 3, 0xe49b69c1);
    FitsBy(59, 61, 3, 0xefbe4786);
    FitsBy(61, 67, 4, 0x0fc19dc6);
    FitsBy(67, 71, 4, 0x240ca1cc);
  }

  lemma Fit2b()
    ensures Fits(71, 73, 0x2de92c6f) && Fits(73, 79, 0x4a7484aa)
    ensures Fits(79, 83, 0x5cb0a9dc) && Fits(83, 89, 0x76f988da)
  {
    hide Fits;
    FitsBy(71, 73, 4, 0x2de92c6f);
    FitsBy(73, 79, 4, 0x4a7484aa);
    FitsBy(79, 83, 4, 0x5cb0a9dc);
    FitsBy(83, 89, 4, 0x76f988da);
  }

  lemma Row2(t: nat)
    requires 16 <= t < 24
    ensures RowFits(t)
  {
    hide PRIMES, S.ROUND_CONSTANTS, Fits;
    Primes1();
    Primes2();
    Constants2();
    Fit2a();
    Fit2b();
    match t
    case 16 => assert RowFits(16);
    case 17 => assert RowFits(17);
    case 18 => assert RowFits(18);
    case 19 => assert RowFits(19);
    case 20 => assert RowFits(20);
    case 21 => assert RowFits(21);
    case 22 => assert RowFits(22);
    case 23 => assert RowFits(23);
  }

  lemma Primes3()
    ensures PRIMES[24] == 97 && PRIMES[25] == 101 && PRIMES[26] == 103 && PRIMES[27] == 107
    ensures PRIMES[28] == 109 && PRIMES[29] == 113 && PRIMES[30] == 127 && PRIMES[31] == 131
  {
  }

  lemma Constants3()
    ensures S.ROUND_CONSTANTS[24] == 0x983e5152 && S.ROUND_CONSTANTS[25] == 0xa831c66d
    ensures S.ROUND_CONSTANTS[26] == 0xb00327c8 && S.ROUND_CONSTANTS[27] == 0xbf597fc7
    ensures S.ROUND_CONSTANTS[28] == 0xc6e00bf3 && S.ROUND_CONSTANTS[29] == 0xd5a79147
    ensures S.ROUND_CONSTANTS[30] == 0x06ca6351 && S.ROUND_CONSTANTS[31] == 0x14292967
  {
  }

  lemma Fit3a()
    ensures Fits(89, 97, 0x983e5152) && Fits(97, 101, 0xa831c66d)
    ensures Fits(101, 103, 0xb00327c8) && Fits(103, 107, 0xbf597fc7)
  {
    hide Fits;
    FitsBy(89, 97, 4, 0x983e5152);
    FitsBy(97, 101, 4, 0xa831c66d);
    FitsBy(101, 103, 4, 0xb00327c8);
    FitsBy(103, 107, 4, 0xbf597fc7);
  }

  lemma Fit3b()
    ensures Fits(107, 109, 0xc6e00bf3) && Fits(109, 113, 0xd5a79147)
    ensures Fits(113, 127, 0x06ca6351) && Fits(127, 131, 0x14292967)
  {
    hide Fits;
    FitsBy(107, 109, 4, 0xc6e00bf3);
    FitsBy(109, 113, 4, 0xd5a79147);
    FitsBy(113, 127, 5, 0x06ca6351);
    FitsBy(127, 131, 5, 0x14292967);
  }

  lemma Row3(t: nat)
    requires 24 <= t < 32
    ensures RowFits(t)
  {
    hide PRIMES, S.ROUND_CONSTANTS, Fits;
    Primes2();
    Primes3();
    Constants3();
    Fit3a();
    Fit3b();
    match t
    case 24 => assert RowFits(24);
    case 25 => assert RowFits(25);
    case 26 => assert RowFits(26);
    case 27 => assert RowFits(27);
    case 28 => assert RowFits(28);
    case 29 => assert RowFits(29);
    case 30 => assert RowFits(30);
    case 31 => assert RowFits(31);
  }

  lemma Primes4()
    ensures PRIMES[32] == 137 && PRIMES[33] == 139 && PRIMES[34] == 149 && PRIMES[35] == 151
    ensures PRIMES[36] == 157 && PRIMES[37] == 163 && PRIMES[38] == 167 && PRIMES[39] == 173
  {
  }

  lemma Constants4()
    ensures S.ROUND_CONSTANTS[32] == 0x27b70a85 && S.ROUND_CONSTANTS[33] == 0x2e1b2138
    ensures S.ROUND_CONSTANTS[34] == 0x4d2c6dfc && S.ROUND_CONSTANTS[35] == 0x53380d13
    ensures S.ROUND_CONSTANTS[36] == 0x650a7354 && S.ROUND_CONSTANTS[37] == 0x766a0abb
    ensures S.ROUND_CONSTANTS[38] == 0x81c2c92e && S.ROUND_CONSTANTS[39] == 0x92722c85
  {
  }

  lemma Fit4a()
    ensures Fits(131, 137, 0x27b70a85) && Fits(137, 139, 0x2e1b2138)
    ensures Fits(139, 149, 0x4d2c6dfc) && Fits(149, 151, 0x53380d13)
  {
    hide Fits;
    FitsBy(131, 137, 5, 0x27b70a85);
    FitsBy(137, 139, 5, 0x2e1b2138);
    FitsBy(139, 149, 5, 0x4d2c6dfc);
    FitsBy(149, 151, 5, 0x53380d13);
  }

  lemma Fit4b()
    ensures Fits(151, 157, 0x650a7354) && Fits(157, 163, 0x766a0abb)
    ensures Fits(163, 167, 0x81c2c92e) && Fits(167, 173, 0x92722c85)
  {
    hide Fits;
    FitsBy(151, 157, 5, 0x650a7354);
    FitsBy(157, 163, 5, 0x766a0abb);
    FitsBy(163, 167, 5, 0x81c2c92e);
    FitsBy(167, 173, 5, 0x92722c85);
  }

  lemma Row4(t: nat)
    requires 32 <= t < 40
    ensures RowFits(t)
  {
    hide PRIMES, S.ROUND_CONSTANTS, Fits;
    Primes3();
    Primes4();
    Constants4();
    Fit4a();
    Fit4b();
    match t
    case 32 => assert RowFits(32);
    case 33 => assert RowFits(33);
    case 34 => assert RowFits(34);
    case 35 => assert RowFits(35);
    case 36 => assert RowFits(36);
    case 37 => assert RowFits(37);
    case 38 => assert RowFits(38);
    case 39 => assert RowFits(39);
  }

  lemma Primes5()
    ensures PRIMES[40] == 179 && PRIMES[41] == 181 && PRIMES[42] == 191 && PRIMES[43] == 193
    ensures PRIMES[44] == 197 && PRIMES[45] == 199 && PRIMES[46] == 211 && PRIMES[47] == 223
  {
  }

  lemma Constants5()
    ensures S.ROUND_CONSTANTS[40] == 0xa2bfe8a1 && S.ROUND_CONSTANTS[41] == 0xa81a664b
    ensures S.ROUND_CONSTANTS[42] == 0xc24b8b70 && S.ROUND_CONSTANTS[43] == 0xc76c51a3
    ensures S.ROUND_CONSTANTS[44] == 0xd192e819 && S.ROUND_CONSTANTS[45] == 0xd6990624
    ensures S.ROUND_CONSTANTS[46] == 0xf40e3585 && S.ROUND_CONSTANTS[47] == 0x106aa070
  {
  }

  lemma Fit5a()
    ensures Fits(173, 179, 0xa2bfe8a1) && Fits(179, 181, 0xa81a664b)
    ensures Fits(181, 191, 0xc24b8b70) && Fits(191, 193, 0xc76c51a3)
  {
    hide Fits;
    FitsBy(173, 179, 5, 0xa2bfe8a1);
    FitsBy(179, 181, 5, 0xa81a664b);
    FitsBy(181, 191, 5, 0xc24b8b70);
    FitsBy(191, 193, 5, 0xc76c51a3);
  }

  lemma Fit5b()
    ensures Fits(193, 197, 0xd192e819) && Fits(197, 199, 0xd6990624)
    ensures Fits(199, 211, 0xf40e3585) && Fits(211, 223, 0x106aa070)
  {
    hide Fits;
    FitsBy(193, 197, 5, 0xd192e819);
    FitsBy(197, 199, 5, 0xd6990624);
    FitsBy(199, 211, 5, 0xf40e3585);
    FitsBy(211, 223, 6, 0x106aa070);
  }

  lemma Row5(t: nat)
    requires 40 <= t < 48
    ensures RowFits(t)
  {
    hide PRIMES, S.ROUND_CONSTANTS, Fits;
    Primes4();
    Primes5();
    Constants5();
    Fit5a();
    Fit5b();
    match t
    case 40 => assert RowFits(40);
    case 41 => assert RowFits(41);
    case 42 => assert RowFits(42);
    case 43 => assert RowFits(43);
    case 44 => assert RowFits(44);
    case 45 => assert RowFits(45);
    case 46 => assert RowFits(46);
    case 47 => assert RowFits(47);
  }

  lemma Primes6()
    ensures PRIMES[48] == 227 && PRIMES[49] == 229 && PRIMES[50] == 233 && PRIMES[51] == 239
    ensures PRIMES[52] == 241 && PRIMES[53] == 251 && PRIMES[54] == 257 && PRIMES[55] == 263
  {
  }

  lemma Constants6()
    ensures S.ROUND_CONSTANTS[48] == 0x19a4c116 && S.ROUND_CONSTANTS[49] == 0x1e376c08
    ensures S.ROUND_CONSTANTS[50] == 0x2748774c && S.ROUND_CONSTANTS[51] == 0x34b0bcb5
    ensures S.ROUND_CONSTANTS[52] == 0x391c0cb3 && S.ROUND_CONSTANTS[53] == 0x4ed8aa4a
    ensures S.ROUND_CONSTANTS[54] == 0x5b9cca4f && S.ROUND_CONSTANTS[55] == 0x682e6ff3
  {
  }

  lemma Fit6a()
    ensures Fits(223, 227, 0x19a4c116) && Fits(227, 229, 0x1e376c08)
    ensures Fits(229, 233, 0x2748774c) && Fits(233, 239, 0x34b0bcb5)
  {
    hide Fits;
    FitsBy(223, 227, 6, 0x19a4c116);
    FitsBy(227, 229, 6, 0x1e376c08);
    FitsBy(229, 233, 6, 0x2748774c);
    FitsBy(233, 239, 6, 0x34b0bcb5);
  }

  lemma Fit6b()
    ensures Fits(239, 241, 0x391c0cb3) && Fits(241, 251, 0x4ed8aa4a)
    ensures Fits(251, 257, 0x5b9cca4f) && Fits(257, 263, 0x682e6ff3)
  {
    hide Fits;
    FitsBy(239, 241, 6, 0x391c0cb3);
    FitsBy(241, 251, 6, 0x4ed8aa4a);
    FitsBy(251, 257, 6, 0x5b9cca4f);
    FitsBy(257, 263, 6, 0x682e6ff3);
  }

  lemma Row6(t: nat)
    requires 48 <= t < 56
    ensures RowFits(t)
  {
    hide PRIMES, S.ROUND_CONSTANTS, Fits;
    Primes5();
    Primes6();
    Constants6();
    Fit6a();
    Fit6b();
    match t
    case 48 => assert RowFits(48);
    case 49 => assert RowFits(49);
    case 50 => assert RowFits(50);
    case 51 => assert RowFits(51);
    case 52 => assert RowFits(52);
    case 53 => assert RowFits(53);
    case 54 => assert RowFits(54);
    case 55 => assert RowFits(55);
  }

  lemma Primes7()
    ensures PRIMES[56] == 269 && PRIMES[57] == 271 && PRIMES[58] == 277 && PRIMES[59] == 281
    ensures PRIMES[60] == 283 && PRIMES[61] == 293 && PRIMES[62] == 307 && PRIMES[63] == 311
  {
  }

  lemma Constants7()
    ensures S.ROUND_CONSTANTS[56] == 0x748f82ee && S.ROUND_CONSTANTS[57] == 0x78a5636f
    ensures S.ROUND_CONSTANTS[58] == 0x84c87814 && S.ROUND_CONSTANTS[59] == 0x8cc70208
    ensures S.ROUND_CONSTANTS[60] == 0x90befffa && S.ROUND_CONSTANTS[61] == 0xa4506ceb
    ensures S.ROUND_CONSTANTS[62] == 0xbef9a3f7 && S.ROUND_CONSTANTS[63] == 0xc67178f2
  {
  }

  lemma Fit7a()
    ensures Fits(263, 269, 0x748f82ee) && Fits(269, 271, 0x78a5636f)
    ensures Fits(271, 277, 0x84c87814) && Fits(277, 281, 0x8cc70208)
  {
    hide Fits;
    FitsBy(263, 269, 6, 0x748f82ee);
    FitsBy(269, 271, 6, 0x78a5636f);
    FitsBy(271, 277, 6, 0x84c87814);
    FitsBy(277, 281, 6, 0x8cc70208);
  }

  lemma Fit7b()
    ensures Fits(281, 283, 0x90befffa) && Fits(283, 293, 0xa4506ceb)
    ensures Fits(293, 307, 0xbef9a3f7) && Fits(307, 311, 0xc67178f2)
  {
    hide Fits;
    FitsBy(281, 283, 6, 0x90befffa);
    FitsBy(283, 293, 6, 0xa4506ceb);
    FitsBy(293, 307, 6, 0xbef9a3f7);
    FitsBy(307, 311, 6, 0xc67178f2);
  }

  lemma Row7(t: nat)
    requires 56 <= t < 64
    ensures RowFits(t)
  {
    hide PRIMES, S.ROUND_CONSTANTS, Fits;
    Primes6();
    Primes7();
    Constants7();
    Fit7a();
    Fit7b();
    match t
    case 56 => assert RowFits(56);
    case 57 => assert RowFits(57);
    case 58 => assert RowFits(58);
    case 59 => assert RowFits(59);
    case 60 => assert RowFits(60);
    case 61 => assert RowFits(61);
    case 62 => assert RowFits(62);
    case 63 => assert RowFits(63);
  }

  lemma EveryRow(t: nat)
    requires t < 64
    ensures RowFits(t)
  {
    hide *;
    if t < 8 {
      Row0(t);
    }
    if 8 <= t < 16 {
      Row1(t);
    }
    if 16 <= t < 24 {
      Row2(t);
    }
    if 24 <= t < 32 {
      Row3(t);
    }
    if 32 <= t < 40 {
      Row4(t);
    }
    if 40 <= t < 48 {
      Row5(t);
    }
    if 48 <= t < 56 {
      Row6(t);
    }
    if 56 <= t < 64 {
      Row7(t);
    }
  }

  /** The table of primes is the table of primes: the first is 2, and each next one is the least
    * prime above the one before. */
  lemma FirstPrimes(t: nat, n: nat)
    requires t < 64
    ensures IsPrime(PRIMES[t]) && PRIMES[0] == 2
    ensures t > 0 ==> (PRIMES[t - 1] < n < PRIMES[t] ==> !IsPrime(n))
  {
    Row0(0);
    EveryRow(t);
    TrialDecides(PRIMES[t]);
    hide PRIMES, Trial, NoneBetween, IsPrime, CubeAround;
    if t > 0 && PRIMES[t - 1] < n < PRIMES[t] {
      NoPrimeBetween(PRIMES[t - 1], PRIMES[t], n);
    }
  }

  /** Each round constant is the fraction of the cube root of its prime. */
  lemma RoundConstantsAreRoots(t: nat)
    requires t < 64
    ensures |S.ROUND_CONSTANTS| == 64 && IsCubeRootFraction(PRIMES[t], S.ROUND_CONSTANTS[t])
  {
    EveryRow(t);
    hide PRIMES, Trial, NoneBetween, CubeAround;
  }

  /** And each word of the initial hash that of the square root. */
  lemma InitialHashIsRoots(t: nat)
    requires t < 8
    ensures |S.INITIAL_HASH| == 8 && IsSquareRootFraction(PRIMES[t], S.INITIAL_HASH[t])
  {
    assert PRIMES[0] == 2 && S.INITIAL_HASH[0] == 0x6a09e667;
    assert PRIMES[1] == 3 && S.INITIAL_HASH[1] == 0xbb67ae85;
    assert PRIMES[2] == 5 && S.INITIAL_HASH[2] == 0x3c6ef372;
    assert PRIMES[3] == 7 && S.INITIAL_HASH[3] == 0xa54ff53a;
    assert PRIMES[4] == 11 && S.INITIAL_HASH[4] == 0x510e527f;
    assert PRIMES[5] == 13 && S.INITIAL_HASH[5] == 0x9b05688c;
    assert PRIMES[6] == 17 && S.INITIAL_HASH[6] == 0x1f83d9ab;
    assert PRIMES[7] == 19 && S.INITIAL_HASH[7] == 0x5be0cd19;
    assert SquareAround(2, 1, 0x6a09e667);
    assert SquareAround(3, 1, 0xbb67ae85);
    assert SquareAround(5, 2, 0x3c6ef372);
    assert SquareAround(7, 2, 0xa54ff53a);
    assert SquareAround(11, 3, 0x510e527f);
    assert SquareAround(13, 3, 0x9b05688c);
    assert SquareAround(17, 4, 0x1f83d9ab);
    assert SquareAround(19, 4, 0x5be0cd19);
    hide SquareAround;
  }
}
