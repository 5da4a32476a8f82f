/** Streaming SHA-256 (FIPS 180-4) as the firmware computes it: a block buffer fed piece by piece, a
  * schedule and 64 rounds a block, and padding at the end. That its functions, constants and
  * padding are the standard's is shown in Sha256Standard and Sha256Constants.
  */
module Sha256 {
  import opened BinaryField
  import opened Words

  // ── The compression function (section 6.2.2) ──────────────────────────────

  const ROUND_CONSTANTS: seq<u32> :=
    [0x428a2f98, 0x71374491, 0xb5c0fbcf, 0xe9b5dba5, 0x3956c25b, 0x59f111f1, 0x923f82a4, 0xab1c5ed5] +
    [0xd807aa98, 0x12835b01, 0x243185be, 0x550c7dc3, 0x72be5d74, 0x80deb1fe, 0x9bdc06a7, 0xc19bf174] +
    [0xe49b69c1, 0xefbe4786, 0x0fc19dc6, 0x240ca1cc, 0x2de92c6f, 0x4a7484aa, 0x5cb0a9dc, 0x76f988da] +
    [0x983e5152, 0xa831c66d, 0xb00327c8, 0xbf597fc7, 0xc6e00bf3, 0xd5a79147, 0x06ca6351, 0x14292967] +
    [0x27b70a85, 0x2e1b2138, 0x4d2c6dfc, 0x53380d13, 0x650a7354, 0x766a0abb, 0x81c2c92e, 0x92722c85] +
    [0xa2bfe8a1, 0xa81a664b, 0xc24b8b70, 0xc76c51a3, 0xd192e819, 0xd6990624, 0xf40e3585, 0x106aa070] +
    [0x19a4c116, 0x1e376c08, 0x2748774c, 0x34b0bcb5, 0x391c0cb3, 0x4ed8aa4a, 0x5b9cca4f, 0x682e6ff3] +
    [0x748f82ee, 0x78a5636f, 0x84c87814, 0x8cc70208, 0x90befffa, 0xa4506ceb, 0xbef9a3f7, 0xc67178f2]

  const INITIAL_HASH: seq<u32> :=
    [0x6a09e667, 0xbb67ae85, 0x3c6ef372, 0xa54ff53a, 0x510e527f, 0x9b05688c, 0x1f83d9ab, 0x5be0cd19]

  function Sum32(v: nat): u32 {
    v % 0x1_0000_0000
  }

  /** (x >> n) | (x << (32 - n)). */
  function Rotr(x: u32, n: nat): u32
    requires n <= 32
  {
    FromDigits(seq(32, i requires 0 <= i => if i + n < 32 then Digit(x, i + n) else Digit(x, i + n - 32)))
  }

  function FromDigits(s: seq<bool>): u32
    requires |s| == 32
  {
    ToFromBits(s);
    Pow2Values();
    FromBits(s)
  }

  /** (x & y) ^ (~x & z). */
  function Ch(x: u32, y: u32, z: u32): u32 {
    FromDigits(seq(32, i requires 0 <= i => if Digit(x, i) then Digit(y, i) else Digit(z, i)))
  }

  /** (x & y) ^ (x & z) ^ (y & z). */
  function Maj(x: u32, y: u32, z: u32): u32 {
    FromDigits(seq(32, i requires 0 <= i =>
      if Digit(x, i) then Digit(y, i) || Digit(z, i) else Digit(y, i) && Digit(z, i)))
  }

  lemma DigitOfChoice(x: u32, y: u32, z: u32, i: nat)
    requires i < 32
    ensures Digit(Ch(x, y, z), i) == if Digit(x, i) then Digit(y, i) else Digit(z, i)
    ensures Digit(Maj(x, y, z), i) == if Digit(x, i) then Digit(y, i) || Digit(z, i) else Digit(y, i) && Digit(z, i)
  {
    hide Digit;
    var c := seq(32, k requires 0 <= k => if Digit(x, k) then Digit(y, k) else Digit(z, k));
    var m := seq(32, k requires 0 <= k =>
      if Digit(x, k) then Digit(y, k) || Digit(z, k) else Digit(y, k) && Digit(z, k));
    DigitsBack(c, i);
    DigitsBack(m, i);
  }

  lemma DigitsBack(s: seq<bool>, i: nat)
    requires |s| == 32 && i < 32
    ensures Digit(FromDigits(s), i) == s[i]
  {
    ToFromBits(s);
    hide Digit, FromBits;
    assert ToBits(32, FromDigits(s))[i] == s[i];
  }

  lemma DigitOfRotation(x: u32, n: nat, i: nat)
    requires n <= 32 && i < 32
    ensures Digit(Rotr(x, n), i) == if i + n < 32 then Digit(x, i + n) else Digit(x, i + n - 32)
  {
    hide Digit;
    DigitsBack(seq(32, k requires 0 <= k => if k + n < 32 then Digit(x, k + n) else Digit(x, k + n - 32)), i);
  }

  function BigSigma0(x: u32): u32 {
    BitXor(BitXor(Rotr(x, 2), Rotr(x, 13)), Rotr(x, 22))
  }

  function BigSigma1(x: u32): u32 {
    BitXor(BitXor(Rotr(x, 6), Rotr(x, 11)), Rotr(x, 25))
  }

  function SmallSigma0(x: u32): u32 {
    BitXor(BitXor(Rotr(x, 7), Rotr(x, 18)), x / 8)
  }

  function SmallSigma1(x: u32): u32 {
    BitXor(BitXor(Rotr(x, 17), Rotr(x, 19)), x / 1024)
  }

  function WordAt(block: seq<u8>, i: nat): u32
    requires |block| == 64 && i < 16
  {
    block[4 * i] as int * 0x100_0000 + block[4 * i + 1] as int * 0x1_0000 + block[4 * i + 2] as int * 0x100
    + block[4 * i + 3] as int
  }

  /** The message schedule. */
  function Schedule(block: seq<u8>, t: nat): u32
    requires |block| == 64
  {
    if t < 16 then WordAt(block, t)
    else
      Sum32(SmallSigma1(Schedule(block, t - 2)) + Schedule(block, t - 7)
            + SmallSigma0(Schedule(block, t - 15)) + Schedule(block, t - 16))
  }

  datatype Working = Working(a: u32, b: u32, c: u32, d: u32, e: u32, f: u32, g: u32, h: u32)

  function Round(s: Working, k: u32, w: u32): Working {
    var t1 := Sum32(s.h as int + BigSigma1(s.e) as int + Ch(s.e, s.f, s.g) as int + k as int + w as int);
    var t2 := Sum32(BigSigma0(s.a) as int + Maj(s.a, s.b, s.c) as int);
    Working(Sum32(t1 as int + t2 as int), s.a, s.b, s.c, Sum32(s.d as int + t1 as int), s.e, s.f, s.g)
  }

  function Rounds(s: Working, block: seq<u8>, n: nat): Working
    requires |block| == 64 && n <= 64
    decreases n, block
  {
    if n == 0 then s else Round(Rounds(s, block, n - 1), ROUND_CONSTANTS[n - 1], Schedule(block, n - 1))
  }

  function Load(h: seq<u32>): Working
    requires |h| == 8
  {
    Working(h[0], h[1], h[2], h[3], h[4], h[5], h[6], h[7])
  }

  function AllRounds(h: seq<u32>, block: seq<u8>): Working
    requires |h| == 8 && |block| == 64
  {
    Rounds(Load(h), block, |ROUND_CONSTANTS|)
  }

  function AddBack(h: seq<u32>, s: Working): (h': seq<u32>)
    requires |h| == 8
    ensures |h'| == 8
  {
    [Sum32(h[0] + s.a), Sum32(h[1] + s.b), Sum32(h[2] + s.c), Sum32(h[3] + s.d),
     Sum32(h[4] + s.e), Sum32(h[5] + s.f), Sum32(h[6] + s.g), Sum32(h[7] + s.h)]
  }

  function Compress(h: seq<u32>, block: seq<u8>): (h': seq<u32>)
    requires |h| == 8 && |block| == 64
    ensures |h'| == 8
  {
    AddBack(h, AllRounds(h, block))
  }

  lemma CompressIs(h: seq<u32>, block: seq<u8>)
    requires |h| == 8 && |block| == 64
    ensures Compress(h, block) == AddBack(h, AllRounds(h, block))
  {
  }

  /** The hash state after the first n whole blocks. */
  function Blocks(h: seq<u32>, data: seq<u8>, n: nat): (h': seq<u32>)
    requires |h| == 8 && 64 * n <= |data|
    ensures |h'| == 8
    decreases n, data
  {
    if n == 0 then h else Compress(Blocks(h, data, n - 1), data[64 * n - 64..64 * n])
  }

  lemma {:induction false} BlocksPrefix(h: seq<u32>, data: seq<u8>, more: seq<u8>, n: nat)
    requires |h| == 8 && 64 * n <= |data|
    ensures Blocks(h, data + more, n) == Blocks(h, data, n)
    decreases n
  {
    hide Compress;
    if n > 0 {
      assert (data + more)[64 * n - 64..64 * n] == data[64 * n - 64..64 * n];
      BlocksPrefix(h, data, more, n - 1);
    }
  }

  // ── Padding (section 5.1.1) ───────────────────────────────────────────────

  const TWO_64: nat := 0x1_0000_0000_0000_0000

  function ZeroPad(len: nat): (k: nat)
    ensures k < 64 && (len + 1 + k) % 64 == 56
  {
    (119 - len % 64) % 64
  }

  /** v as eight bytes, most significant first. */
  function Be64(v: nat): (b: seq<u8>)
    ensures |b| == 8
  {
    seq(8, i requires 0 <= i < 8 => v / Pow2(56 - 8 * i) % 0x100)
  }

  function BitLength(len: nat): nat {
    8 * len % TWO_64
  }

  function Padded(m: seq<u8>): (p: seq<u8>)
    ensures |p| == 64 * PaddedBlocks(|m|)
  {
    WholePadding(|m|);
    m + [0x80] + Zeros(ZeroPad(|m|)) + Be64(BitLength(|m|))
  }

  function PaddedBlocks(len: nat): nat {
    (len + ZeroPad(len) + 9) / 64
  }

  lemma WholePadding(len: nat)
    ensures 64 * PaddedBlocks(len) == len + ZeroPad(len) + 9
  {
    var n := len + 1 + ZeroPad(len);
    assert n % 64 == 56;
    assert (n + 8) % 64 == 0;
  }

  /** Different messages pad to different block sequences. */
  lemma PaddingIsInjective(a: seq<u8>, b: seq<u8>)
    requires Padded(a) == Padded(b)
    ensures a == b
  {
    var p := Padded(a);
    hide Padded;
    LastOne(a, p);
    LastOne(b, p);
    assert |a| == |b|;
    assert a == p[..|a|];
  }

  lemma LastOne(m: seq<u8>, p: seq<u8>)
    requires p == Padded(m)
    ensures |m| + 9 <= |p| && p[..|m|] == m && p[|m|] == 0x80
    ensures forall i :: |m| < i < |p| - 8 ==> p[i] == 0
  {
  }

  function DigestBytes(h: seq<u32>): (d: seq<u8>)
    requires |h| == 8
    ensures |d| == 32
  {
    seq(32, i requires 0 <= i < 32 => h[i / 4] / Pow2(24 - 8 * (i % 4)) % 0x100)
  }

  /** SHA-256 of a message. */
  function Digest(m: seq<u8>): (d: seq<u8>)
    ensures |d| == 32
  {
    DigestBytes(Blocks(INITIAL_HASH, Padded(m), PaddedBlocks(|m|)))
  }

  // ── Streaming ─────────────────────────────────────────────────────────────

  /** h has absorbed the whole blocks of fed, and tail is the rest. */
  ghost predicate Tracks(h: seq<u32>, tail: seq<u8>, fed: seq<u8>, done: nat) {
    |h| == 8 && |tail| < 64 && |fed| == 64 * done + |tail|
    && fed[64 * done..] == tail
    && h == Blocks(INITIAL_HASH, fed, done)
  }

  lemma TracksMore(h: seq<u32>, tail: seq<u8>, fed: seq<u8>, done: nat, chunk: seq<u8>)
    requires Tracks(h, tail, fed, done) && |tail| + |chunk| <= 64
    ensures |tail| + |chunk| < 64 ==> Tracks(h, tail + chunk, fed + chunk, done)
    ensures |tail| + |chunk| == 64 ==> Tracks(Compress(h, tail + chunk), [], fed + chunk, done + 1)
  {
    hide Compress;
    BlocksPrefix(INITIAL_HASH, fed, chunk, done);
    assert (fed + chunk)[64 * done..] == tail + chunk;
    if |tail| + |chunk| == 64 {
      assert (fed + chunk)[64 * (done + 1) - 64..64 * (done + 1)] == tail + chunk;
      assert (fed + chunk)[64 * (done + 1)..] == [];
    }
  }

  /** The tracked state depends on the bytes alone, not on how they were split. */
  lemma TracksIsUnique(h1: seq<u32>, t1: seq<u8>, n1: nat, h2: seq<u32>, t2: seq<u8>, n2: nat, fed: seq<u8>)
    requires Tracks(h1, t1, fed, n1) && Tracks(h2, t2, fed, n2)
    ensures h1 == h2 && t1 == t2 && n1 == n2
  {
    hide Blocks;
    assert n1 == n2;
  }

  class Hasher {
    var h: seq<u32>
    var total: nat
    const buf: array<u8>
    var buffered: nat
    /** Everything fed so far, and how many blocks of it are absorbed. */
    ghost var fed: seq<u8>
    ghost var done: nat

    ghost predicate Absorbing()
      reads this, buf
    {
      buf.Length == 64 && buffered < 64 && Tracks(h, buf[..buffered], fed, done)
    }

    ghost predicate Valid()
      reads this, buf
    {
      Absorbing() && total == |fed| % TWO_64
    }

    constructor ()
      ensures Valid() && fed == [] && fresh(buf)
    {
      h, total, buffered, fed, done := INITIAL_HASH, 0, 0, [], 0;
      buf := new u8[64];
    }

    /** shaCompress: schedule, rounds, then the sum with the previous state. */
    static method CompressBlock(h0: seq<u32>, block: seq<u8>) returns (h1: seq<u32>)
      requires |h0| == 8 && |block| == 64
      ensures h1 == Compress(h0, block)
    {
      CompressIs(h0, block);
      hide *;
      var w := MessageSchedule(block);
      var s := RunRounds(h0, w, block);
      h1 := AddBack(h0, s);
    }

    static method RunRounds(h0: seq<u32>, w: seq<u32>, ghost block: seq<u8>) returns (s: Working)
      requires |h0| == 8 && |block| == 64
      requires |w| == 64 && forall i :: 0 <= i < 64 ==> w[i] == Schedule(block, i)
      ensures s == AllRounds(h0, block)
    {
      hide BigSigma0, BigSigma1, Ch, Maj, Schedule;
      s := Load(h0);
      for i := 0 to |ROUND_CONSTANTS|
        invariant s == Rounds(Load(h0), block, i)
      {
        s := OneRound(s, ROUND_CONSTANTS[i], w[i]);
      }
    }

    /** The eight assignments of one round, in the order the code makes them. */
    static method OneRound(s: Working, k: u32, w: u32) returns (r: Working)
      ensures r == Round(s, k, w)
    {
      hide BigSigma0, BigSigma1, Ch, Maj, Sum32;
      var t1 := Sum32(s.h as int + BigSigma1(s.e) as int + Ch(s.e, s.f, s.g) as int + k as int + w as int);
      var t2 := Sum32(BigSigma0(s.a) as int + Maj(s.a, s.b, s.c) as int);
      var h, g, f := s.g, s.f, s.e;
      var e := Sum32(s.d as int + t1 as int);
      var d, c, b := s.c, s.b, s.a;
      var a := Sum32(t1 as int + t2 as int);
      r := Working(a, b, c, d, e, f, g, h);
    }

    static method MessageSchedule(block: seq<u8>) returns (w: seq<u32>)
      requires |block| == 64
      ensures |w| == 64 && forall i :: 0 <= i < 64 ==> w[i] == Schedule(block, i)
    {
      hide SmallSigma0, SmallSigma1, WordAt;
      w := [];
      for i := 0 to 16
        invariant |w| == i && forall k :: 0 <= k < i ==> w[k] == Schedule(block, k)
      {
        w := w + [WordAt(block, i)];
      }
      for i := 16 to 64
        invariant |w| == i && forall k :: 0 <= k < i ==> w[k] == Schedule(block, k)
      {
        var s0: nat, s1: nat := SmallSigma0(w[i - 15]), SmallSigma1(w[i - 2]);
        var next := Sum32(s1 + w[i - 7] + s0 + w[i - 16]);
        assert next == Schedule(block, i);
        w := w + [next];
      }
    }

    method Update(data: seq<u8>)
      requires Valid()
      modifies this, buf
      ensures Valid() && fed == old(fed) + data
    {
      hide Tracks, Blocks, Compress;
      var pos := 0;
      total := (total + |data|) % TWO_64;
      ghost var start := fed;
      assert fed == start + data[..0];
      while pos < |data|
        invariant pos <= |data| && fed == start + data[..pos]
        invariant Absorbing()
        invariant total == (|start| + |data|) % TWO_64
      {
        var n := 64 - buffered;
        if n > |data| - pos {
          n := |data| - pos;
        }
        TakeIn(data[pos..pos + n]);
        assert start + data[..pos] + data[pos..pos + n] == start + data[..pos + n];
        pos := pos + n;
      }
      assert data[..|data|] == data;
    }

    /** Copy a chunk that fits, compressing when the buffer fills. */
    method TakeIn(chunk: seq<u8>)
      requires Absorbing() && buffered + |chunk| <= 64
      modifies this`h, this`buffered, this`fed, this`done, buf
      ensures Absorbing() && fed == old(fed) + chunk
    {
      hide Blocks, Compress;
      assert |h| == 8;
      TracksMore(h, buf[..buffered], fed, done, chunk);
      hide Tracks;
      CopyIn(chunk);
      buffered := buffered + |chunk|;
      fed := fed + chunk;
      if buffered == 64 {
        assert buf[..64] == buf[..];
        h := CompressBlock(h, buf[..]);
        buffered := 0;
        done := done + 1;
        assert buf[..0] == [];
      }
    }

    method CopyIn(chunk: seq<u8>)
      requires buf.Length == 64 && buffered + |chunk| <= 64
      modifies buf
      ensures buf[..buffered + |chunk|] == old(buf[..buffered]) + chunk
    {
      for i := 0 to |chunk|
        invariant buf[..buffered] == old(buf[..buffered])
        invariant forall k :: 0 <= k < i ==> buf[buffered + k] == chunk[k]
      {
        buf[buffered + i] := chunk[i];
      }
    }

    /** Pads, hashes the last blocks and returns the digest of everything fed. */
    method Final() returns (out: seq<u8>)
      requires Valid()
      modifies this, buf
      ensures out == Digest(old(fed))
    {
      hide Tracks, Blocks, Compress, Padded, Be64, Zeros, ZeroPad, PaddedBlocks;
      ghost var m := fed;
      var bits := total * 8 % TWO_64;
      assert bits == BitLength(|m|);
      Update([0x80]);
      ghost var k := 0;
      RegroupPad(m, 0);
      while buffered != 56
        invariant Valid() && k <= ZeroPad(|m|)
        invariant fed == m + [0x80] + Zeros(k)
        decreases ZeroPad(|m|) - k
      {
        StillPadding(|m|, k);
        BufferedIsRemainder(h, buf[..buffered], fed, done);
        ghost var before := fed;
        Update([0]);
        RegroupPad(m, k);
        k := k + 1;
      }
      BufferedIsRemainder(h, buf[..buffered], fed, done);
      DonePadding(|m|, k);
      Update(Be64(bits));
      assert fed == m + [0x80] + Zeros(ZeroPad(|m|)) + Be64(BitLength(|m|));
      PaddedIs(m);
      WholeBlocks(h, buf[..buffered], fed, done, m);
      out := DigestBytes(h);
    }
  }

  lemma BufferedIsRemainder(h: seq<u32>, tail: seq<u8>, fed: seq<u8>, done: nat)
    requires Tracks(h, tail, fed, done)
    ensures |tail| == |fed| % 64
  {
    hide Blocks;
  }

  lemma WholeBlocks(h: seq<u32>, tail: seq<u8>, fed: seq<u8>, done: nat, m: seq<u8>)
    requires Tracks(h, tail, fed, done) && fed == Padded(m)
    ensures |h| == 8 && h == Blocks(INITIAL_HASH, Padded(m), PaddedBlocks(|m|))
  {
    hide Blocks, Padded;
    assert done == PaddedBlocks(|m|);
  }

  lemma RegroupPad(m: seq<u8>, k: nat)
    ensures m + [0x80] + Zeros(k) + [0] == m + [0x80] + Zeros(k + 1)
    ensures m + [0x80] + Zeros(0) == m + [0x80]
  {
    assert Zeros(k) + [0] == Zeros(k + 1);
  }

  lemma PaddedIs(m: seq<u8>)
    ensures Padded(m) == m + [0x80] + Zeros(ZeroPad(|m|)) + Be64(BitLength(|m|))
  {
  }

  lemma StillPadding(len: nat, k: nat)
    requires k <= ZeroPad(len)
    ensures (len + 1 + k) % 64 != 56 ==> k < ZeroPad(len)
  {
  }

  lemma DonePadding(len: nat, k: nat)
    requires k <= ZeroPad(len) && (len + 1 + k) % 64 == 56
    ensures k == ZeroPad(len)
  {
  }
}
