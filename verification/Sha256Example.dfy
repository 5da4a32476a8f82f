/** A published digest, that of "abc", followed through schedule, rounds and bytes.
  *
  * The 64 schedule words and the state after every round are written down, and each is shown to
  * follow from those before by the model's own functions, evaluated on machine words. A wrong
  * function, constant, rotation or order anywhere would break the chain.
  */
module Sha256Example {
  import opened MachineWords
  import opened Words
  import opened BigEndian
  import N = Sha256Standard
  import S = Sha256
  import C = Sha256Constants

  // ── Evaluating a round ────────────────────────────────────────────────────

  function Shifted0(x: word): word {
    N.Xor3((x >> 2) | (x << 30), (x >> 13) | (x << 19), (x >> 22) | (x << 10))
  }

  function Shifted1(x: word): word {
    N.Xor3((x >> 6) | (x << 26), (x >> 11) | (x << 21), (x >> 25) | (x << 7))
  }

  lemma SigmasShift(x: word)
    ensures N.BigSigma0(x) == Shifted0(x) && N.BigSigma1(x) == Shifted1(x)
  {
    RotrByShifts(x);
    hide Rotr, N.Xor3;
  }

  /** The working variables as words. */
  datatype State = State(a: word, b: word, c: word, d: word, e: word, f: word, g: word, h: word)

  function Numbers(s: State): S.Working {
    S.Working(Value(s.a), Value(s.b), Value(s.c), Value(s.d), Value(s.e), Value(s.f), Value(s.g), Value(s.h))
  }

  function Push(s: State, a: word, e: word): State {
    State(a, s.a, s.b, s.c, e, s.e, s.f, s.g)
  }

  /** What the four functions give in a state. */
  predicate Gives(s: State, x0: word, mj: word, x1: word, ch: word) {
    x0 == Shifted0(s.a) && mj == N.Maj(s.a, s.b, s.c) && x1 == Shifted1(s.e) && ch == N.Ch(s.e, s.f, s.g)
  }

  /** And what the round makes of it. */
  predicate Turns(s: State, k: u32, w: u32, x0: word, mj: word, x1: word, ch: word, a: word, e: word) {
    var t1 := Flat(s.h) + Flat(x1) + Flat(ch) + k + w;
    Flat(a) == (t1 + Flat(x0) + Flat(mj)) % 0x1_0000_0000 && Flat(e) == (Flat(s.d) + t1) % 0x1_0000_0000
  }

  lemma GivenNumbers(s: State, x0: word, mj: word, x1: word, ch: word)
    requires Gives(s, x0, mj, x1, ch)
    ensures S.BigSigma0(Value(s.a)) == Value(x0) && S.Maj(Value(s.a), Value(s.b), Value(s.c)) == Value(mj)
    ensures S.BigSigma1(Value(s.e)) == Value(x1) && S.Ch(Value(s.e), Value(s.f), Value(s.g)) == Value(ch)
  {
    hide Value, Shifted0, Shifted1, N.BigSigma0, N.BigSigma1, N.Ch, N.Maj, S.BigSigma0, S.BigSigma1, S.Ch, S.Maj;
    SigmasShift(s.e);
    SigmasShift(s.a);
    N.BigSigmasAgree(s.a);
    N.BigSigmasAgree(s.e);
    N.ChAgrees(s.e, s.f, s.g);
    N.ChAgrees(s.a, s.b, s.c);
  }

  lemma TurnedNumbers(s: State, k: u32, w: u32, x0: word, mj: word, x1: word, ch: word, a: word, e: word)
    requires Turns(s, k, w, x0, mj, x1, ch, a, e)
    ensures var t1 := Value(s.h) + Value(x1) + Value(ch) + k + w;
            && Value(a) == (t1 + Value(x0) + Value(mj)) % 0x1_0000_0000
            && Value(e) == (Value(s.d) + t1) % 0x1_0000_0000
  {
    hide Flat, Value;
    FlatIsValue(s.h);
    FlatIsValue(s.d);
    FlatIsValue(x0);
    FlatIsValue(mj);
    FlatIsValue(x1);
    FlatIsValue(ch);
    FlatIsValue(a);
    FlatIsValue(e);
  }

  lemma RoundIs(v: S.Working, k: u32, w: u32, x0: u32, mj: u32, x1: u32, ch: u32)
    requires S.BigSigma0(v.a) == x0 && S.Maj(v.a, v.b, v.c) == mj
    requires S.BigSigma1(v.e) == x1 && S.Ch(v.e, v.f, v.g) == ch
    ensures var t1 := v.h + x1 + ch + k + w;
            S.Round(v, k, w) == S.Working((t1 + x0 + mj) % 0x1_0000_0000, v.a, v.b, v.c,
                                          (v.d + t1) % 0x1_0000_0000, v.e, v.f, v.g)
  {
    hide S.BigSigma0, S.BigSigma1, S.Ch, S.Maj;
    var t1 := v.h + x1 + ch + k + w;
    RemaindersAdd(t1, x0 + mj);
    RemaindersAdd(t1, v.d);
  }

  lemma RemaindersAdd(m: nat, n: nat)
    ensures (m % 0x1_0000_0000 + n % 0x1_0000_0000) % 0x1_0000_0000 == (m + n) % 0x1_0000_0000
    ensures (n + m % 0x1_0000_0000) % 0x1_0000_0000 == (n + m) % 0x1_0000_0000
  {
  }

  lemma Turn(s: State, k: u32, w: u32, x0: word, mj: word, x1: word, ch: word, a: word, e: word)
    requires Gives(s, x0, mj, x1, ch) && Turns(s, k, w, x0, mj, x1, ch, a, e)
    ensures S.Round(Numbers(s), k, w) == Numbers(Push(s, a, e))
  {
    hide Value, Gives, Turns, S.Round, S.BigSigma0, S.BigSigma1, S.Ch, S.Maj;
    GivenNumbers(s, x0, mj, x1, ch);
    TurnedNumbers(s, k, w, x0, mj, x1, ch, a, e);
    RoundIs(Numbers(s), k, w, Value(x0), Value(mj), Value(x1), Value(ch));
  }

  // ── The block ─────────────────────────────────────────────────────────────

  const ABC: seq<u8> := [0x61, 0x62, 0x63]

  /** "abc", the bit 1, zeros, and the length 24. */
  function Block(): (b: seq<u8>)
    ensures |b| == 64
  {
    ABC + [0x80] + Zeros(59) + [24]
  }

  lemma BlockIsPadded()
    ensures S.Padded(ABC) == Block()
  {
    assert S.ZeroPad(3) == 52 && S.BitLength(3) == 24;
    N.LengthBytes(24);
    LastByte(8, 24);
    hide S.Be64, LowBytes;
  }

  lemma {:induction false} ZeroBytes(n: nat)
    ensures LowBytes(0, n) == Zeros(n)
  {
    if n > 0 {
      ZeroBytes(n - 1);
    }
  }

  lemma LastByte(n: nat, v: u8)
    requires n > 0
    ensures LowBytes(v, n) == Zeros(n - 1) + [v]
  {
    ZeroBytes(n - 1);
  }

  lemma FirstWords()
    ensures S.Schedule(Block(), 0) == 0x61626380 && S.Schedule(Block(), 15) == 0x18
    ensures forall t :: 1 <= t < 15 ==> S.Schedule(Block(), t) == 0
  {
  }

  // ── The schedule ──────────────────────────────────────────────────────────

  /** The 64 schedule words of a block, from the first sixteen on. */
  predicate IsWord(w: seq<u32>, t: nat)
    requires 16 <= t < |w|
  {
    w[t] == (S.SmallSigma1(w[t - 2]) + w[t - 7] + S.SmallSigma0(w[t - 15]) + w[t - 16]) % 0x1_0000_0000
  }

  predicate IsSchedule(w: seq<u32>) {
    |w| == 64 && forall t :: 16 <= t < 64 ==> IsWord(w, t)
  }

  function ShiftedSmall0(x: word): word {
    N.Xor3((x >> 7) | (x << 25), (x >> 18) | (x << 14), x >> 3)
  }

  function ShiftedSmall1(x: word): word {
    N.Xor3((x >> 17) | (x << 15), (x >> 19) | (x << 13), x >> 10)
  }

  lemma SmallSigmasShift(x: word)
    ensures N.SmallSigma0(x) == ShiftedSmall0(x) && N.SmallSigma1(x) == ShiftedSmall1(x)
  {
    RotrByShifts(x);
    hide Rotr, N.Xor3;
  }

  lemma SmallGiven(v: u32, u: u32, p: word, q: word, x1: word, x0: word)
    requires v == Flat(p) && u == Flat(q) && x1 == ShiftedSmall1(p) && x0 == ShiftedSmall0(q)
    ensures S.SmallSigma1(v) == Flat(x1) && S.SmallSigma0(u) == Flat(x0)
  {
    hide Value, Flat, ShiftedSmall0, ShiftedSmall1, N.SmallSigma0, N.SmallSigma1, S.SmallSigma0, S.SmallSigma1;
    FlatIsValue(p);
    FlatIsValue(q);
    FlatIsValue(x1);
    FlatIsValue(x0);
    SmallSigmasShift(p);
    SmallSigmasShift(q);
    N.SmallSigmasAgree(p);
    N.SmallSigmasAgree(q);
  }

  /** Word t from words t - 2 and t - 15 and what the two functions make of them. */
  lemma Next(w: seq<u32>, t: nat, p: word, q: word, x1: word, x0: word, v: nat)
    requires IsSchedule(w) && 16 <= t < 64 && w[t - 2] == Flat(p) && w[t - 15] == Flat(q)
    requires x1 == ShiftedSmall1(p) && x0 == ShiftedSmall0(q)
    requires v == (Flat(x1) + w[t - 7] + Flat(x0) + w[t - 16]) % 0x1_0000_0000
    ensures w[t] == v
  {
    hide Flat, S.SmallSigma0, S.SmallSigma1, ShiftedSmall0, ShiftedSmall1;
    SmallGiven(w[t - 2], w[t - 15], p, q, x1, x0);
    assert IsWord(w, t);
  }

  lemma Words16(w: seq<u32>)
    requires IsSchedule(w)
    requires w[0] == 0x61626380 && w[1] == 0x00000000 && w[2] == 0x00000000 && w[3] == 0x00000000
    requires w[4] == 0x00000000 && w[5] == 0x00000000 && w[6] == 0x00000000 && w[7] == 0x00000000
    requires w[8] == 0x00000000 && w[9] == 0x00000000 && w[10] == 0x00000000 && w[11] == 0x00000000
    requires w[12] == 0x00000000 && w[13] == 0x00000000 && w[14] == 0x00000000 && w[15] == 0x00000018
    ensures w[16] == 0x61626380 && w[17] == 0x000f0000 && w[18] == 0x7da86405 && w[19] == 0x600003c6
    ensures w[20] == 0x3e9d7b78 && w[21] == 0x0183fc00 && w[22] == 0x12dcbfdb && w[23] == 0xe2e2c38e
  {
    hide IsSchedule;
    Next(w, 16, 0x00000000, 0x00000000, 0x00000000, 0x00000000, 0x61626380);
    Next(w, 17, 0x00000018, 0x00000000, 0x000f0000, 0x00000000, 0x000f0000);
    Next(w, 18, 0x61626380, 0x00000000, 0x7da86405, 0x00000000, 0x7da86405);
    Next(w, 19, 0x000f0000, 0x00000000, 0x600003c6, 0x00000000, 0x600003c6);
    Next(w, 20, 0x7da86405, 0x00000000, 0x3e9d7b78, 0x00000000, 0x3e9d7b78);
    Next(w, 21, 0x600003c6, 0x00000000, 0x0183fc00, 0x00000000, 0x0183fc00);
    Next(w, 22, 0x3e9d7b78, 0x00000000, 0x12dcbfc3, 0x00000000, 0x12dcbfdb);
    Next(w, 23, 0x0183fc00, 0x00000000, 0x8180600e, 0x00000000, 0xe2e2c38e);
  }

  lemma Words24(w: seq<u32>)
    requires IsSchedule(w)
    requires w[8] == 0x00000000 && w[9] == 0x00000000 && w[10] == 0x00000000 && w[11] == 0x00000000
    requires w[12] == 0x00000000 && w[13] == 0x00000000 && w[14] == 0x00000000 && w[15] == 0x00000018
    requires w[16] == 0x61626380 && w[17] == 0x000f0000 && w[18] == 0x7da86405 && w[19] == 0x600003c6
    requires w[20] == 0x3e9d7b78 && w[21] == 0x0183fc00 && w[22] == 0x12dcbfdb && w[23] == 0xe2e2c38e
    ensures w[24] == 0xc8215c1a && w[25] == 0xb73679a2 && w[26] == 0xe5bc3909 && w[27] == 0x32663c5b
    ensures w[28] == 0x9d209d67 && w[29] == 0xec8726cb && w[30] == 0x702138a4 && w[31] == 0xd3b7973b
  {
    hide IsSchedule;
    Next(w, 24, 0x12dcbfdb, 0x00000000, 0xc8125c1a, 0x00000000, 0xc8215c1a);
    Next(w, 25, 0xe2e2c38e, 0x00000000, 0x398e159d, 0x00000000, 0xb73679a2);
    Next(w, 26, 0xc8215c1a, 0x00000000, 0x85bc3543, 0x00000000, 0xe5bc3909);
    Next(w, 27, 0xb73679a2, 0x00000000, 0xf3c8c0e3, 0x00000000, 0x32663c5b);
    Next(w, 28, 0xe5bc3909, 0x00000000, 0x9b9ca167, 0x00000000, 0x9d209d67);
    Next(w, 29, 0x32663c5b, 0x00000000, 0xd9aa66f0, 0x00000000, 0xec8726cb);
    Next(w, 30, 0x9d209d67, 0x00000018, 0x5d387513, 0x30060003, 0x702138a4);
    Next(w, 31, 0xec8726cb, 0x61626380, 0x7787aa1a, 0x940e90ef, 0xd3b7973b);
  }

  lemma Words32(w: seq<u32>)
    requires IsSchedule(w)
    requires w[16] == 0x61626380 && w[17] == 0x000f0000 && w[18] == 0x7da86405 && w[19] == 0x600003c6
    requires w[20] == 0x3e9d7b78 && w[21] == 0x0183fc00 && w[22] == 0x12dcbfdb && w[23] == 0xe2e2c38e
    requires w[24] == 0xc8215c1a && w[25] == 0xb73679a2 && w[26] == 0xe5bc3909 && w[27] == 0x32663c5b
    requires w[28] == 0x9d209d67 && w[29] == 0xec8726cb && w[30] == 0x702138a4 && w[31] == 0xd3b7973b
    ensures w[32] == 0x93f5997f && w[33] == 0x3b68ba73 && w[34] == 0xaff4ffc1 && w[35] == 0xf10a5c62
    ensures w[36] == 0x0a8b3996 && w[37] == 0x72af830a && w[38] == 0x9409e33e && w[39] == 0x24641522
  {
    hide IsSchedule;
    Next(w, 32, 0x702138a4, 0x000f0000, 0xbb5abe5a, 0xc001fe03, 0x93f5997f);
    Next(w, 33, 0xd3b7973b, 0x7da86405, 0x394e7e48, 0x1c4f0322, 0x3b68ba73);
    Next(w, 34, 0x93f5997f, 0x600003c6, 0x7fb4c6e2, 0x8031987f, 0xaff4ffc1);
    Next(w, 35, 0x3b68ba73, 0x3e9d7b78, 0x4a7920f7, 0xa9709a3e, 0xf10a5c62);
    Next(w, 36, 0xaff4ffc1, 0x0183fc00, 0xe0331f3b, 0xff337818, 0x0a8b3996);
    Next(w, 37, 0xf10a5c62, 0x12dcbfdb, 0x65816433, 0x9b88ea33, 0x72af830a);
    Next(w, 38, 0x0a8b3996, 0xe2e2c38e, 0xfbfb66da, 0xb17a254e, 0x9409e33e);
    Next(w, 39, 0x72af830a, 0xc8215c1a, 0x31f8dce2, 0x7b92db33, 0x24641522);
  }

  lemma Words40(w: seq<u32>)
    requires IsSchedule(w)
    requires w[24] == 0xc8215c1a && w[25] == 0xb73679a2 && w[26] == 0xe5bc3909 && w[27] == 0x32663c5b
    requires w[28] == 0x9d209d67 && w[29] == 0xec8726cb && w[30] == 0x702138a4 && w[31] == 0xd3b7973b
    requires w[32] == 0x93f5997f && w[33] == 0x3b68ba73 && w[34] == 0xaff4ffc1 && w[35] == 0xf10a5c62
    requires w[36] == 0x0a8b3996 && w[37] == 0x72af830a && w[38] == 0x9409e33e && w[39] == 0x24641522
    ensures w[40] == 0x9f47bf94 && w[41] == 0xf0a64f5a && w[42] == 0x3e246a79 && w[43] == 0x27333ba3
    ensures w[44] == 0x0c4763f2 && w[45] == 0x840abf27 && w[46] == 0x7a290d5d && w[47] == 0x065c43da
  {
    hide IsSchedule;
    Next(w, 40, 0x9409e33e, 0xb73679a2, 0xcddd9afd, 0xcde00e0a, 0x9f47bf94);
    Next(w, 41, 0x24641522, 0xe5bc3909, 0x883c4fbb, 0x013e863c, 0xf0a64f5a);
    Next(w, 42, 0x9f47bf94, 0x32663c5b, 0x281f0da4, 0x3f3ec76a, 0x3e246a79);
    Next(w, 43, 0xf0a64f5a, 0x9d209d67, 0xee7a0fd4, 0xfbc7b5de, 0x27333ba3);
    Next(w, 44, 0x3e246a79, 0xec8726cb, 0xb87c31cc, 0x43fb11b5, 0x0c4763f2);
    Next(w, 45, 0x27333ba3, 0x702138a4, 0xfaac3bb1, 0x08cd796d, 0x840abf27);
    Next(w, 46, 0x0c4763f2, 0xd3b7973b, 0x5d845673, 0x881f6924, 0x7a290d5d);
    Next(w, 47, 0x840abf27, 0x93f5997f, 0x0856302b, 0x8b06bce0, 0x065c43da);
  }

  lemma Words48(w: seq<u32>)
    requires IsSchedule(w)
    requires w[32] == 0x93f5997f && w[33] == 0x3b68ba73 && w[34] == 0xaff4ffc1 && w[35] == 0xf10a5c62
    requires w[36] == 0x0a8b3996 && w[37] == 0x72af830a && w[38] == 0x9409e33e && w[39] == 0x24641522
    requires w[40] == 0x9f47bf94 && w[41] == 0xf0a64f5a && w[42] == 0x3e246a79 && w[43] == 0x27333ba3
    requires w[44] == 0x0c4763f2 && w[45] == 0x840abf27 && w[46] == 0x7a290d5d && w[47] == 0x065c43da
    ensures w[48] == 0xfb3e89cb && w[49] == 0xcc7617db && w[50] == 0xb9e66c34 && w[51] == 0xa9993667
    ensures w[52] == 0x84badedd && w[53] == 0xc21462bc && w[54] == 0x1487472c && w[55] == 0xb20f7a99
  {
    hide IsSchedule;
    Next(w, 48, 0x7a290d5d, 0x3b68ba73, 0xa71b9812, 0xcf8708e0, 0xfb3e89cb);
    Next(w, 49, 0x065c43da, 0xaff4ffc1, 0xa997d4f5, 0xa9511dfa, 0xcc7617db);
    Next(w, 50, 0xfb3e89cb, 0xf10a5c62, 0x95e24d5a, 0x4cdbe376, 0xb9e66c34);
    Next(w, 51, 0xcc7617db, 0x0a8b3996, 0xc9258230, 0xe321f3e3, 0xa9993667);
    Next(w, 52, 0xb9e66c34, 0x72af830a, 0xfbb2b254, 0xfa7233cc, 0x84badedd);
    Next(w, 53, 0xa9993667, 0x9409e33e, 0xbdd547b2, 0x17668aa3, 0xc21462bc);
    Next(w, 54, 0x84badedd, 0x24641522, 0x34945c7d, 0x458cc397, 0x1487472c);
    Next(w, 55, 0xc21462bc, 0x9f47bf94, 0xbd397c50, 0xd5335f5c, 0xb20f7a99);
  }

  lemma Words56(w: seq<u32>)
    requires IsSchedule(w)
    requires w[40] == 0x9f47bf94 && w[41] == 0xf0a64f5a && w[42] == 0x3e246a79 && w[43] == 0x27333ba3
    requires w[44] == 0x0c4763f2 && w[45] == 0x840abf27 && w[46] == 0x7a290d5d && w[47] == 0x065c43da
    requires w[48] == 0xfb3e89cb && w[49] == 0xcc7617db && w[50] == 0xb9e66c34 && w[51] == 0xa9993667
    requires w[52] == 0x84badedd && w[53] == 0xc21462bc && w[54] == 0x1487472c && w[55] == 0xb20f7a99
    ensures w[56] == 0xef57b9cd && w[57] == 0xebe6b238 && w[58] == 0x9fe3095e && w[59] == 0x78bc8d4b
    ensures w[60] == 0xa43fcf15 && w[61] == 0x668b2ff8 && w[62] == 0xeeaba2cc && w[63] == 0x12b1edeb
  {
    hide IsSchedule;
    Next(w, 56, 0x1487472c, 0xf0a64f5a, 0x4b76a902, 0x3823395c, 0xef57b9cd);
    Next(w, 57, 0xb20f7a99, 0x3e246a79, 0x52336c98, 0xef268a12, 0xebe6b238);
    Next(w, 58, 0xef57b9cd, 0x27333ba3, 0x2be49faf, 0x8c40c8cf, 0x9fe3095e);
    Next(w, 59, 0xebe6b238, 0x0c4763f2, 0x8f619123, 0x3d6ce1a8, 0x78bc8d4b);
    Next(w, 60, 0x9fe3095e, 0x840abf27, 0xe5a364cf, 0xf040a398, 0xa43fcf15);
    Next(w, 61, 0x78bc8d4b, 0x7a290d5d, 0xd712fc6a, 0xf6e62d3b, 0x668b2ff8);
    Next(w, 62, 0xa43fcf15, 0x065c43da, 0x1e41696b, 0xa431b16b, 0xeeaba2cc);
    Next(w, 63, 0x668b2ff8, 0xfb3e89cb, 0xf21a9d5f, 0x2ae352e5, 0x12b1edeb);
  }

  // ── The rounds ────────────────────────────────────────────────────────────

  const START := State(0x6a09e667, 0xbb67ae85, 0x3c6ef372, 0xa54ff53a,
                       0x510e527f, 0x9b05688c, 0x1f83d9ab, 0x5be0cd19)

  lemma StartIsInitial()
    ensures S.Load(S.INITIAL_HASH) == Numbers(START)
  {
    FlatIsValue(START.a);
    FlatIsValue(START.b);
    FlatIsValue(START.c);
    FlatIsValue(START.d);
    FlatIsValue(START.e);
    FlatIsValue(START.f);
    FlatIsValue(START.g);
    FlatIsValue(START.h);
    hide Value;
  }

  /** The states before and after each round. */
  predicate IsRound(rs: seq<S.Working>, w: seq<u32>, t: nat)
    requires t < |w| == 64 && |rs| == 65
  {
    rs[t + 1] == S.Round(rs[t], S.ROUND_CONSTANTS[t], w[t])
  }

  predicate IsRun(rs: seq<S.Working>, w: seq<u32>) {
    |w| == 64 && |rs| == 65 && forall t :: 0 <= t < 64 ==> IsRound(rs, w, t)
  }

  predicate Reached(rs: seq<S.Working>, s: State, t: nat) {
    t < |rs| && rs[t] == Numbers(s)
  }

  lemma Go(rs: seq<S.Working>, w: seq<u32>, s: State, t: nat, k: u32, x0: word, mj: word, x1: word, ch: word,
           a: word, e: word)
    returns (r: State)
    requires IsRun(rs, w) && t < 64 && Reached(rs, s, t) && S.ROUND_CONSTANTS[t] == k
    requires Gives(s, x0, mj, x1, ch) && Turns(s, k, w[t], x0, mj, x1, ch, a, e)
    ensures r == Push(s, a, e) && Reached(rs, r, t + 1)
  {
    Turn(s, k, w[t], x0, mj, x1, ch, a, e);
    assert IsRound(rs, w, t);
    r := Push(s, a, e);
    hide Numbers, Gives, Turns, S.Round, S.ROUND_CONSTANTS, Push;
  }

  lemma Rounds0(rs: seq<S.Working>, w: seq<u32>)
    requires IsRun(rs, w) && w[0] == 0x61626380 && w[1] == 0x00000000 && w[2] == 0x00000000 && w[3] == 0x00000000
    requires Reached(rs, State(0x6a09e667, 0xbb67ae85, 0x3c6ef372, 0xa54ff53a,
                               0x510e527f, 0x9b05688c, 0x1f83d9ab, 0x5be0cd19), 0)
    ensures Reached(rs, State(0xd550f666, 0xc8c347a7, 0x5a6ad9ad, 0x5d6aebcd,
                               0x24e00850, 0xf92939eb, 0x78ce7989, 0xfa2a4622), 4)
  {
    C.Constants0();
    hide Reached, IsRun, S.ROUND_CONSTANTS;
    var s := State(0x6a09e667, 0xbb67ae85, 0x3c6ef372, 0xa54ff53a,
                   0x510e527f, 0x9b05688c, 0x1f83d9ab, 0x5be0cd19);
    s := Go(rs, w, s, 0, 0x428a2f98, 0xce20b47e, 0x3a6fe667, 0x3587272b, 0x1f85c98c, 0x5d6aebcd, 0xfa2a4622);
    s := Go(rs, w, s, 1, 0x71374491, 0xa29f64d1, 0x7b6beec5, 0x5a94fd2d, 0x510f6aae, 0x5a6ad9ad, 0x78ce7989);
    s := Go(rs, w, s, 2, 0xb5c0fbcf, 0x3096d054, 0x5a6aebed, 0x73f0e495, 0x790a4276, 0xc8c347a7, 0xf92939eb);
    s := Go(rs, w, s, 3, 0xe9b5dba5, 0xc21008d0, 0x586acbad, 0x0607743c, 0x7a0a7f89, 0xd550f666, 0x24e00850);
  }

  lemma Rounds4(rs: seq<S.Working>, w: seq<u32>)
    requires IsRun(rs, w) && w[4] == 0x00000000 && w[5] == 0x00000000 && w[6] == 0x00000000 && w[7] == 0x00000000
    requires Reached(rs, State(0xd550f666, 0xc8c347a7, 0x5a6ad9ad, 0x5d6aebcd,
                               0x24e00850, 0xf92939eb, 0x78ce7989, 0xfa2a4622), 4)
    ensures Reached(rs, State(0x85a07b5f, 0xe5030380, 0x2b4209f5, 0x04409a6a,
                               0x0c657a79, 0x9b27a401, 0x714260ad, 0x43ada245), 8)
  {
    C.Constants0();
    hide Reached, IsRun, S.ROUND_CONSTANTS;
    var s := State(0xd550f666, 0xc8c347a7, 0x5a6ad9ad, 0x5d6aebcd,
                   0x24e00850, 0xf92939eb, 0x78ce7989, 0xfa2a4622);
    s := Go(rs, w, s, 4, 0x3956c25b, 0x45bb0c4b, 0xd842d7a7, 0x3a933432, 0x782e79c9, 0x04409a6a, 0x43ada245);
    s := Go(rs, w, s, 5, 0x59f111f1, 0x5029ac8f, 0xc440d666, 0x8b77e19c, 0xb8a019ea, 0x2b4209f5, 0x714260ad);
    s := Go(rs, w, s, 6, 0x923f82a4, 0x0d5e0cc0, 0x05409a66, 0x015b7776, 0x45a02855, 0xe5030380, 0x9b27a401);
    s := Go(rs, w, s, 7, 0xab1c5ed5, 0x2949eb6c, 0x25420be0, 0x158dfaa9, 0x518a2245, 0x85a07b5f, 0x0c657a79);
  }

  lemma Rounds8(rs: seq<S.Working>, w: seq<u32>)
    requires IsRun(rs, w) && w[8] == 0x00000000 && w[9] == 0x00000000 && w[10] == 0x00000000 && w[11] == 0x00000000
    requires Reached(rs, State(0x85a07b5f, 0xe5030380, 0x2b4209f5, 0x04409a6a,
                               0x0c657a79, 0x9b27a401, 0x714260ad, 0x43ada245), 8)
    ensures Reached(rs, State(0xf71fc5a9, 0x4798a3f4, 0x8c87346b, 0x8e04ecb9,
                               0x816fd6e9, 0x436b23e8, 0x1cc92596, 0x32ca2d8c), 12)
  {
    C.Constants1();
    hide Reached, IsRun, S.ROUND_CONSTANTS;
    var s := State(0x85a07b5f, 0xe5030380, 0x2b4209f5, 0x04409a6a,
                   0x0c657a79, 0x9b27a401, 0x714260ad, 0x43ada245);
    s := Go(rs, w, s, 8, 0xd807aa98, 0xba794dc2, 0xa5020bd5, 0x99ad25c0, 0x79272085, 0x8e04ecb9, 0x32ca2d8c);
    s := Go(rs, w, s, 9, 0x12835b01, 0x15ffad31, 0x85006b99, 0xe45bb7ea, 0x8965a809, 0x8c87346b, 0x1cc92596);
    s := Go(rs, w, s, 10, 0x243185be, 0x5cac0711, 0x8c847c7b, 0x8e2276bc, 0x10ec7fed, 0x4798a3f4, 0x436b23e8);
    s := Go(rs, w, s, 11, 0x550c7dc3, 0x6ccbc526, 0x8e84a4f9, 0x699435ca, 0x30c92d84, 0xf71fc5a9, 0x816fd6e9);
  }

  lemma Rounds12(rs: seq<S.Working>, w: seq<u32>)
    requires IsRun(rs, w) && w[12] == 0x00000000 && w[13] == 0x00000000 && w[14] == 0x00000000 && w[15] == 0x00000018
    requires Reached(rs, State(0xf71fc5a9, 0x4798a3f4, 0x8c87346b, 0x8e04ecb9,
                               0x816fd6e9, 0x436b23e8, 0x1cc92596, 0x32ca2d8c), 12)
    ensures Reached(rs, State(0xb0fa238e, 0xc0645fde, 0xd932eb16, 0x87912990,
                               0x07590dcd, 0x0b92f20c, 0x745a48de, 0x1e578218), 16)
  {
    C.Constants1();
    hide Reached, IsRun, S.ROUND_CONSTANTS;
    var s := State(0xf71fc5a9, 0x4798a3f4, 0x8c87346b, 0x8e04ecb9,
                   0x816fd6e9, 0x436b23e8, 0x1cc92596, 0x32ca2d8c);
    s := Go(rs, w, s, 12, 0x72be5d74, 0x2f9eee48, 0xc79fa5e9, 0xccdee661, 0x1deb23fe, 0x87912990, 0x1e578218);
    s := Go(rs, w, s, 13, 0x80deb1fe, 0x29c634f3, 0xc799a1b0, 0x08bb98f7, 0x416fa3e8, 0xd932eb16, 0x745a48de);
    s := Go(rs, w, s, 14, 0x9bdc06a7, 0x25562836, 0xd713e990, 0x4f3b8d50, 0x95779639, 0xc0645fde, 0x0b92f20c);
    s := Go(rs, w, s, 15, 0xc19bf174, 0xdf906fd4, 0xc1306b96, 0xb8d63f93, 0x1457401c, 0xb0fa238e, 0x07590dcd);
  }

  lemma Rounds16(rs: seq<S.Working>, w: seq<u32>)
    requires IsRun(rs, w) && w[16] == 0x61626380 && w[17] == 0x000f0000 && w[18] == 0x7da86405 && w[19] == 0x600003c6
    requires Reached(rs, State(0xb0fa238e, 0xc0645fde, 0xd932eb16, 0x87912990,
                               0x07590dcd, 0x0b92f20c, 0x745a48de, 0x1e578218), 16)
    ensures Reached(rs, State(0xe1f20c33, 0xfe777bbf, 0xc2fbd9d1, 0x21da9a9b,
                               0xb0638179, 0xcc899961, 0x846ee454, 0x8034229c), 20)
  {
    C.Constants2();
    hide Reached, IsRun, S.ROUND_CONSTANTS;
    var s := State(0xb0fa238e, 0xc0645fde, 0xd932eb16, 0x87912990,
                   0x07590dcd, 0x0b92f20c, 0x745a48de, 0x1e578218);
    s := Go(rs, w, s, 16, 0xe49b69c1, 0x58c535f1, 0xd0726b9e, 0x213b6995, 0x7312401e, 0x21da9a9b, 0x8034229c);
    s := Go(rs, w, s, 17, 0xefbe4786, 0x76c5c4f5, 0xa0fa1b9e, 0x3b81984e, 0x0b92d08c, 0xc2fbd9d1, 0x846ee454);
    s := Go(rs, w, s, 18, 0x0fc19dc6, 0x5157a6a1, 0xa0fa9b9b, 0xeff31c0f, 0x8335299d, 0xfe777bbf, 0xcc899961);
    s := Go(rs, w, s, 19, 0x240ca1cc, 0xff8cd2ad, 0xe2fbdb9b, 0xefc707b0, 0x843ca2dc, 0xe1f20c33, 0xb0638179);
  }

  lemma Rounds20(rs: seq<S.Working>, w: seq<u32>)
    requires IsRun(rs, w) && w[20] == 0x3e9d7b78 && w[21] == 0x0183fc00 && w[22] == 0x12dcbfdb && w[23] == 0xe2e2c38e
    requires Reached(rs, State(0xe1f20c33, 0xfe777bbf, 0xc2fbd9d1, 0x21da9a9b,
                               0xb0638179, 0xcc899961, 0x846ee454, 0x8034229c), 20)
    ensures Reached(rs, State(0xc5d53d8d, 0xa7a3623f, 0xc2606d6d, 0x9dc68b63,
                               0xaa47c347, 0x49f5114a, 0xe1257970, 0x8ada8930), 24)
  {
    C.Constants2();
    hide Reached, IsRun, S.ROUND_CONSTANTS;
    var s := State(0xe1f20c33, 0xfe777bbf, 0xc2fbd9d1, 0x21da9a9b,
                   0xb0638179, 0xcc899961, 0x846ee454, 0x8034229c);
    s := Go(rs, w, s, 20, 0x2de92c6f, 0x51d3431b, 0xe2f359b3, 0xf8373ead, 0x840de565, 0x9dc68b63, 0x8ada8930);
    s := Go(rs, w, s, 21, 0x4a7484aa, 0xa640c29b, 0xfdf60b33, 0x897ea930, 0xc4439171, 0xc2606d6d, 0xe1257970);
    s := Go(rs, w, s, 22, 0x5cb0a9dc, 0x9a43bf51, 0xc1e20d63, 0x7f24093a, 0x90428939, 0xa7a3623f, 0x49f5114a);
    s := Go(rs, w, s, 23, 0x76f988da, 0x759d1b0a, 0x87e26b6f, 0xfae64fc3, 0xc32f9970, 0xc5d53d8d, 0xaa47c347);
  }

  lemma Rounds24(rs: seq<S.Working>, w: seq<u32>)
    requires IsRun(rs, w) && w[24] == 0xc8215c1a && w[25] == 0xb73679a2 && w[26] == 0xe5bc3909 && w[27] == 0x32663c5b
    requires Reached(rs, State(0xc5d53d8d, 0xa7a3623f, 0xc2606d6d, 0x9dc68b63,
                               0xaa47c347, 0x49f5114a, 0xe1257970, 0x8ada8930), 24)
    ensures Reached(rs, State(0x77d37528, 0xb62ec4bc, 0xcde8037d, 0x1c2c2838,
                               0xedffbff8, 0xc74c6516, 0x14383d8e, 0x2823ef91), 28)
  {
    C.Constants3();
    hide Reached, IsRun, S.ROUND_CONSTANTS;
    var s := State(0xc5d53d8d, 0xa7a3623f, 0xc2606d6d, 0x9dc68b63,
                   0xaa47c347, 0x49f5114a, 0xe1257970, 0x8ada8930);
    s := Go(rs, w, s, 24, 0x983e5152, 0xc9ed56dd, 0xc7e16d2d, 0x55bdf420, 0x49653972, 0x1c2c2838, 0x2823ef91);
    s := Go(rs, w, s, 25, 0xa831c66d, 0xf66b0b1f, 0x85a5283d, 0xa7724357, 0x69d7d34b, 0xcde8037d, 0x14383d8e);
    s := Go(rs, w, s, 26, 0xb00327c8, 0xc89998a8, 0xcdec293d, 0x958ca0fb, 0xaa67efc1, 0xb62ec4bc, 0xc74c6516);
    s := Go(rs, w, s, 27, 0xbf597fc7, 0xb37cf281, 0x9c2c003c, 0x5ff7537b, 0x2c2baf87, 0x77d37528, 0xedffbff8);
  }

  lemma Rounds28(rs: seq<S.Working>, w: seq<u32>)
    requires IsRun(rs, w) && w[28] == 0x9d209d67 && w[29] == 0xec8726cb && w[30] == 0x702138a4 && w[31] == 0xd3b7973b
    requires Reached(rs, State(0x77d37528, 0xb62ec4bc, 0xcde8037d, 0x1c2c2838,
                               0xedffbff8, 0xc74c6516, 0x14383d8e, 0x2823ef91), 28)
    ensures Reached(rs, State(0x73b33bf5, 0xea992a22, 0xa0060b30, 0x363482c9,
                               0xba591112, 0x0109ab3a, 0xade79437, 0x6112a3b7), 32)
  {
    C.Constants3();
    hide Reached, IsRun, S.ROUND_CONSTANTS;
    var s := State(0x77d37528, 0xb62ec4bc, 0xcde8037d, 0x1c2c2838,
                   0xedffbff8, 0xc74c6516, 0x14383d8e, 0x2823ef91);
    s := Go(rs, w, s, 28, 0xc6e00bf3, 0xf963c20e, 0xf7ea453c, 0xe375bd7e, 0xd54c2516, 0x363482c9, 0x6112a3b7);
    s := Go(rs, w, s, 29, 0xd5a79147, 0x89cfb5ce, 0x3636c4a8, 0x2239b36a, 0xe75ee7b0, 0xa0060b30, 0xade79437);
    s := Go(rs, w, s, 30, 0x06ca6351, 0x69a8407c, 0x36160328, 0xab883974, 0x611aabff, 0xea992a22, 0x0109ab3a);
    s := Go(rs, w, s, 31, 0x14292967, 0x8f1995eb, 0xa2140a20, 0x0b919a99, 0x611380b7, 0x73b33bf5, 0xba591112);
  }

  lemma Rounds32(rs: seq<S.Working>, w: seq<u32>)
    requires IsRun(rs, w) && w[32] == 0x93f5997f && w[33] == 0x3b68ba73 && w[34] == 0xaff4ffc1 && w[35] == 0xf10a5c62
    requires Reached(rs, State(0x73b33bf5, 0xea992a22, 0xa0060b30, 0x363482c9,
                               0xba591112, 0x0109ab3a, 0xade79437, 0x6112a3b7), 32)
    ensures Reached(rs, State(0x65a0cfe4, 0xa9a7738c, 0xfe604df5, 0x98e12507,
                               0xf4b002d6, 0x085f3833, 0x59249dd3, 0x9cd9f5f6), 36)
  {
    C.Constants4();
    hide Reached, IsRun, S.ROUND_CONSTANTS;
    var s := State(0x73b33bf5, 0xea992a22, 0xa0060b30, 0x363482c9,
                   0xba591112, 0x0109ab3a, 0xade79437, 0x6112a3b7);
    s := Go(rs, w, s, 32, 0x27b70a85, 0x4fa886aa, 0xe2932b30, 0x4436a63b, 0x05af8537, 0x98e12507, 0x9cd9f5f6);
    s := Go(rs, w, s, 33, 0x2e1b2138, 0x4a90902b, 0xfab12b27, 0x085a07a7, 0x99591b1a, 0xfe604df5, 0x59249dd3);
    s := Go(rs, w, s, 34, 0x4d2c6dfc, 0x91003786, 0xfae12df5, 0x65415f48, 0xba5995d2, 0xa9a7738c, 0x085f3833);
    s := Go(rs, w, s, 35, 0x53380d13, 0x2bc2a37e, 0xb8e16585, 0xe5dc6e83, 0x9c84ddd7, 0x65a0cfe4, 0xf4b002d6);
  }

  lemma Rounds36(rs: seq<S.Working>, w: seq<u32>)
    requires IsRun(rs, w) && w[36] == 0x0a8b3996 && w[37] == 0x72af830a && w[38] == 0x9409e33e && w[39] == 0x24641522
    requires Reached(rs, State(0x65a0cfe4, 0xa9a7738c, 0xfe604df5, 0x98e12507,
                               0xf4b002d6, 0x085f3833, 0x59249dd3, 0x9cd9f5f6), 36)
    ensures Reached(rs, State(0x79ea687a, 0x6dc57a8a, 0x34df1604, 0x41a65cb1,
                               0x1efbc0a0, 0xf0781bc8, 0xa507a53d, 0x0772a26b), 40)
  {
    C.Constants4();
    hide Reached, IsRun, S.ROUND_CONSTANTS;
    var s := State(0x65a0cfe4, 0xa9a7738c, 0xfe604df5, 0x98e12507,
                   0xf4b002d6, 0x085f3833, 0x59249dd3, 0x9cd9f5f6);
    s := Go(rs, w, s, 36, 0x650a7354, 0xe5748f69, 0xeda04fe4, 0x590d3d71, 0x09149d13, 0x41a65cb1, 0x0772a26b);
    s := Go(rs, w, s, 37, 0x766a0abb, 0x2c915f18, 0x61a65fa4, 0x582c115e, 0x0c3d1a52, 0x34df1604, 0xa507a53d);
    s := Go(rs, w, s, 38, 0x81c2c92e, 0xc14e73aa, 0x65a65ea4, 0xd2f220b2, 0x55b2a2eb, 0x6dc57a8a, 0xf0781bc8);
    s := Go(rs, w, s, 39, 0x92722c85, 0x5ac8193e, 0x65c75e80, 0x66d20b14, 0xa702a12b, 0x79ea687a, 0x1efbc0a0);
  }

  lemma Rounds40(rs: seq<S.Working>, w: seq<u32>)
    requires IsRun(rs, w) && w[40] == 0x9f47bf94 && w[41] == 0xf0a64f5a && w[42] == 0x3e246a79 && w[43] == 0x27333ba3
    requires Reached(rs, State(0x79ea687a, 0x6dc57a8a, 0x34df1604, 0x41a65cb1,
                               0x1efbc0a0, 0xf0781bc8, 0xa507a53d, 0x0772a26b), 40)
    ensures Reached(rs, State(0x9d4baf93, 0x17aa0dfe, 0xdf46652f, 0xd6670766,
                               0xfda24c2e, 0xdecd4715, 0x838b2711, 0x26352d63), 44)
  {
    C.Constants5();
    hide Reached, IsRun, S.ROUND_CONSTANTS;
    var s := State(0x79ea687a, 0x6dc57a8a, 0x34df1604, 0x41a65cb1,
                   0x1efbc0a0, 0xf0781bc8, 0xa507a53d, 0x0772a26b);
    s := Go(rs, w, s, 40, 0xa2bfe8a1, 0x7408bcaa, 0x7dcf7a0a, 0xe9986075, 0xb17c259d, 0xd6670766, 0x26352d63);
    s := Go(rs, w, s, 41, 0xa81a664b, 0x12b2e9b8, 0x7de76a6a, 0x3a6aa383, 0xd67912a8, 0xdf46652f, 0x838b2711);
    s := Go(rs, w, s, 42, 0xc24b8b70, 0xc73bdc05, 0xdf66656e, 0x61add539, 0x1e71e5a1, 0x17aa0dfe, 0xdecd4715);
    s := Go(rs, w, s, 43, 0xc76c51a3, 0x422dc671, 0xd766056e, 0xd363665b, 0xa2b92f73, 0x9d4baf93, 0xfda24c2e);
  }

  lemma Rounds44(rs: seq<S.Working>, w: seq<u32>)
    requires IsRun(rs, w) && w[44] == 0x0c4763f2 && w[45] == 0x840abf27 && w[46] == 0x7a290d5d && w[47] == 0x065c43da
    requires Reached(rs, State(0x9d4baf93, 0x17aa0dfe, 0xdf46652f, 0xd6670766,
                               0xfda24c2e, 0xdecd4715, 0x838b2711, 0x26352d63), 44)
    ensures Reached(rs, State(0x4172328d, 0xa14c14b0, 0x72ab4b91, 0x26628815,
                               0xfecf0bc6, 0xd57b94a9, 0xb7755da1, 0xa80f11f0), 48)
  {
    C.Constants5();
    hide Reached, IsRun, S.ROUND_CONSTANTS;
    var s := State(0x9d4baf93, 0x17aa0dfe, 0xdf46652f, 0xd6670766,
                   0xfda24c2e, 0xdecd4715, 0x838b2711, 0x26352d63);
    s := Go(rs, w, s, 44, 0xd192e819, 0xb5704fcc, 0x9f4a2dbf, 0xef0f2a07, 0xde896715, 0x26628815, 0xa80f11f0);
    s := Go(rs, w, s, 45, 0xd6990624, 0x8311c588, 0x176a8d97, 0xfb3dc5f1, 0xfec24625, 0x72ab4b91, 0xb7755da1);
    s := Go(rs, w, s, 46, 0xf40e3585, 0xad0f0274, 0x366b8b91, 0x8845eb06, 0xe88711ae, 0xa14c14b0, 0xd57b94a9);
    s := Go(rs, w, s, 47, 0x106aa070, 0xbd84cdc9, 0x226a0891, 0x8fa515ca, 0xbd7515f1, 0x4172328d, 0xfecf0bc6);
  }

  lemma Rounds48(rs: seq<S.Working>, w: seq<u32>)
    requires IsRun(rs, w) && w[48] == 0xfb3e89cb && w[49] == 0xcc7617db && w[50] == 0xb9e66c34 && w[51] == 0xa9993667
    requires Reached(rs, State(0x4172328d, 0xa14c14b0, 0x72ab4b91, 0x26628815,
                               0xfecf0bc6, 0xd57b94a9, 0xb7755da1, 0xa80f11f0), 48)
    ensures Reached(rs, State(0x886e7a22, 0x7a0508a1, 0xf11bfaa8, 0x05757ceb,
                               0x49231c1e, 0x52f1ccf7, 0x6e5c390c, 0xbd714038), 52)
  {
    C.Constants6();
    hide Reached, IsRun, S.ROUND_CONSTANTS;
    var s := State(0x4172328d, 0xa14c14b0, 0x72ab4b91, 0x26628815,
                   0xfecf0bc6, 0xd57b94a9, 0xb7755da1, 0xa80f11f0);
    s := Go(rs, w, s, 48, 0x19a4c116, 0x0cfcb237, 0x616a1291, 0x04a106b1, 0xd57b54a1, 0x05757ceb, 0xbd714038);
    s := Go(rs, w, s, 49, 0x1e376c08, 0xf3f6d884, 0x017434a9, 0x5d427776, 0xfc4b9481, 0xf11bfaa8, 0x6e5c390c);
    s := Go(rs, w, s, 50, 0x2748774c, 0x86ebd5b1, 0x41737aa9, 0x3e283d54, 0xbcd302ca, 0x7a0508a1, 0x52f1ccf7);
    s := Go(rs, w, s, 51, 0x34b0bcb5, 0x0fa817e8, 0x711578a9, 0x3b47e2a3, 0xef50080c, 0x886e7a22, 0x49231c1e);
  }

  lemma Rounds52(rs: seq<S.Working>, w: seq<u32>)
    requires IsRun(rs, w) && w[52] == 0x84badedd && w[53] == 0xc21462bc && w[54] == 0x1487472c && w[55] == 0xb20f7a99
    requires Reached(rs, State(0x886e7a22, 0x7a0508a1, 0xf11bfaa8, 0x05757ceb,
                               0x49231c1e, 0x52f1ccf7, 0x6e5c390c, 0xbd714038), 52)
    ensures Reached(rs, State(0x38cc9913, 0x3ec45cdb, 0xf5702fdb, 0x101fd28f,
                               0x54cb266b, 0xe50e1b4f, 0x9f4787c3, 0x529e7d00), 56)
  {
    C.Constants6();
    hide Reached, IsRun, S.ROUND_CONSTANTS;
    var s := State(0x886e7a22, 0x7a0508a1, 0xf11bfaa8, 0x05757ceb,
                   0x49231c1e, 0x52f1ccf7, 0x6e5c390c, 0xbd714038);
    s := Go(rs, w, s, 52, 0x391c0cb3, 0xcae757da, 0xf80f7aa0, 0x6b63a737, 0x667d2d16, 0x101fd28f, 0x529e7d00);
    s := Go(rs, w, s, 53, 0x4ed8aa4a, 0x2f35481d, 0x180f5aa3, 0xee7eaa12, 0x40639cf7, 0xf5702fdb, 0x9f4787c3);
    s := Go(rs, w, s, 54, 0x5b9cca4f, 0x433ccfa2, 0x907e7a8b, 0x55cd1720, 0x52261d1c, 0x3ec45cdb, 0xe50e1b4f);
    s := Go(rs, w, s, 55, 0x682e6ff3, 0x381b8def, 0x34545edb, 0xd1653e5c, 0x97966743, 0x38cc9913, 0x54cb266b);
  }

  lemma Rounds56(rs: seq<S.Working>, w: seq<u32>)
    requires IsRun(rs, w) && w[56] == 0xef57b9cd && w[57] == 0xebe6b238 && w[58] == 0x9fe3095e && w[59] == 0x78bc8d4b
    requires Reached(rs, State(0x38cc9913, 0x3ec45cdb, 0xf5702fdb, 0x101fd28f,
                               0x54cb266b, 0xe50e1b4f, 0x9f4787c3, 0x529e7d00), 56)
    ensures Reached(rs, State(0xb6ae8fff, 0xffb70472, 0xc062d46f, 0xfcd1887b,
                               0xb21bad3d, 0x6d83bfc6, 0x7e44008e, 0x9b5e906c), 60)
  {
    C.Constants7();
    hide Reached, IsRun, S.ROUND_CONSTANTS;
    var s := State(0x38cc9913, 0x3ec45cdb, 0xf5702fdb, 0x101fd28f,
                   0x54cb266b, 0xe50e1b4f, 0x9f4787c3, 0x529e7d00);
    s := Go(rs, w, s, 56, 0x748f82ee, 0x34ceacc3, 0x3cc41ddb, 0x05aa8057, 0xcf0e83cb, 0xfcd1887b, 0x9b5e906c);
    s := Go(rs, w, s, 57, 0x78a5636f, 0xfaca6b61, 0x3cc4985b, 0x10b627de, 0x744a0b6b, 0xc062d46f, 0x7e44008e);
    s := Go(rs, w, s, 58, 0x84c87814, 0xd837090c, 0xf8c0987b, 0x0a369fbd, 0x1acf266d, 0xffb70472, 0x6d83bfc6);
    s := Go(rs, w, s, 59, 0x8cc70208, 0x406bf75a, 0xfcf3847b, 0x20a45dbe, 0xfe5c00ae, 0xb6ae8fff, 0xb21bad3d);
  }

  lemma Rounds60(rs: seq<S.Working>, w: seq<u32>)
    requires IsRun(rs, w) && w[60] == 0xa43fcf15 && w[61] == 0x668b2ff8 && w[62] == 0xeeaba2cc && w[63] == 0x12b1edeb
    requires Reached(rs, State(0xb6ae8fff, 0xffb70472, 0xc062d46f, 0xfcd1887b,
                               0xb21bad3d, 0x6d83bfc6, 0x7e44008e, 0x9b5e906c), 60)
    ensures Reached(rs, State(0x506e3058, 0xd39a2165, 0x04d24d6c, 0xb85e2ce9,
                               0x5ef50f24, 0xfb121210, 0x948d25b6, 0x961f4894), 64)
  {
    C.Constants7();
    hide Reached, IsRun, S.ROUND_CONSTANTS;
    var s := State(0xb6ae8fff, 0xffb70472, 0xc062d46f, 0xfcd1887b,
                   0xb21bad3d, 0x6d83bfc6, 0x7e44008e, 0x9b5e906c);
    s := Go(rs, w, s, 60, 0x90befffa, 0x2869e851, 0xf6a6847f, 0x5ca8b318, 0x6c47ad86, 0xb85e2ce9, 0x961f4894);
    s := Go(rs, w, s, 61, 0xa4506ceb, 0x71e9ef2a, 0xbebe0cfb, 0x4f6ef480, 0xfb9bbf56, 0x04d24d6c, 0x948d25b6);
    s := Go(rs, w, s, 62, 0xbef9a3f7, 0x236105da, 0xb4de0ded, 0x2a127e78, 0xb61f889d, 0xd39a2165, 0xfb121210);
    s := Go(rs, w, s, 63, 0xc67178f2, 0x174d83c6, 0x90da2d6d, 0x88fa2277, 0x940d4894, 0x506e3058, 0x5ef50f24);
  }

  // ── The digest ────────────────────────────────────────────────────────────

  const END := State(0x506e3058, 0xd39a2165, 0x04d24d6c, 0xb85e2ce9,
                     0x5ef50f24, 0xfb121210, 0x948d25b6, 0x961f4894)

  lemma RunEnds(rs: seq<S.Working>, w: seq<u32>)
    requires IsSchedule(w) && IsRun(rs, w)
    requires w[0] == 0x61626380 && w[15] == 0x18 && forall t :: 1 <= t < 15 ==> w[t] == 0
    requires Reached(rs, START, 0)
    ensures Reached(rs, END, 64)
  {
    hide IsSchedule, IsRun, Reached;
    Words16(w);
    Words24(w);
    Words32(w);
    Words40(w);
    Words48(w);
    Words56(w);
    Rounds0(rs, w);
    Rounds4(rs, w);
    Rounds8(rs, w);
    Rounds12(rs, w);
    Rounds16(rs, w);
    Rounds20(rs, w);
    Rounds24(rs, w);
    Rounds28(rs, w);
    Rounds32(rs, w);
    Rounds36(rs, w);
    Rounds40(rs, w);
    Rounds44(rs, w);
    Rounds48(rs, w);
    Rounds52(rs, w);
    Rounds56(rs, w);
    Rounds60(rs, w);
  }

  lemma ScheduleIs(w: seq<u32>)
    requires |w| == 64 && forall t :: 0 <= t < 64 ==> w[t] == S.Schedule(Block(), t)
    ensures IsSchedule(w)
  {
    hide Block, S.Schedule, S.SmallSigma0, S.SmallSigma1;
    forall t | 16 <= t < 64
      ensures IsWord(w, t)
    {
      ScheduleStep(t);
    }
  }

  lemma ScheduleStep(t: nat)
    requires t >= 16
    ensures S.Schedule(Block(), t) ==
            (S.SmallSigma1(S.Schedule(Block(), t - 2)) + S.Schedule(Block(), t - 7)
             + S.SmallSigma0(S.Schedule(Block(), t - 15)) + S.Schedule(Block(), t - 16)) % 0x1_0000_0000
  {
    hide S.SmallSigma0, S.SmallSigma1, Block;
  }

  lemma RunIs(rs: seq<S.Working>, w: seq<u32>)
    requires |w| == 64 && forall t :: 0 <= t < 64 ==> w[t] == S.Schedule(Block(), t)
    requires |rs| == 65 && forall t :: 0 <= t <= 64 ==> rs[t] == S.Rounds(S.Load(S.INITIAL_HASH), Block(), t)
    ensures IsRun(rs, w)
  {
    forall t | 0 <= t < 64
      ensures IsRound(rs, w, t)
    {
      RoundStep(t);
    }
    hide S.Rounds, S.Round, S.Schedule, S.ROUND_CONSTANTS, S.INITIAL_HASH;
  }

  lemma RoundStep(t: nat)
    requires t < 64
    ensures S.Rounds(S.Load(S.INITIAL_HASH), Block(), t + 1) ==
            S.Round(S.Rounds(S.Load(S.INITIAL_HASH), Block(), t), S.ROUND_CONSTANTS[t], S.Schedule(Block(), t))
  {
    hide S.Round, S.Schedule, S.ROUND_CONSTANTS, S.INITIAL_HASH, Block;
  }

  lemma AllRoundsAre()
    ensures S.AllRounds(S.INITIAL_HASH, Block()) == Numbers(END)
  {
    hide S.Rounds, S.Schedule, S.Round, Numbers, Block, S.ROUND_CONSTANTS, S.Load, START, END;
    var w := seq(64, t requires 0 <= t < 64 => S.Schedule(Block(), t));
    var rs := seq(65, t requires 0 <= t < 65 => S.Rounds(S.Load(S.INITIAL_HASH), Block(), t));
    FirstWords();
    ScheduleIs(w);
    RunIs(rs, w);
    StartIsInitial();
    NoRounds();
    RunEnds(rs, w);
    TableLength();
  }

  lemma NoRounds()
    ensures S.Rounds(S.Load(S.INITIAL_HASH), Block(), 0) == S.Load(S.INITIAL_HASH)
  {
  }

  lemma TableLength()
    ensures |S.ROUND_CONSTANTS| == 64
  {
  }

  const HASH: seq<u32> :=
    [0xba7816bf, 0x8f01cfea, 0x414140de, 0x5dae2223, 0xb00361a3, 0x96177a9c, 0xb410ff61, 0xf20015ad]

  lemma Summed()
    ensures S.Compress(S.INITIAL_HASH, Block()) == HASH
  {
    AllRoundsAre();
    FlatIsValue(END.a);
    FlatIsValue(END.b);
    FlatIsValue(END.c);
    FlatIsValue(END.d);
    FlatIsValue(END.e);
    FlatIsValue(END.f);
    FlatIsValue(END.g);
    FlatIsValue(END.h);
    hide Value, S.AllRounds, Block;
  }

  const DIGEST: seq<u8> :=
    [0xba, 0x78, 0x16, 0xbf] + [0x8f, 0x01, 0xcf, 0xea] +
    [0x41, 0x41, 0x40, 0xde] + [0x5d, 0xae, 0x22, 0x23] +
    [0xb0, 0x03, 0x61, 0xa3] + [0x96, 0x17, 0x7a, 0x9c] +
    [0xb4, 0x10, 0xff, 0x61] + [0xf2, 0x00, 0x15, 0xad]

  lemma ByteAt(h: seq<u32>, j: nat, k: nat)
    requires |h| == 8 && j < 8 && k < 4
    ensures S.DigestBytes(h)[4 * j + k] == h[j] / Pow2(24 - 8 * k) % 0x100
  {
    hide Pow2;
    assert (4 * j + k) / 4 == j && (4 * j + k) % 4 == k;
  }

  lemma Powers()
    ensures Pow2(24) == 0x100_0000 && Pow2(16) == 0x1_0000 && Pow2(8) == 0x100 && Pow2(0) == 1
  {
    Pow2Values();
    assert Pow2(20) == 0x10_0000;
  }

  lemma BytesOfWord(b0: u8, b1: u8, b2: u8, b3: u8)
    ensures var v := b0 * 0x100_0000 + b1 * 0x1_0000 + b2 * 0x100 + b3;
            v / 0x100_0000 == b0 && v / 0x1_0000 % 0x100 == b1 && v / 0x100 % 0x100 == b2 && v % 0x100 == b3
  {
    var v := b0 * 0x100_0000 + b1 * 0x1_0000 + b2 * 0x100 + b3;
    assert v / 0x100 == b0 * 0x1_0000 + b1 * 0x100 + b2;
    assert v / 0x1_0000 == b0 * 0x100 + b1;
  }

  /** Word j of a hash, in bytes. */
  lemma FourBytes(h: seq<u32>, j: nat, b0: u8, b1: u8, b2: u8, b3: u8)
    requires |h| == 8 && j < 8 && h[j] == b0 * 0x100_0000 + b1 * 0x1_0000 + b2 * 0x100 + b3
    ensures S.DigestBytes(h)[4 * j..4 * j + 4] == [b0, b1, b2, b3]
  {
    Powers();
    BytesOfWord(b0, b1, b2, b3);
    hide Pow2, S.DigestBytes;
    ByteAt(h, j, 0);
    ByteAt(h, j, 1);
    ByteAt(h, j, 2);
    ByteAt(h, j, 3);
  }

  lemma EightWords(d: seq<u8>)
    requires |d| == 32
    ensures d == d[0..4] + d[4..8] + d[8..12] + d[12..16] + d[16..20] + d[20..24] + d[24..28] + d[28..32]
  {
  }

  lemma BytesOfHash()
    ensures S.DigestBytes(HASH) == DIGEST
  {
    hide S.DigestBytes;
    FourBytes(HASH, 0, 0xba, 0x78, 0x16, 0xbf);
    FourBytes(HASH, 1, 0x8f, 0x01, 0xcf, 0xea);
    FourBytes(HASH, 2, 0x41, 0x41, 0x40, 0xde);
    FourBytes(HASH, 3, 0x5d, 0xae, 0x22, 0x23);
    FourBytes(HASH, 4, 0xb0, 0x03, 0x61, 0xa3);
    FourBytes(HASH, 5, 0x96, 0x17, 0x7a, 0x9c);
    FourBytes(HASH, 6, 0xb4, 0x10, 0xff, 0x61);
    FourBytes(HASH, 7, 0xf2, 0x00, 0x15, 0xad);
    hide HASH;
    EightWords(S.DigestBytes(HASH));
  }

  /** SHA-256("abc"), as published. */
  lemma AbcDigest()
    ensures S.Digest(ABC) == DIGEST
  {
    BlockIsPadded();
    assert S.PaddedBlocks(3) == 1;
    hide S.Padded, Block, S.Compress, S.DigestBytes, S.INITIAL_HASH, HASH, DIGEST;
    assert Block()[0..64] == Block();
    assert S.Blocks(S.INITIAL_HASH, Block(), 1) == S.Compress(S.INITIAL_HASH, Block());
    Summed();
    BytesOfHash();
  }
}
