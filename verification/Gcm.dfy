/** AES-GCM with 12-byte nonces and no additional data (NIST SP 800-38D, section 7), over an
  * arbitrary block cipher: sealing, opening and the fail-closed buffer.
  */
module Gcm {
  import opened Ghash
  import opened Words

  const NONCE_LEN := 12
  const TAG_LEN := 16

  /** The keyed block cipher. */
  type Cipher = Block -> Block

  type Nonce = n: seq<u8> | |n| == NONCE_LEN witness seq(NONCE_LEN, _ => 0)

  /** Nonce followed by a 32-bit big-endian counter. */
  function CounterBlock(nonce: Nonce, c: u32): Block {
    nonce + Be4(c)
  }

  /** Counter used for block i of the text: 2, 3, ... modulo 2^32. */
  function TextCounter(i: nat): u32 {
    (i + 2) % 0x1_0000_0000
  }

  function KeystreamByte(aes: Cipher, nonce: Nonce, k: nat): u8 {
    aes(CounterBlock(nonce, TextCounter(k / 16)))[k % 16]
  }

  /** Counter-mode encryption, its own inverse. */
  function Crypted(aes: Cipher, nonce: Nonce, text: seq<u8>): (out: seq<u8>)
    ensures |out| == |text|
  {
    seq(|text|, k requires 0 <= k < |text| => XorByte(text[k], KeystreamByte(aes, nonce, k)))
  }

  lemma CryptIsInvolutive(aes: Cipher, nonce: Nonce, text: seq<u8>)
    ensures Crypted(aes, nonce, Crypted(aes, nonce, text)) == text
  {
    forall k | 0 <= k < |text|
      ensures Crypted(aes, nonce, Crypted(aes, nonce, text))[k] == text[k]
    {
      BitXorCancel(text[k], KeystreamByte(aes, nonce, k));
    }
  }

  function Tag(aes: Cipher, nonce: Nonce, ct: seq<u8>): Block {
    XorBlock(GhashOf(aes(ZeroBlock()), ct), aes(CounterBlock(nonce, 1)))
  }

  /** Ciphertext followed by its tag. */
  function Sealed(aes: Cipher, nonce: Nonce, plain: seq<u8>): (s: seq<u8>)
    ensures |s| == |plain| + TAG_LEN
  {
    var ct := Crypted(aes, nonce, plain);
    ct + Tag(aes, nonce, ct)
  }

  function Opened(aes: Cipher, nonce: Nonce, s: seq<u8>): Option<seq<u8>> {
    if |s| < TAG_LEN then None
    else
      var n := |s| - TAG_LEN;
      if s[n..] != Tag(aes, nonce, s[..n]) then None else Some(Crypted(aes, nonce, s[..n]))
  }

  /** Opening accepts exactly the sealings, and returns what was sealed. */
  lemma OpenInvertsSeal(aes: Cipher, nonce: Nonce, s: seq<u8>, plain: seq<u8>)
    ensures Opened(aes, nonce, s) == Some(plain) <==> s == Sealed(aes, nonce, plain)
  {
    hide Tag, Crypted;
    CryptIsInvolutive(aes, nonce, plain);
    if |s| >= TAG_LEN {
      var n := |s| - TAG_LEN;
      CryptIsInvolutive(aes, nonce, s[..n]);
      assert s == s[..n] + s[n..];
    }
    var whole := Sealed(aes, nonce, plain);
    assert whole[..|plain|] == Crypted(aes, nonce, plain);
    assert whole[|plain|..] == Tag(aes, nonce, Crypted(aes, nonce, plain));
  }

  // ── The loops ─────────────────────────────────────────────────────────────

  /** Reads the counter bytes, increments modulo 2^32 and writes them back. */
  lemma CounterReadsBack(nonce: Nonce, c: u32)
    ensures var b := CounterBlock(nonce, c);
            b[12] as int * 0x100_0000 + b[13] as int * 0x1_0000 + b[14] as int * 0x100 + b[15] == c
  {
    assert CounterBlock(nonce, c)[12..] == Be4(c);
    assert c / 0x1_0000 == c / 0x100 / 0x100;
    assert c / 0x100_0000 == c / 0x1_0000 / 0x100;
  }

  lemma CounterTail(nonce: Nonce, v: u32, block: Block)
    requires block[..12] == nonce && block[12..] == Be4(v)
    ensures block == CounterBlock(nonce, v)
  {
    assert block == block[..12] + block[12..];
  }

  method NextCounter(ctr: array<u8>, ghost nonce: Nonce, ghost c: u32)
    requires ctr.Length == 16 && ctr[..] == CounterBlock(nonce, c)
    modifies ctr
    ensures ctr[..] == CounterBlock(nonce, (c + 1) % 0x1_0000_0000)
  {
    CounterReadsBack(nonce, c);
    assert ctr[..12] == nonce;
    assert forall i :: 0 <= i < 16 ==> ctr[i] == ctr[..][i];
    hide CounterBlock, Be4;
    var v := (ctr[12] as int * 0x100_0000 + ctr[13] as int * 0x1_0000 + ctr[14] as int * 0x100 + ctr[15] as int + 1)
             % 0x1_0000_0000;
    assert v == (c + 1) % 0x1_0000_0000;
    PutTail(ctr, v);
    CounterTail(nonce, v, ctr[..]);
  }

  /** The low 32 bits of a counter block. */
  method PutTail(ctr: array<u8>, v: u32)
    requires ctr.Length == 16
    modifies ctr
    ensures ctr[..12] == old(ctr[..12]) && ctr[12..] == Be4(v)
  {
    ctr[12] := v / 0x100_0000;
    ctr[13] := v / 0x1_0000 % 0x100;
    ctr[14] := v / 0x100 % 0x100;
    ctr[15] := v % 0x100;
  }

  method StartCounter(nonce: Nonce) returns (ctr: array<u8>)
    ensures fresh(ctr) && ctr.Length == 16 && ctr[..] == CounterBlock(nonce, 1)
  {
    ctr := new u8[16](_ => 0);
    for i := 0 to NONCE_LEN
      invariant forall k :: 0 <= k < i ==> ctr[k] == nonce[k]
      invariant forall k :: i <= k < 16 ==> ctr[k] == 0
    {
      ctr[i] := nonce[i];
    }
    ctr[15] := 1;
    assert ctr[..12] == nonce;
    assert ctr[..] == ctr[..12] + ctr[12..];
  }

  method Crypt(aes: Cipher, nonce: Nonce, text: seq<u8>, out: array<u8>)
    requires |text| <= out.Length
    modifies out
    ensures out[..|text|] == Crypted(aes, nonce, text)
    ensures out[|text|..] == old(out[|text|..])
  {
    hide XorByte, CounterBlock;
    var ctr := StartCounter(nonce);
    var off := 0;
    ghost var i := 0;
    while off < |text|
      invariant off == if 16 * i < |text| then 16 * i else |text|
      invariant ctr.Length == 16 && ctr != out
      invariant ctr[..] == CounterBlock(nonce, (i + 1) % 0x1_0000_0000)
      invariant forall k :: 0 <= k < off ==> out[k] == XorByte(text[k], KeystreamByte(aes, nonce, k))
      invariant forall k :: |text| <= k < out.Length ==> out[k] == old(out[k])
    {
      NextCounter(ctr, nonce, (i + 1) % 0x1_0000_0000);
      var n := if |text| - off > 16 then 16 else |text| - off;
      XorChunk(aes, nonce, text, out, aes(ctr[..]), i, off, n);
      off := off + n;
      i := i + 1;
    }
  }

  method XorChunk(ghost aes: Cipher, ghost nonce: Nonce, text: seq<u8>, out: array<u8>,
                  ks: Block, ghost i: nat, off: nat, n: nat)
    requires off == 16 * i && n <= 16 && off + n <= |text| <= out.Length
    requires ks == aes(CounterBlock(nonce, TextCounter(i)))
    modifies out
    ensures forall k :: off <= k < off + n ==> out[k] == XorByte(text[k], KeystreamByte(aes, nonce, k))
    ensures forall k :: 0 <= k < out.Length && (k < off || k >= off + n) ==> out[k] == old(out[k])
  {
    hide XorByte, CounterBlock;
    for j := 0 to n
      invariant forall k :: off <= k < off + j ==> out[k] == XorByte(text[k], KeystreamByte(aes, nonce, k))
      invariant forall k :: 0 <= k < out.Length && (k < off || k >= off + j) ==> out[k] == old(out[k])
    {
      assert (off + j) / 16 == i && (off + j) % 16 == j;
      out[off + j] := XorByte(text[off + j], ks[j]);
    }
  }

  method ComputeTag(aes: Cipher, nonce: Nonce, ct: seq<u8>) returns (tag: Block)
    ensures tag == Tag(aes, nonce, ct)
  {
    hide GhashOf;
    var s := Ghash.Ghash(aes(ZeroBlock()), ct);
    var j0 := StartCounter(nonce);
    tag := XorBlock(s, aes(j0[..]));
  }

  method PutTag(tag: Block, m: nat, out: array<u8>)
    requires m + TAG_LEN <= out.Length
    modifies out
    ensures out[..] == old(out[..m]) + tag + old(out[m + TAG_LEN..])
  {
    for i := 0 to TAG_LEN
      invariant forall k :: 0 <= k < i ==> out[m + k] == tag[k]
      invariant forall k :: 0 <= k < m || m + TAG_LEN <= k < out.Length ==> out[k] == old(out[k])
    {
      out[m + i] := tag[i];
    }
  }

  lemma SealedLayout(before: seq<u8>, crypted: seq<u8>, m: nat, tag: Block)
    requires m + TAG_LEN <= |crypted| == |before| && crypted[m..] == before[m..]
    ensures var after := crypted[..m] + tag + crypted[m + TAG_LEN..];
            after[..m + TAG_LEN] == crypted[..m] + tag && after[m + TAG_LEN..] == before[m + TAG_LEN..]
  {
    assert crypted[m..][TAG_LEN..] == before[m..][TAG_LEN..];
  }

  /** Bytes written, or 0 when the key is unset or the buffer too small. */
  method Seal(aes: Option<Cipher>, nonce: Nonce, plain: seq<u8>, out: array<u8>) returns (n: nat)
    modifies out
    ensures n == if aes.None? || out.Length < |plain| + TAG_LEN then 0 else |plain| + TAG_LEN
    ensures n == 0 ==> out[..] == old(out[..])
    ensures n > 0 ==> out[..n] == Sealed(aes.value, nonce, plain) && out[n..] == old(out[n..])
  {
    if aes.None? || out.Length < |plain| + TAG_LEN {
      return 0;
    }
    hide Crypted, Tag;
    var m := |plain|;
    Crypt(aes.value, nonce, plain, out);
    ghost var crypted := out[..];
    var tag := ComputeTag(aes.value, nonce, out[..m]);
    PutTag(tag, m, out);
    SealedLayout(old(out[..]), crypted, m, tag);
    return m + TAG_LEN;
  }

  /** Accumulated difference of two tags is zero only if they are equal. */
  method TagEqual(a: Block, b: Block) returns (same: bool)
    ensures same == (a == b)
  {
    hide BitXor;
    same := true;
    for i := 0 to TAG_LEN
      invariant same <==> forall k :: 0 <= k < i ==> a[k] == b[k]
    {
      BitXorIsZero(a[i], b[i]);
      if XorByte(a[i], b[i]) != 0 {
        same := false;
      }
    }
  }

  method Wipe(out: array<u8>)
    modifies out
    ensures forall k :: 0 <= k < out.Length ==> out[k] == 0
  {
    for i := 0 to out.Length
      invariant forall k :: 0 <= k < i ==> out[k] == 0
    {
      out[i] := 0;
    }
  }

  /** The tag decides; a wrong one wipes the whole buffer. */
  method CheckThenCrypt(aes: Cipher, nonce: Nonce, body: seq<u8>, tag: Block, out: array<u8>) returns (ok: bool)
    requires |body| <= out.Length
    modifies out
    ensures ok <==> tag == Tag(aes, nonce, body)
    ensures ok ==> out[..|body|] == Crypted(aes, nonce, body)
    ensures !ok ==> forall k :: 0 <= k < out.Length ==> out[k] == 0
  {
    hide Crypted, Tag;
    var want := ComputeTag(aes, nonce, body);
    ok := TagEqual(want, tag);
    if ok {
      Crypt(aes, nonce, body, out);
    } else {
      Wipe(out);
    }
  }

  /** Opens into out. A bad tag wipes the whole buffer; the argument checks before it leave
    * the buffer as it was. */
  method Open(aes: Option<Cipher>, nonce: Nonce, s: seq<u8>, out: array<u8>) returns (ok: bool, plainLen: nat)
    modifies out
    ensures ok <==> aes.Some? && Opened(aes.value, nonce, s).Some? && |s| - TAG_LEN <= out.Length
    ensures ok ==> plainLen == |s| - TAG_LEN && out[..plainLen] == Opened(aes.value, nonce, s).value
    ensures !ok ==> plainLen == 0
    ensures !ok && (aes.None? || |s| < TAG_LEN || out.Length < |s| - TAG_LEN) ==> out[..] == old(out[..])
    ensures !ok && !(aes.None? || |s| < TAG_LEN || out.Length < |s| - TAG_LEN) ==>
            forall k :: 0 <= k < out.Length ==> out[k] == 0
  {
    if aes.None? || |s| < TAG_LEN || out.Length < |s| - TAG_LEN {
      return false, 0;
    }
    hide Crypted, Tag;
    var bodyLen := |s| - TAG_LEN;
    ok := CheckThenCrypt(aes.value, nonce, s[..bodyLen], s[bodyLen..], out);
    plainLen := if ok then bodyLen else 0;
  }
}
