/** The core-head frame codec: magic, type, sequence, fragment pair, length, payload and
  * a CRC-16 trailer.
  */
module LinkCodec {
  import opened BinaryField
  import opened BitStream
  import opened Crc16
  import opened Words

  const MAGIC: u8 := 0x4C
  const HEADER_SIZE := 8
  const OVERHEAD := 10
  const MAX_PAYLOAD := 1024
  const MAX_FRAME := 1034

  const TYPE_OLED: u8 := 0x02
  const TYPE_CAMCTL: u8 := 0x03
  const TYPE_OTA: u8 := 0x05
  const TYPE_PAIR_SHOW: u8 := 0x06
  const TYPE_PAIR_DONE: u8 := 0x07
  const TYPE_EXPR: u8 := 0x08
  const TYPE_WIFI_CREDS: u8 := 0x09
  const TYPE_JPEG: u8 := 0x10
  const TYPE_HB: u8 := 0x20
  const TYPE_HB_ACK: u8 := 0x21
  const TYPE_ACK: u8 := 0x22

  predicate IsValidPayloadLen(t: u8, len: nat) {
    if t == TYPE_OLED || t == TYPE_CAMCTL || t == TYPE_EXPR then len == 1
    else if t == TYPE_OTA then 1 <= len <= 128
    else if t == TYPE_WIFI_CREDS then 30 <= len <= 126
    else if t == TYPE_PAIR_SHOW then len == 8
    else if t == TYPE_PAIR_DONE then len == 0
    else if t == TYPE_JPEG then len <= MAX_PAYLOAD
    else if t == TYPE_HB then len == 10
    else if t == TYPE_HB_ACK then len == 5
    else t == TYPE_ACK && len == 2
  }

  datatype Frame = Frame(kind: u8, number: u16, fragIdx: u8, fragTotal: u8, payload: seq<u8>)

  /** The frames the encoder accepts. */
  predicate Encodable(f: Frame) {
    IsValidPayloadLen(f.kind, |f.payload|) && f.fragIdx < f.fragTotal
  }

  function Head(f: Frame): (h: seq<u8>)
    requires Encodable(f)
    ensures |h| == HEADER_SIZE + |f.payload|
    ensures forall i :: 0 <= i < |f.payload| ==> h[HEADER_SIZE + i] == f.payload[i]
  {
    [MAGIC, f.kind] + Be2(f.number) + [f.fragIdx, f.fragTotal] + Be2(|f.payload|) + f.payload
  }

  /** The bytes of a frame on the wire. */
  function Wire(f: Frame): (b: seq<u8>)
    requires Encodable(f)
    ensures |b| == OVERHEAD + |f.payload| <= MAX_FRAME
  {
    Head(f) + Be2(Crc(Head(f)))
  }

  function DecodeFrame(buf: seq<u8>): Option<Frame> {
    if |buf| < OVERHEAD || buf[0] != MAGIC then None
    else
      var payloadLen := FromBe2(buf[6..8]);
      if |buf| != OVERHEAD + payloadLen then None
      else if buf[5] == 0 || buf[4] >= buf[5] then None
      else if !IsValidPayloadLen(buf[1], payloadLen) then None
      else if Crc(buf[..HEADER_SIZE + payloadLen]) != FromBe2(buf[HEADER_SIZE + payloadLen..]) then None
      else Some(Frame(buf[1], FromBe2(buf[2..4]), buf[4], buf[5], buf[HEADER_SIZE..HEADER_SIZE + payloadLen]))
  }

  lemma HeadFields(f: Frame)
    requires Encodable(f)
    ensures var h := Head(f);
            && h[0] == MAGIC && h[1] == f.kind && h[2] == f.number / 256 && h[3] == f.number % 256
            && h[4] == f.fragIdx && h[5] == f.fragTotal && h[6] == |f.payload| / 256 && h[7] == |f.payload| % 256
  {
    hide Crc, IsValidPayloadLen;
  }

  method PutFields(f: Frame, out: array<u8>)
    requires Encodable(f) && out.Length >= HEADER_SIZE
    modifies out
    ensures forall k :: 0 <= k < HEADER_SIZE ==> out[k] == Head(f)[k]
    ensures forall k :: HEADER_SIZE <= k < out.Length ==> out[k] == old(out[k])
  {
    var len := |f.payload|;
    HeadFields(f);
    assert len < 0x1_0000;
    hide Crc, IsValidPayloadLen, Head;
    out[0], out[1] := MAGIC, f.kind;
    out[2], out[3] := f.number / 256, f.number % 256;
    out[4], out[5] := f.fragIdx, f.fragTotal;
    out[6], out[7] := len / 256, len % 256;
  }

  /** Header fields and payload. */
  method PutHead(f: Frame, out: array<u8>)
    requires Encodable(f) && out.Length >= HEADER_SIZE + |f.payload|
    modifies out
    ensures out[..HEADER_SIZE + |f.payload|] == Head(f)
    ensures forall k :: HEADER_SIZE + |f.payload| <= k < out.Length ==> out[k] == old(out[k])
  {
    var len := |f.payload|;
    ghost var head := Head(f);
    assert |head| == HEADER_SIZE + len && forall k :: 0 <= k < len ==> head[HEADER_SIZE + k] == f.payload[k];
    PutFields(f, out);
    hide Head, Encodable;
    for i := 0 to len
      invariant forall k :: 0 <= k < HEADER_SIZE + i ==> out[k] == head[k]
      invariant forall k :: HEADER_SIZE + len <= k < out.Length ==> out[k] == old(out[k])
    {
      out[HEADER_SIZE + i] := f.payload[i];
    }
  }

  /** Writes one frame; 0 and no write on any error. */
  method EncodeFrame(f: Frame, out: array<u8>) returns (n: nat)
    requires |f.payload| < 0x1_0000
    modifies out
    ensures n == 0 <==> !Encodable(f) || out.Length < OVERHEAD + |f.payload|
    ensures n == 0 ==> out[..] == old(out[..])
    ensures n > 0 ==> n == OVERHEAD + |f.payload| && out[..] == Wire(f) + old(out[n..])
  {
    hide Crc;
    var len := |f.payload|;
    if !IsValidPayloadLen(f.kind, len) || f.fragTotal == 0 || f.fragIdx >= f.fragTotal {
      return 0;
    }
    var total := OVERHEAD + len;
    if out.Length < total {
      return 0;
    }
    PutHead(f, out);
    ghost var head := Head(f);
    hide Wire, Head, IsValidPayloadLen;
    var crc := Crc16Ccitt(out[..HEADER_SIZE + len]);
    out[HEADER_SIZE + len] := crc / 256;
    out[HEADER_SIZE + len + 1] := crc % 256;
    assert out[..HEADER_SIZE + len] == head;
    AssembleFrame(out[..], old(out[..]), f);
    return total;
  }

  lemma AssembleFrame(after: seq<u8>, before: seq<u8>, f: Frame)
    requires Encodable(f) && |after| == |before| >= OVERHEAD + |f.payload|
    requires after[..HEADER_SIZE + |f.payload|] == Head(f)
    requires after[HEADER_SIZE + |f.payload|] == Crc(Head(f)) / 256
    requires after[HEADER_SIZE + |f.payload| + 1] == Crc(Head(f)) % 256
    requires forall k :: OVERHEAD + |f.payload| <= k < |after| ==> after[k] == before[k]
    ensures after == Wire(f) + before[OVERHEAD + |f.payload|..]
  {
    hide Crc, Head, IsValidPayloadLen;
    var n := HEADER_SIZE + |f.payload|;
    assert after == after[..n] + [after[n], after[n + 1]] + after[n + 2..];
    assert after[n + 2..] == before[n + 2..];
  }

  lemma U16RoundTrip(v: u16)
    ensures FromBe2(Be2(v)) == v
  {
  }

  /** Every frame the encoder accepts decodes to itself. */
  lemma DecodeInvertsEncode(f: Frame)
    requires Encodable(f)
    ensures DecodeFrame(Wire(f)) == Some(f)
  {
    hide Crc, IsValidPayloadLen;
    var w, h := Wire(f), Head(f);
    var n := |f.payload|;
    U16RoundTrip(n);
    U16RoundTrip(f.number);
    U16RoundTrip(Crc(h));
    assert w[6..8] == Be2(n) && w[2..4] == Be2(f.number);
    assert w[..HEADER_SIZE + n] == h && w[HEADER_SIZE + n..] == Be2(Crc(h));
    assert w[HEADER_SIZE..HEADER_SIZE + n] == f.payload;
  }

  /** Only the encoder's own output decodes. */
  lemma EncodeInvertsDecode(buf: seq<u8>)
    requires DecodeFrame(buf).Some?
    ensures Encodable(DecodeFrame(buf).value)
    ensures Wire(DecodeFrame(buf).value) == buf
  {
    hide Crc, IsValidPayloadLen;
    var f := DecodeFrame(buf).value;
    var n := |f.payload|;
    assert Be2(FromBe2(buf[2..4])) == buf[2..4];
    assert Be2(FromBe2(buf[6..8])) == buf[6..8];
    assert buf[..HEADER_SIZE + n] == Head(f);
    assert Be2(FromBe2(buf[HEADER_SIZE + n..])) == buf[HEADER_SIZE + n..];
    assert buf == buf[..HEADER_SIZE + n] + buf[HEADER_SIZE + n..];
  }

  // ── Error detection ───────────────────────────────────────────────────────

  lemma AcceptedRunsToZero(buf: seq<u8>)
    requires DecodeFrame(buf).Some?
    ensures FeedBits(ToBits(16, INITIAL), Stream(buf)) == Zero(16)
  {
    EncodeInvertsDecode(buf);
    var h := Head(DecodeFrame(buf).value);
    hide Crc, FeedBits, DecodeFrame, Head;
    TrailerClears(h, Crc(h));
  }

  /** The two streams agree outside sixteen consecutive bits starting at p. */
  predicate DifferInBurst(a: seq<u8>, b: seq<u8>, p: nat) {
    |a| == |b|
    && (forall k :: 0 <= k < 8 * |a| && (k < p || k >= p + 16) ==> Stream(a)[k] == Stream(b)[k])
  }

  /** Any burst of at most sixteen wrong bits in an accepted frame, trailer included,
    * makes the decoder reject. */
  lemma BurstIsRejected(buf: seq<u8>, bad: seq<u8>, p: nat)
    requires DecodeFrame(buf).Some?
    requires DifferInBurst(buf, bad, p) && bad != buf
    ensures DecodeFrame(bad) == None
  {
    if DecodeFrame(bad).Some? {
      DifferenceIsBurst(buf, bad, p);
      hide *;
      AcceptedRunsToZero(buf);
      AcceptedRunsToZero(bad);
      var s, t := Stream(buf), Stream(bad);
      FeedDifference(ToBits(16, INITIAL), ToBits(16, INITIAL), s, t);
      SelfXor(ToBits(16, INITIAL));
      SelfXor(Zero(16));
      StreamsDiffer(buf, bad);
      BurstShape(Xor(s, t), p);
      assert false;
    }
  }

  lemma SelfXor(a: seq<bool>)
    ensures Xor(a, a) == Zero(|a|)
  {
  }

  lemma DifferenceIsBurst(a: seq<u8>, b: seq<u8>, p: nat)
    requires DifferInBurst(a, b, p)
    ensures |Stream(a)| == |Stream(b)| == 8 * |a|
    ensures forall k :: 0 <= k < 8 * |a| && (k < p || k >= p + 16) ==> !Xor(Stream(a), Stream(b))[k]
  {
    hide Stream;
  }

  lemma StreamsDiffer(a: seq<u8>, b: seq<u8>)
    requires |a| == |b| && a != b
    ensures Xor(Stream(a), Stream(b)) != Zero(8 * |a|)
  {
    if Stream(a) == Stream(b) {
      BytesOfStream(a);
      BytesOfStream(b);
    }
    var k :| 0 <= k < 8 * |a| && Stream(a)[k] != Stream(b)[k];
    assert Xor(Stream(a), Stream(b))[k];
  }

  lemma BurstShape(e: seq<bool>, p: nat)
    requires e != Zero(|e|)
    requires forall k :: 0 <= k < |e| && (k < p || k >= p + 16) ==> !e[k]
    ensures FeedBits(Zero(16), e) != Zero(16)
  {
    hide *;
    var k := FirstSet(e);
    assert p <= k < p + 16;
    var hi := if p + 16 < |e| then p + 16 else |e|;
    var burst := e[p..hi];
    assert burst[k - p];
    NotZero(burst, k - p);
    BurstSplit(e, p, hi);
    BurstIsVisible(p, burst, |e| - hi);
  }

  lemma FirstSet(e: seq<bool>) returns (k: nat)
    requires e != Zero(|e|)
    ensures k < |e| && e[k]
  {
    k :| 0 <= k < |e| && e[k];
  }

  lemma NotZero(e: seq<bool>, k: nat)
    requires k < |e| && e[k]
    ensures e != Zero(|e|)
  {
    assert Zero(|e|)[k] == false;
  }

  lemma BurstSplit(e: seq<bool>, p: nat, hi: nat)
    requires p <= hi <= |e|
    requires forall k :: 0 <= k < |e| && (k < p || k >= hi) ==> !e[k]
    ensures e == Zero(p) + e[p..hi] + Zero(|e| - hi)
  {
    hide FeedBits, ToBits;
  }

  /** In particular one wrong byte, or two adjacent ones. */
  lemma AdjacentBytesAreRejected(buf: seq<u8>, bad: seq<u8>, i: nat)
    requires DecodeFrame(buf).Some? && |bad| == |buf| && bad != buf
    requires forall k :: 0 <= k < |buf| && k != i && k != i + 1 ==> bad[k] == buf[k]
    ensures DecodeFrame(bad) == None
  {
    hide DecodeFrame, Digit;
    forall k | 0 <= k < 8 * |buf| && (k < 8 * i || k >= 8 * i + 16)
      ensures Stream(buf)[k] == Stream(bad)[k]
    {
      assert k / 8 != i && k / 8 != i + 1;
    }
    BurstIsRejected(buf, bad, 8 * i);
  }

  // ── The layout ────────────────────────────────────────────────────────────

  /** Shortest and longest payload of each frame type. */
  const LENGTHS: map<u8, (nat, nat)> :=
    map[0x02 := (1, 1), 0x03 := (1, 1), 0x05 := (1, 128), 0x06 := (8, 8), 0x07 := (0, 0), 0x08 := (1, 1),
        0x09 := (30, 126), 0x10 := (0, 1024), 0x20 := (10, 10), 0x21 := (5, 5), 0x22 := (2, 2)]

  lemma LengthsAre(t: u8, len: nat)
    ensures IsValidPayloadLen(t, len) <==> t in LENGTHS && LENGTHS[t].0 <= len <= LENGTHS[t].1
  {
  }

  /** Where everything lies in a frame on the wire, numbers most significant byte first. */
  lemma WireLayout(f: Frame)
    requires Encodable(f)
    ensures var w, n := Wire(f), |f.payload|;
            && |w| == 10 + n && w[0] == 0x4C && w[1] == f.kind
            && w[2] as int * 256 + w[3] == f.number && w[4] == f.fragIdx && w[5] == f.fragTotal
            && w[6] as int * 256 + w[7] == n && w[8..8 + n] == f.payload
            && w[8 + n] as int * 256 + w[9 + n] == Crc(w[..8 + n])
  {
    HeadFields(f);
    hide Crc, IsValidPayloadLen;
    assert Wire(f)[..8 + |f.payload|] == Head(f);
    assert Wire(f)[8..8 + |f.payload|] == Head(f)[8..] == f.payload;
  }
}
