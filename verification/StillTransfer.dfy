/** One camera still, end to end: sliced and framed by the head, cut anywhere by TCP,
  * framed and reassembled by the core.
  */
module StillTransfer {
  import opened LinkCodec
  import opened StreamFramer
  import opened Words

  function MaxPayloadFor(mtu: nat): nat {
    if mtu <= OVERHEAD then 0
    else if mtu - OVERHEAD > MAX_PAYLOAD then MAX_PAYLOAD else mtu - OVERHEAD
  }

  function FragCount(payloadLen: nat, mtu: nat): nat {
    var per := MaxPayloadFor(mtu);
    if per == 0 then 0
    else
      var n := payloadLen / per + (if payloadLen % per != 0 then 1 else 0);
      if n == 0 then 1 else n
  }

  function PerFramePayload(): nat {
    MaxPayloadFor(MAX_FRAME)
  }

  function FragTotalFor(totalLen: nat): nat {
    FragCount(totalLen, MAX_FRAME)
  }

  /** Offset and length of one fragment, or none. */
  function FragSlice(totalLen: nat, perFrame: nat, idx: u8, total: u8): Option<(nat, nat)> {
    if perFrame == 0 || total == 0 || idx >= total then None
    else if totalLen == 0 then (if total == 1 && idx == 0 then Some((0, 0)) else None)
    else
      var off := idx * perFrame;
      if off >= totalLen then None
      else Some((off, if totalLen - off > perFrame then perFrame else totalLen - off))
  }

  predicate Sendable(msg: seq<u8>) {
    FragTotalFor(|msg|) <= 255
  }

  /** Bytes the first n fragments cover. */
  function Covered(len: nat, n: nat): nat {
    if n * MAX_PAYLOAD < len then n * MAX_PAYLOAD else len
  }

  /** Fragment idx of a still whose transmission starts at sequence number seq0. */
  function Fragment(msg: seq<u8>, seq0: u16, idx: nat): Frame
    requires Sendable(msg) && idx < FragTotalFor(|msg|)
  {
    Frame(TYPE_JPEG, Count16(seq0, idx), idx, FragTotalFor(|msg|),
          msg[Covered(|msg|, idx)..Covered(|msg|, idx + 1)])
  }

  lemma FragmentIsEncodable(msg: seq<u8>, seq0: u16, idx: nat)
    requires Sendable(msg) && idx < FragTotalFor(|msg|)
    ensures Encodable(Fragment(msg, seq0, idx))
    ensures FragSlice(|msg|, PerFramePayload(), idx, FragTotalFor(|msg|))
         == Some((Covered(|msg|, idx), |Fragment(msg, seq0, idx).payload|))
  {
  }

  /** Fragment by fragment: counted on from seq0, 1024 bytes each, the last one what is left; as many
    * as that takes, and one for an empty still. */
  lemma FragmentIs(msg: seq<u8>, seq0: u16, idx: nat)
    requires Sendable(msg) && idx < FragTotalFor(|msg|)
    ensures var f := Fragment(msg, seq0, idx);
            && f.kind == 0x10 && f.number == (seq0 + idx) % 0x1_0000 && f.fragIdx == idx
            && (f.fragTotal - 1) * 1024 < |msg| + (if msg == [] then 1 else 0) && |msg| <= f.fragTotal * 1024
            && f.payload == if idx + 1 < f.fragTotal then msg[1024 * idx..1024 * idx + 1024] else msg[1024 * idx..]
  {
  }

  /** The bytes of fragments idx.. on the wire. */
  function WireFrom(msg: seq<u8>, seq0: u16, idx: nat): seq<u8>
    requires Sendable(msg) && idx <= FragTotalFor(|msg|)
    decreases FragTotalFor(|msg|) - idx
  {
    if idx == FragTotalFor(|msg|) then []
    else
      FragmentIsEncodable(msg, seq0, idx);
      Wire(Fragment(msg, seq0, idx)) + WireFrom(msg, seq0, idx + 1)
  }

  lemma WireStep(msg: seq<u8>, seq0: u16, idx: nat)
    requires Sendable(msg) && idx < FragTotalFor(|msg|)
    ensures Encodable(Fragment(msg, seq0, idx)) && |Fragment(msg, seq0, idx).payload| <= MAX_PAYLOAD
    ensures WireFrom(msg, seq0, idx) == Wire(Fragment(msg, seq0, idx)) + WireFrom(msg, seq0, idx + 1)
  {
    FragmentIsEncodable(msg, seq0, idx);
    hide Wire, Encodable, Fragment, FragTotalFor;
  }

  lemma WireEnd(msg: seq<u8>, seq0: u16)
    requires Sendable(msg)
    ensures WireFrom(msg, seq0, FragTotalFor(|msg|)) == []
  {
  }

  /** The send loop of the head, writing to an open connection. */
  method SendStill(msg: seq<u8>, txSeq: u16) returns (ok: bool, wire: seq<u8>, txSeq': u16)
    ensures ok == Sendable(msg)
    ensures ok ==> wire == WireFrom(msg, txSeq, 0) && txSeq' == Count16(txSeq, FragTotalFor(|msg|))
    ensures !ok ==> wire == [] && txSeq' == txSeq
  {
    wire, txSeq' := [], txSeq;
    var total := FragTotalFor(|msg|);
    if total == 0 || total > 255 {
      return false, wire, txSeq';
    }
    wire, txSeq' := SendFragments(msg, txSeq, total);
    ok := true;
  }

  lemma Regroup(a: seq<u8>, b: seq<u8>, c: seq<u8>)
    ensures (a + b) + c == a + (b + c)
  {
  }

  method SendFragments(msg: seq<u8>, txSeq: u16, total: nat) returns (wire: seq<u8>, txSeq': u16)
    requires Sendable(msg) && total == FragTotalFor(|msg|)
    ensures wire == WireFrom(msg, txSeq, 0)
    ensures txSeq' == Count16(txSeq, total)
  {
    wire, txSeq' := [], txSeq;
    WireEnd(msg, txSeq);
    CountOneMore(txSeq, 0);
    hide *;
    for idx := 0 to total
      invariant wire + WireFrom(msg, txSeq, idx) == WireFrom(msg, txSeq, 0)
      invariant txSeq' == Count16(txSeq, idx)
    {
      WireStep(msg, txSeq, idx);
      var bytes := SendFragment(msg, txSeq, txSeq', idx, total);
      CountOneMore(txSeq, idx);
      txSeq' := Next16(txSeq');
      Regroup(wire, bytes, WireFrom(msg, txSeq, idx + 1));
      wire := wire + bytes;
    }
  }

  /** One fragment through the transmit buffer. */
  method SendFragment(msg: seq<u8>, ghost seq0: u16, number: u16, idx: nat, total: nat) returns (bytes: seq<u8>)
    requires Sendable(msg) && total == FragTotalFor(|msg|) && idx < total
    requires number == Count16(seq0, idx)
    ensures Encodable(Fragment(msg, seq0, idx)) && bytes == Wire(Fragment(msg, seq0, idx))
  {
    FragmentIsEncodable(msg, seq0, idx);
    ghost var expected := Fragment(msg, seq0, idx);
    var (off, chunk) := FragSlice(|msg|, PerFramePayload(), idx, total).value;
    var f := Frame(TYPE_JPEG, number, idx, total, msg[off..off + chunk]);
    assert f == expected;
    assert |f.payload| <= MAX_PAYLOAD;
    hide Wire, Fragment, FragTotalFor, Encodable, FragSlice, Covered;
    var txBuf := new u8[MAX_FRAME];
    var n := EncodeFrame(f, txBuf);
    bytes := txBuf[..n];
  }

  // ── Delivery ──────────────────────────────────────────────────────────────

  lemma WirePulls(f: Frame, tail: seq<u8>)
    requires Encodable(f) && |f.payload| <= MAX_PAYLOAD
    ensures PullFrame(Wire(f) + tail) == HaveFrame(|Wire(f)|)
    ensures (Wire(f) + tail)[..|Wire(f)|] == Wire(f)
    ensures (Wire(f) + tail)[|Wire(f)|..] == tail
  {
    hide Crc16.Crc, IsValidPayloadLen;
    assert (Wire(f) + tail)[6..8] == Be2(|f.payload|);
    U16RoundTrip(|f.payload|);
  }

  lemma PumpOneFrame(rx: Rx, f: Frame, tail: seq<u8>)
    requires Encodable(f) && |f.payload| <= MAX_PAYLOAD
    ensures Pump(rx.(rest := Wire(f) + tail)) == Pump(HandleFrame(rx.(rest := tail), f))
  {
    WirePulls(f, tail);
    DecodeInvertsEncode(f);
    hide DecodeFrame, Wire, HandleFrame, PullFrame;
    assert rx.(rest := Wire(f) + tail).(rest := tail) == rx.(rest := tail);
  }

  /** What the core has assembled after idx fragments of msg. */
  function Midway(rx: Rx, msg: seq<u8>, idx: nat): Rx
    requires Sendable(msg) && 0 < idx < FragTotalFor(|msg|)
  {
    rx.(asm := Assembly(MESSAGE_CAP, msg[..Covered(|msg|, idx)], FragTotalFor(|msg|), idx))
  }

  lemma FragmentArrives(rx: Rx, msg: seq<u8>, seq0: u16, idx: nat)
    requires Sendable(msg) && |msg| <= MESSAGE_CAP && idx < FragTotalFor(|msg|)
    requires idx > 0 ==> rx == Midway(rx, msg, idx)
    ensures idx + 1 < FragTotalFor(|msg|) ==> HandleFrame(rx, Fragment(msg, seq0, idx)) == Midway(rx, msg, idx + 1)
    ensures idx + 1 == FragTotalFor(|msg|) ==>
              HandleFrame(rx, Fragment(msg, seq0, idx)) ==
              rx.(asm := Empty(MESSAGE_CAP), delivered := rx.delivered + [msg])
  {
    var f := Fragment(msg, seq0, idx);
    var a, b := Covered(|msg|, idx), Covered(|msg|, idx + 1);
    assert msg[..a] + f.payload == msg[..b];
    if idx + 1 == FragTotalFor(|msg|) {
      assert msg[..b] == msg;
    }
    if idx == 0 {
      assert [] + f.payload == f.payload;
    }
  }

  lemma {:induction false} FragmentsArrive(rx: Rx, msg: seq<u8>, seq0: u16, idx: nat)
    requires Sendable(msg) && |msg| <= MESSAGE_CAP && idx < FragTotalFor(|msg|)
    requires idx > 0 ==> rx == Midway(rx, msg, idx)
    ensures Pump(rx.(rest := WireFrom(msg, seq0, idx)))
         == rx.(rest := [], asm := Empty(MESSAGE_CAP), delivered := rx.delivered + [msg])
    decreases FragTotalFor(|msg|) - idx
  {
    WireEnd(msg, seq0);
    hide HandleFrame, Wire, WireFrom, Fragment, FragTotalFor, Pump, PullFrame, Encodable;
    var f, tail := Fragment(msg, seq0, idx), WireFrom(msg, seq0, idx + 1);
    WireStep(msg, seq0, idx);
    PumpOneFrame(rx, f, tail);
    FragmentArrives(rx, msg, seq0, idx);
    HandleFrameKeepsRest(rx, f, tail);
    if idx + 1 < FragTotalFor(|msg|) {
      FragmentsArrive(Midway(rx, msg, idx + 1), msg, seq0, idx + 1);
    } else {
      PumpNothing(HandleFrame(rx, f));
    }
  }

  lemma SmallStillsAreSendable(msg: seq<u8>)
    requires |msg| <= MESSAGE_CAP
    ensures Sendable(msg)
  {
  }

  /** A still of at most 16384 bytes arrives intact, however TCP cuts the stream and whatever
    * half-assembled message came before it; the endpoint is then ready for the next one. */
  lemma StillArrives(rx: Rx, msg: seq<u8>, seq0: u16, chunks: seq<seq<u8>>)
    requires rx.rest == [] && |msg| <= MESSAGE_CAP
    requires (SmallStillsAreSendable(msg); Flatten(chunks) == WireFrom(msg, seq0, 0))
    ensures FeedAll(rx, chunks) == rx.(asm := Empty(MESSAGE_CAP), delivered := rx.delivered + [msg])
  {
    SmallStillsAreSendable(msg);
    ChunkingIsIrrelevant(rx, chunks);
    FragmentsArrive(rx, msg, seq0, 0);
    assert rx.rest + Flatten(chunks) == WireFrom(msg, seq0, 0);
  }

  // ── Oversize stills ───────────────────────────────────────────────────────

  /** Assembling an oversize still: full after sixteen fragments, stuck from then on. */
  predicate Oversize(rx: Rx, msg: seq<u8>, idx: nat)
    requires Sendable(msg) && |msg| > MESSAGE_CAP
  {
    idx > 0 ==>
      var n := if idx <= 16 then idx else 16;
      rx.asm == Assembly(MESSAGE_CAP, msg[..n * MAX_PAYLOAD], FragTotalFor(|msg|), n)
  }

  lemma OversizeFragment(rx: Rx, msg: seq<u8>, seq0: u16, idx: nat)
    requires Sendable(msg) && |msg| > MESSAGE_CAP && idx < FragTotalFor(|msg|)
    requires Oversize(rx, msg, idx)
    ensures Oversize(HandleFrame(rx, Fragment(msg, seq0, idx)), msg, idx + 1)
    ensures HandleFrame(rx, Fragment(msg, seq0, idx)).delivered == rx.delivered
  {
    var f := Fragment(msg, seq0, idx);
    if idx < 16 {
      assert msg[..idx * MAX_PAYLOAD] + f.payload == msg[..(idx + 1) * MAX_PAYLOAD];
    }
    if idx == 0 {
      assert [] + f.payload == f.payload;
    }
  }

  lemma OversizeStep(rx: Rx, msg: seq<u8>, seq0: u16, idx: nat) returns (next: Rx)
    requires Sendable(msg) && |msg| > MESSAGE_CAP && idx < FragTotalFor(|msg|)
    requires Oversize(rx, msg, idx)
    ensures Oversize(next, msg, idx + 1) && next.delivered == rx.delivered
    ensures Pump(rx.(rest := WireFrom(msg, seq0, idx))) == Pump(next.(rest := WireFrom(msg, seq0, idx + 1)))
  {
    hide *;
    var f, tail := Fragment(msg, seq0, idx), WireFrom(msg, seq0, idx + 1);
    next := HandleFrame(rx, f);
    WireStep(msg, seq0, idx);
    OversizeFragment(rx, msg, seq0, idx);
    PumpOneFrame(rx, f, tail);
    HandleFrameKeepsRest(rx, f, tail);
  }

  lemma {:induction false} OversizeFragments(rx: Rx, msg: seq<u8>, seq0: u16, idx: nat)
    requires Sendable(msg) && |msg| > MESSAGE_CAP && idx <= FragTotalFor(|msg|)
    requires Oversize(rx, msg, idx)
    ensures Pump(rx.(rest := WireFrom(msg, seq0, idx))).delivered == rx.delivered
    decreases FragTotalFor(|msg|) - idx
  {
    hide *;
    if idx == FragTotalFor(|msg|) {
      WireEnd(msg, seq0);
      PumpNothing(rx);
    } else {
      var next := OversizeStep(rx, msg, seq0, idx);
      OversizeFragments(next, msg, seq0, idx + 1);
    }
  }

  lemma PumpNothing(rx: Rx)
    ensures Pump(rx.(rest := [])) == rx.(rest := [])
  {
  }

  /** A longer still is never delivered, whole or in part, whatever came before it. */
  lemma OversizeNeverCompletes(rx: Rx, msg: seq<u8>, seq0: u16, chunks: seq<seq<u8>>)
    requires |msg| > MESSAGE_CAP && Sendable(msg)
    requires rx.rest == [] && Flatten(chunks) == WireFrom(msg, seq0, 0)
    ensures FeedAll(rx, chunks).delivered == rx.delivered
  {
    ChunkingIsIrrelevant(rx, chunks);
    OversizeFragments(rx, msg, seq0, 0);
    assert rx.rest + Flatten(chunks) == WireFrom(msg, seq0, 0);
  }
}
