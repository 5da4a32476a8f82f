/** The core's JPEG socket: raw TCP bytes into frames, frames into messages. */
module StreamFramer {
  import opened LinkCodec
  import opened Words

  const STREAM_CAP := 16384
  const MESSAGE_CAP := 16384

  // ── Reassembly ────────────────────────────────────────────────────────────

  /** The reassembler's abstract state: bytes so far, announced total, next index. */
  datatype Assembly = Assembly(cap: nat, msg: seq<u8>, total: u8, next: u8)

  function Empty(cap: nat): Assembly {
    Assembly(cap, [], 0, 0)
  }

  predicate Complete(a: Assembly) {
    a.next > 0 && a.next == a.total
  }

  /** Is this the fragment the reassembler is waiting for? */
  predicate Expected(a: Assembly, idx: u8, total: u8) {
    idx < total && idx == a.next && (a.next == 0 || total == a.total)
  }

  /** The state after offering a fragment. A first fragment that does not fit is refused
    * but its total is already noted; nothing observable depends on it. */
  function Offered(a: Assembly, idx: u8, total: u8, payload: seq<u8>): Assembly {
    if !Expected(a, idx, total) then a
    else
      var b := if a.next == 0 then a.(total := total, msg := []) else a;
      if |b.msg| + |payload| > b.cap then b
      else b.(msg := b.msg + payload, next := idx + 1)
  }

  predicate Accepts(a: Assembly, idx: u8, total: u8, payload: seq<u8>) {
    Expected(a, idx, total) && (if a.next == 0 then 0 else |a.msg|) + |payload| <= a.cap
  }

  class Reassembler {
    var buf: array<u8>
    var cap: nat
    var len: nat
    var total: u8
    var next: u8

    ghost predicate Valid()
      reads this
    {
      len <= cap <= buf.Length
    }

    ghost function View(): Assembly
      reads this, buf
      requires Valid()
    {
      Assembly(cap, buf[..len], total, next)
    }

    constructor (b: array<u8>, c: nat)
      requires c <= b.Length
      ensures Valid() && buf == b && View() == Empty(c)
    {
      buf, cap, len, total, next := b, c, 0, 0, 0;
    }

    method Reset(b: array<u8>, c: nat)
      requires c <= b.Length
      modifies this
      ensures Valid() && buf == b && View() == Empty(c)
    {
      buf, cap, len, total, next := b, c, 0, 0, 0;
    }

    method Push(idx: u8, fragTotal: u8, payload: seq<u8>) returns (ok: bool)
      requires Valid()
      modifies this, buf
      ensures Valid() && buf == old(buf)
      ensures ok == Accepts(old(View()), idx, fragTotal, payload)
      ensures View() == Offered(old(View()), idx, fragTotal, payload)
    {
      if fragTotal == 0 || idx >= fragTotal {
        return false;
      }
      if next == 0 {
        if idx != 0 {
          return false;
        }
        total := fragTotal;
        len := 0;
      } else {
        if fragTotal != total || idx != next {
          return false;
        }
      }
      if len + |payload| > cap {
        assert buf[..0] == [];
        return false;
      }
      ghost var front := buf[..len];
      for i := 0 to |payload|
        modifies buf
        invariant buf[..len] == front
        invariant forall k :: 0 <= k < i ==> buf[len + k] == payload[k]
      {
        buf[len + i] := payload[i];
      }
      assert buf[..len + |payload|] == front + payload;
      assert old(next) == 0 ==> front == [];
      len := len + |payload|;
      next := next + 1;
      return true;
    }
  }

  // ── Framing ───────────────────────────────────────────────────────────────

  datatype Pull = NeedMore | HaveFrame(n: nat) | Resync

  function PullFrame(buf: seq<u8>): (p: Pull)
    ensures p.HaveFrame? ==> OVERHEAD <= p.n <= |buf| && p.n <= MAX_FRAME
    ensures p.Resync? ==> buf != []
    ensures p.NeedMore? ==> |buf| < MAX_FRAME
  {
    if |buf| < OVERHEAD then NeedMore
    else if buf[0] != MAGIC then Resync
    else
      var payloadLen := FromBe2(buf[6..8]);
      if payloadLen > MAX_PAYLOAD then Resync
      else if |buf| < OVERHEAD + payloadLen then NeedMore
      else HaveFrame(OVERHEAD + payloadLen)
  }

  /** The endpoint: undecoded bytes, the message under assembly, messages completed, drops. */
  datatype Rx = Rx(rest: seq<u8>, asm: Assembly, delivered: seq<seq<u8>>, drops: nat)

  const FRESH := Rx([], Empty(MESSAGE_CAP), [], 0)

  function HandleFrame(rx: Rx, f: Frame): Rx {
    if f.kind != TYPE_JPEG then rx.(drops := rx.drops + 1)
    else
      var before := if f.fragIdx == 0 then Empty(MESSAGE_CAP) else rx.asm;
      var after := Offered(before, f.fragIdx, f.fragTotal, f.payload);
      if !Accepts(before, f.fragIdx, f.fragTotal, f.payload) then rx.(asm := after, drops := rx.drops + 1)
      else if !Complete(after) then rx.(asm := after)
      else rx.(asm := Empty(MESSAGE_CAP), delivered := rx.delivered + [after.msg])
  }

  /** Bytes the next pull removes from a buffer that is ready. */
  function Taken(buf: seq<u8>): (n: nat)
    requires !PullFrame(buf).NeedMore?
    ensures 0 < n <= |buf|
  {
    var p := PullFrame(buf);
    if p.Resync? then 1 else p.n
  }

  /** The effect of one removed segment. */
  function HandleSegment(rx: Rx, seg: seq<u8>): Rx {
    if |seg| == 1 then rx.(drops := rx.drops + 1)
    else
      match DecodeFrame(seg)
      case None => rx.(drops := rx.drops + 1)
      case Some(f) => HandleFrame(rx, f)
  }

  /** The pull loop. */
  function Pump(rx: Rx): Rx
    decreases |rx.rest|
  {
    if PullFrame(rx.rest).NeedMore? then rx
    else
      var n := Taken(rx.rest);
      Pump(HandleSegment(rx.(rest := rx.rest[n..]), rx.rest[..n]))
  }

  function Feed(rx: Rx, chunk: seq<u8>): Rx {
    Pump(rx.(rest := rx.rest + chunk))
  }

  function FeedAll(rx: Rx, chunks: seq<seq<u8>>): Rx
    decreases |chunks|
  {
    if chunks == [] then rx else FeedAll(Feed(rx, chunks[0]), chunks[1..])
  }

  function Flatten(chunks: seq<seq<u8>>): seq<u8> {
    if chunks == [] then [] else chunks[0] + Flatten(chunks[1..])
  }

  // ── What the pull loop guarantees ─────────────────────────────────────────

  /** A pull on a full enough buffer is not changed by more bytes. */
  lemma PullIsStable(buf: seq<u8>, more: seq<u8>)
    requires !PullFrame(buf).NeedMore?
    ensures PullFrame(buf + more) == PullFrame(buf)
    ensures (buf + more)[..Taken(buf)] == buf[..Taken(buf)]
    ensures (buf + more)[Taken(buf)..] == buf[Taken(buf)..] + more
  {
    assert (buf + more)[6..8] == buf[6..8];
  }

  lemma HandleSegmentKeepsRest(rx: Rx, seg: seq<u8>, other: seq<u8>)
    ensures HandleSegment(rx, seg).rest == rx.rest
    ensures HandleSegment(rx.(rest := other), seg) == HandleSegment(rx, seg).(rest := other)
  {
    hide DecodeFrame, Accepts, Offered;
  }

  lemma {:induction false} PumpThenMore(rx: Rx, more: seq<u8>)
    ensures Pump(Pump(rx).(rest := Pump(rx).rest + more)) == Pump(rx.(rest := rx.rest + more))
    decreases |rx.rest|
  {
    hide PullFrame, HandleSegment;
    if !PullFrame(rx.rest).NeedMore? {
      var n := Taken(rx.rest);
      var seg := rx.rest[..n];
      var next := HandleSegment(rx.(rest := rx.rest[n..]), seg);
      PullIsStable(rx.rest, more);
      HandleSegmentKeepsRest(rx.(rest := rx.rest[n..]), seg, rx.rest[n..] + more);
      PumpThenMore(next, more);
      assert rx.(rest := rx.rest + more).(rest := rx.rest[n..] + more) ==
             rx.(rest := rx.rest[n..]).(rest := rx.rest[n..] + more);
    }
  }

  /** How TCP cuts the stream does not matter. */
  lemma {:induction false} ChunkingIsIrrelevant(rx: Rx, chunks: seq<seq<u8>>)
    requires PullFrame(rx.rest).NeedMore?
    ensures FeedAll(rx, chunks) == Feed(rx, Flatten(chunks))
    decreases |chunks|
  {
    hide PullFrame, HandleSegment;
    if chunks == [] {
      assert rx.rest + [] == rx.rest;
    } else {
      var once := rx.(rest := rx.rest + chunks[0]);
      PumpSettles(once);
      ChunkingIsIrrelevant(Feed(rx, chunks[0]), chunks[1..]);
      PumpThenMore(once, Flatten(chunks[1..]));
      assert rx.rest + Flatten(chunks) == once.rest + Flatten(chunks[1..]);
    }
  }

  lemma {:induction false} PumpSettles(rx: Rx)
    ensures PullFrame(Pump(rx).rest).NeedMore?
    decreases |rx.rest|
  {
    hide PullFrame, HandleSegment;
    if !PullFrame(rx.rest).NeedMore? {
      var n := Taken(rx.rest);
      HandleSegmentKeepsRest(rx.(rest := rx.rest[n..]), rx.rest[..n], []);
      PumpSettles(HandleSegment(rx.(rest := rx.rest[n..]), rx.rest[..n]));
    }
  }

  /** The loop always leaves less than one frame, so a read always finds room. */
  lemma BufferNeverWedges(rx: Rx)
    ensures |Pump(rx).rest| < MAX_FRAME
    ensures STREAM_CAP - |Pump(rx).rest| > 15000
  {
    PumpSettles(rx);
  }

  /** The segments the loop removes, in order. */
  function Segments(buf: seq<u8>): seq<seq<u8>>
    decreases |buf|
  {
    if PullFrame(buf).NeedMore? then [] else [buf[..Taken(buf)]] + Segments(buf[Taken(buf)..])
  }

  function HandleAll(rx: Rx, segs: seq<seq<u8>>): Rx
    decreases |segs|
  {
    if segs == [] then rx else HandleAll(HandleSegment(rx, segs[0]), segs[1..])
  }

  lemma FirstSegment(buf: seq<u8>)
    requires !PullFrame(buf).NeedMore?
    ensures Segments(buf) == [buf[..Taken(buf)]] + Segments(buf[Taken(buf)..])
    ensures Taken(buf) == 1 || OVERHEAD <= Taken(buf) <= MAX_FRAME
    ensures Flatten(Segments(buf)) == buf[..Taken(buf)] + Flatten(Segments(buf[Taken(buf)..]))
  {
    hide PullFrame;
    assert Segments(buf)[1..] == Segments(buf[Taken(buf)..]);
  }

  /** Every byte is consumed exactly once, in order, as a single skipped byte or inside one
    * frame-sized segment; whatever is left stays in the buffer. */
  lemma {:induction false} BytesAreConsumedOnce(rx: Rx)
    ensures Flatten(Segments(rx.rest)) + Pump(rx).rest == rx.rest
    ensures Pump(rx) == HandleAll(rx.(rest := Pump(rx).rest), Segments(rx.rest))
    ensures forall s :: s in Segments(rx.rest) ==> |s| == 1 || OVERHEAD <= |s| <= MAX_FRAME
    decreases |rx.rest|
  {
    hide PullFrame, HandleSegment, Taken;
    if !PullFrame(rx.rest).NeedMore? {
      var n := Taken(rx.rest);
      var seg, tail := rx.rest[..n], rx.rest[n..];
      var next := HandleSegment(rx.(rest := tail), seg);
      assert Pump(rx) == Pump(next);
      HandleSegmentKeepsRest(rx.(rest := tail), seg, Pump(rx).rest);
      BytesAreConsumedOnce(next);
      FirstSegment(rx.rest);
      FirstHandled(rx.(rest := Pump(rx).rest), seg, Segments(tail));
      hide Pump, Segments, Flatten, HandleAll;
      Reassembled(rx.rest, n, Flatten(Segments(tail)), Pump(rx).rest);
      assert rx.(rest := tail).(rest := Pump(rx).rest) == rx.(rest := Pump(rx).rest);
    }
  }

  lemma Reassembled(whole: seq<u8>, n: nat, middle: seq<u8>, rest: seq<u8>)
    requires n <= |whole| && middle + rest == whole[n..]
    ensures whole[..n] + middle + rest == whole
  {
    assert whole[..n] + middle + rest == whole[..n] + (middle + rest);
  }

  lemma FirstHandled(rx: Rx, seg: seq<u8>, segs: seq<seq<u8>>)
    ensures HandleAll(rx, [seg] + segs) == HandleAll(HandleSegment(rx, seg), segs)
  {
    hide HandleSegment;
    assert ([seg] + segs)[1..] == segs;
  }

  // ── The socket object ─────────────────────────────────────────────────────

  class JpegSocket {
    const tcpStream: array<u8>
    var streamLen: nat
    const jpegMsg: array<u8>
    const reasm: Reassembler
    var framesRx: nat
    var tcpDrop: nat
    ghost var delivered: seq<seq<u8>>

    ghost predicate Valid()
      reads this, reasm
    {
      tcpStream.Length == STREAM_CAP && jpegMsg.Length == MESSAGE_CAP && tcpStream != jpegMsg
      && streamLen <= STREAM_CAP
      && reasm.Valid() && reasm.buf == jpegMsg && reasm.cap == MESSAGE_CAP
      && framesRx == |delivered|
    }

    ghost function View(): Rx
      reads this, tcpStream, reasm, jpegMsg
      requires Valid()
    {
      Rx(tcpStream[..streamLen], reasm.View(), delivered, tcpDrop)
    }

    constructor ()
      ensures Valid() && fresh(tcpStream) && fresh(jpegMsg) && fresh(reasm)
      ensures View() == FRESH
    {
      tcpStream := new u8[STREAM_CAP];
      var msg := new u8[MESSAGE_CAP];
      jpegMsg := msg;
      reasm := new Reassembler(msg, MESSAGE_CAP);
      streamLen, framesRx, tcpDrop, delivered := 0, 0, 0, [];
    }

    /** Accept or loss of a client: stream and reassembly start over. */
    method Restart()
      requires Valid()
      modifies this, reasm
      ensures Valid()
      ensures View() == old(View()).(rest := [], asm := Empty(MESSAGE_CAP))
    {
      streamLen := 0;
      reasm.Reset(jpegMsg, MESSAGE_CAP);
    }

    method ConsumeTcp(n: nat)
      requires Valid()
      modifies this`streamLen, tcpStream
      ensures Valid()
      ensures View() ==
              old(View()).(rest := if n == 0 || n > old(streamLen) then old(View()).rest else old(View()).rest[n..])
    {
      if n == 0 || n > streamLen {
        return;
      }
      var remain := streamLen - n;
      for i := 0 to remain
        invariant forall k :: 0 <= k < i ==> tcpStream[k] == old(tcpStream[n + k])
        invariant forall k :: i <= k < STREAM_CAP ==> tcpStream[k] == old(tcpStream[k])
      {
        tcpStream[i] := tcpStream[n + i];
      }
      streamLen := remain;
      assert tcpStream[..remain] == old(tcpStream[..streamLen])[n..];
    }

    method HandleTcpFrame(f: Frame)
      requires Valid()
      modifies this`framesRx, this`tcpDrop, this`delivered, reasm, jpegMsg
      ensures Valid()
      ensures View() == HandleFrame(old(View()), f)
    {
      if f.kind != TYPE_JPEG {
        tcpDrop := tcpDrop + 1;
        return;
      }
      if f.fragIdx == 0 {
        reasm.Reset(jpegMsg, MESSAGE_CAP);
      }
      var pushed := reasm.Push(f.fragIdx, f.fragTotal, f.payload);
      if !pushed {
        tcpDrop := tcpDrop + 1;
        return;
      }
      if !(reasm.next > 0 && reasm.next == reasm.total) {
        return;
      }
      delivered := delivered + [jpegMsg[..reasm.len]];
      framesRx := framesRx + 1;
      reasm.Reset(jpegMsg, MESSAGE_CAP);
    }

    /** One buffered segment: resynchronise, drop or handle. */
    method PumpOnce(p: Pull)
      requires Valid() && p == PullFrame(tcpStream[..streamLen]) && !p.NeedMore?
      modifies this, tcpStream, reasm, jpegMsg
      ensures Valid()
      ensures var buf := old(View()).rest;
              View() == HandleSegment(old(View()).(rest := buf[Taken(buf)..]), buf[..Taken(buf)])
    {
      ghost var buf := tcpStream[..streamLen];
      hide PullFrame, DecodeFrame, HandleFrame;
      if p.Resync? {
        tcpDrop := tcpDrop + 1;
        ConsumeTcp(1);
        return;
      }
      var d := DecodeFrame(tcpStream[..p.n]);
      assert buf[..p.n] == tcpStream[..p.n];
      if d.None? {
        tcpDrop := tcpDrop + 1;
        ConsumeTcp(p.n);
        return;
      }
      ghost var start := View();
      HandleTcpFrame(d.value);
      ghost var handled := View();
      HandleFrameKeepsRest(start, d.value, buf[p.n..]);
      ConsumeTcp(p.n);
    }

    /** One task tick after reading chunk from the client: pull until more is needed. */
    method ReadInto(chunk: seq<u8>)
      requires Valid() && streamLen + |chunk| <= STREAM_CAP
      modifies tcpStream
      ensures tcpStream[..streamLen + |chunk|] == old(tcpStream[..streamLen]) + chunk
    {
      for i := 0 to |chunk|
        invariant tcpStream[..streamLen] == old(tcpStream[..streamLen])
        invariant forall k :: 0 <= k < i ==> tcpStream[streamLen + k] == chunk[k]
      {
        tcpStream[streamLen + i] := chunk[i];
      }
    }

    method PollTcp(chunk: seq<u8>)
      requires Valid() && streamLen + |chunk| <= STREAM_CAP
      modifies this, tcpStream, reasm, jpegMsg
      ensures Valid()
      ensures View() == Feed(old(View()), chunk)
      ensures streamLen < MAX_FRAME
    {
      ReadInto(chunk);
      streamLen := streamLen + |chunk|;
      ghost var goal := Pump(View());
      hide HandleSegment;
      while true
        invariant Valid()
        invariant Pump(View()) == goal
        decreases streamLen
      {
        var p := PullFrame(tcpStream[..streamLen]);
        if p.NeedMore? {
          break;
        }
        ghost var before := View();
        ghost var n := Taken(before.rest);
        PumpOnce(p);
        HandleSegmentKeepsRest(before.(rest := before.rest[n..]), before.rest[..n], []);
        assert View().rest == before.rest[n..];
      }
    }
  }

  lemma HandleFrameKeepsRest(rx: Rx, f: Frame, other: seq<u8>)
    ensures HandleFrame(rx, f).rest == rx.rest
    ensures HandleFrame(rx.(rest := other), f) == HandleFrame(rx, f).(rest := other)
  {
    hide Accepts, Offered;
  }
}
