/** What gets through the core's JPEG socket: frames behind rubbish, and only messages made of
  * every fragment in turn.
  */
module StreamDelivery {
  import opened LinkCodec
  import opened StreamFramer
  import opened Words
  import T = StillTransfer

  // ── Frames behind rubbish ─────────────────────────────────────────────────

  lemma RubbishByte(rx: Rx, g: seq<u8>, f: Frame, tail: seq<u8>)
    requires g != [] && g[0] != MAGIC && Encodable(f)
    ensures Pump(rx.(rest := g + Wire(f) + tail)) == Pump(rx.(rest := g[1..] + Wire(f) + tail, drops := rx.drops + 1))
  {
    hide Wire, Encodable, DecodeFrame, HandleFrame;
    var buf := g + Wire(f) + tail;
    assert buf[0] == g[0] && |buf| > OVERHEAD;
    assert buf[1..] == g[1..] + Wire(f) + tail && |buf[..1]| == 1;
    assert PullFrame(buf) == Resync;
  }

  /** Bytes without the magic are dropped one by one, and the frame behind them is handled. */
  lemma {:induction false} FrameBehindRubbish(rx: Rx, g: seq<u8>, f: Frame, tail: seq<u8>)
    requires (forall i :: 0 <= i < |g| ==> g[i] != MAGIC) && Encodable(f)
    ensures Pump(rx.(rest := g + Wire(f) + tail)) ==
            Pump(HandleFrame(rx.(rest := tail, drops := rx.drops + |g|), f))
    decreases |g|
  {
    hide Wire, Pump, HandleFrame, Encodable;
    if g == [] {
      NothingBefore(Wire(f), tail);
      PayloadFits(f);
      T.PumpOneFrame(rx, f, tail);
    } else {
      RubbishByte(rx, g, f, tail);
      FrameBehindRubbish(rx.(drops := rx.drops + 1), g[1..], f, tail);
    }
  }

  lemma NothingBefore(a: seq<u8>, b: seq<u8>)
    ensures [] + a + b == a + b
  {
  }

  lemma PayloadFits(f: Frame)
    requires Encodable(f)
    ensures |f.payload| <= 1024
  {
  }

  // ── Whole messages only ───────────────────────────────────────────────────

  function HandleAll(rx: Rx, fs: seq<Frame>): Rx {
    if fs == [] then rx else HandleFrame(HandleAll(rx, fs[..|fs| - 1]), fs[|fs| - 1])
  }

  /** The payloads of some of the frames, in turn. */
  function Joined(fs: seq<Frame>, ps: seq<nat>): seq<u8>
    requires forall i :: 0 <= i < |ps| ==> ps[i] < |fs|
  {
    if ps == [] then [] else Joined(fs, ps[..|ps| - 1]) + fs[ps[|ps| - 1]].payload
  }

  /** Frames ps[0] < ps[1] < ... are the JPEG fragments 0, 1, ... of one message of `total`, and no
    * other message began among them. */
  predicate InTurn(fs: seq<Frame>, ps: seq<nat>, total: u8) {
    && (forall i :: 0 <= i < |ps| ==>
          ps[i] < |fs| && fs[ps[i]].kind == TYPE_JPEG && fs[ps[i]].fragIdx == i && fs[ps[i]].fragTotal == total)
    && (forall i, k :: 0 <= i < k < |ps| ==> ps[i] < ps[k])
    && (ps != [] ==> forall q :: ps[0] < q < |fs| && fs[q].kind == TYPE_JPEG ==> fs[q].fragIdx != 0)
  }

  /** What is assembled so far was put together in turn. */
  ghost predicate Building(fs: seq<Frame>, a: Assembly) {
    a.next > 0 ==> exists ps: seq<nat> :: |ps| == a.next && InTurn(fs, ps, a.total) && a.msg == Joined(fs, ps)
  }

  lemma {:induction false} JoinedLater(fs: seq<Frame>, f: Frame, ps: seq<nat>)
    requires forall i :: 0 <= i < |ps| ==> ps[i] < |fs|
    ensures Joined(fs + [f], ps) == Joined(fs, ps)
  {
    if ps != [] {
      JoinedLater(fs, f, ps[..|ps| - 1]);
    }
  }

  lemma JoinedMore(fs: seq<Frame>, f: Frame, ps: seq<nat>)
    requires forall i :: 0 <= i < |ps| ==> ps[i] < |fs|
    ensures Joined(fs + [f], ps + [|fs|]) == Joined(fs, ps) + f.payload
  {
    assert (ps + [|fs|])[..|ps|] == ps;
    JoinedLater(fs, f, ps);
  }

  lemma InTurnLater(fs: seq<Frame>, f: Frame, ps: seq<nat>, total: u8)
    requires InTurn(fs, ps, total) && (f.kind == TYPE_JPEG ==> f.fragIdx != 0)
    ensures InTurn(fs + [f], ps, total) && Joined(fs + [f], ps) == Joined(fs, ps)
  {
    JoinedLater(fs, f, ps);
  }

  lemma InTurnMore(fs: seq<Frame>, f: Frame, ps: seq<nat>, total: u8)
    requires InTurn(fs, ps, total)
    requires f.kind == TYPE_JPEG && f.fragIdx == |ps| && f.fragTotal == total
    requires ps == [] || f.fragIdx != 0
    ensures InTurn(fs + [f], ps + [|fs|], total)
  {
  }

  lemma NothingInTurn(fs: seq<Frame>, total: u8)
    ensures InTurn(fs, [], total) && Joined(fs, []) == []
  {
  }

  lemma Longer(fs: seq<Frame>, f: Frame, ps: seq<nat>, b: Assembly)
    requires InTurn(fs, ps, b.total) && f.kind == TYPE_JPEG && f.fragIdx == |ps| && f.fragTotal == b.total
    requires b.msg == Joined(fs, ps) + f.payload && b.next == |ps| + 1
    ensures Building(fs + [f], b)
  {
    InTurnMore(fs, f, ps, b.total);
    JoinedMore(fs, f, ps);
    hide Joined;
    var qs := ps + [|fs|];
    assert |qs| == b.next && InTurn(fs + [f], qs, b.total) && b.msg == Joined(fs + [f], qs);
  }

  /** The fragment that is accepted goes on the end. */
  lemma Accepted(fs: seq<Frame>, f: Frame, a: Assembly)
    requires f.kind == TYPE_JPEG && Building(fs, a) && (f.fragIdx == 0 ==> a.next == 0)
    requires Accepts(a, f.fragIdx, f.fragTotal, f.payload)
    ensures Building(fs + [f], Offered(a, f.fragIdx, f.fragTotal, f.payload))
  {
    var b := Offered(a, f.fragIdx, f.fragTotal, f.payload);
    var ps: seq<nat> := [];
    if a.next > 0 {
      ps :| |ps| == a.next && InTurn(fs, ps, a.total) && a.msg == Joined(fs, ps);
    } else {
      NothingInTurn(fs, b.total);
    }
    hide Joined;
    Longer(fs, f, ps, b);
  }

  lemma NotAccepted(fs: seq<Frame>, f: Frame, a: Assembly)
    requires Building(fs, a) && (f.kind == TYPE_JPEG ==> f.fragIdx != 0)
    ensures Building(fs + [f], a)
  {
    if a.next > 0 {
      var ps: seq<nat> :| |ps| == a.next && InTurn(fs, ps, a.total) && a.msg == Joined(fs, ps);
      InTurnLater(fs, f, ps, a.total);
    }
  }

  /** Is the message every fragment of one transmission, in turn? */
  ghost predicate IsWhole(fs: seq<Frame>, msg: seq<u8>) {
    exists ps: seq<nat>, total: u8 :: 0 < |ps| == total && InTurn(fs, ps, total) && msg == Joined(fs, ps)
  }

  lemma StepBuilds(fs: seq<Frame>, f: Frame, rx: Rx)
    requires Building(fs, rx.asm) && rx.asm.cap == MESSAGE_CAP
    ensures var next := HandleFrame(rx, f);
            && Building(fs + [f], next.asm) && next.asm.cap == MESSAGE_CAP
            && (next.delivered == rx.delivered
                || (|next.delivered| == |rx.delivered| + 1 && next.delivered[..|rx.delivered|] == rx.delivered
                    && IsWhole(fs + [f], next.delivered[|rx.delivered|])))
  {
    if f.kind == TYPE_JPEG {
      var before := if f.fragIdx == 0 then Empty(MESSAGE_CAP) else rx.asm;
      if Accepts(before, f.fragIdx, f.fragTotal, f.payload) {
        Accepted(fs, f, before);
        var after := Offered(before, f.fragIdx, f.fragTotal, f.payload);
        if Complete(after) {
          var ps: seq<nat> :| |ps| == after.next && InTurn(fs + [f], ps, after.total)
                              && after.msg == Joined(fs + [f], ps);
          assert IsWhole(fs + [f], after.msg);
        }
      } else if f.fragIdx != 0 {
        NotAccepted(fs, f, rx.asm);
        RefusedIsSame(before, f);
      } else {
        RefusedFirst(f);
      }
    } else {
      NotAccepted(fs, f, rx.asm);
    }
    hide InTurn, Joined;
  }

  lemma RefusedIsSame(a: Assembly, f: Frame)
    requires f.fragIdx != 0 && !Accepts(a, f.fragIdx, f.fragTotal, f.payload)
    ensures Offered(a, f.fragIdx, f.fragTotal, f.payload) == a
  {
  }

  lemma RefusedFirst(f: Frame)
    requires f.fragIdx == 0 && !Accepts(Empty(MESSAGE_CAP), 0, f.fragTotal, f.payload)
    ensures Offered(Empty(MESSAGE_CAP), 0, f.fragTotal, f.payload).next == 0
    ensures Offered(Empty(MESSAGE_CAP), 0, f.fragTotal, f.payload).cap == MESSAGE_CAP
  {
  }

  lemma {:induction false} RunBuilds(fs: seq<Frame>)
    ensures Building(fs, HandleAll(FRESH, fs).asm) && HandleAll(FRESH, fs).asm.cap == MESSAGE_CAP
  {
    if fs != [] {
      var p := fs[..|fs| - 1];
      RunBuilds(p);
      assert p + [fs[|fs| - 1]] == fs;
      hide Building;
      StepBuilds(p, fs[|fs| - 1], HandleAll(FRESH, p));
    }
  }

  /** Whatever frames arrive, in whatever order and with whatever others between: a frame that
    * makes the socket deliver completes a message, and what it delivers is the payloads of
    * fragments 0 to n - 1 of n, in that order of arrival, with no other beginning between. */
  lemma DeliveredIsWhole(fs: seq<Frame>, f: Frame)
    ensures var rx, next := HandleAll(FRESH, fs), HandleAll(FRESH, fs + [f]);
            next.delivered == rx.delivered
            || (|next.delivered| == |rx.delivered| + 1 && next.delivered[..|rx.delivered|] == rx.delivered
                && IsWhole(fs + [f], next.delivered[|rx.delivered|]))
  {
    RunBuilds(fs);
    assert (fs + [f])[..|fs|] == fs;
    hide Building, IsWhole;
    StepBuilds(fs, f, HandleAll(FRESH, fs));
  }

  /** Is it a JPEG fragment the assembly takes, a first one by starting afresh? */
  predicate Advances(rx: Rx, seg: seq<u8>) {
    && DecodeFrame(seg).Some?
    && var f := DecodeFrame(seg).value;
       && f.kind == 0x10 && f.fragIdx < f.fragTotal
       && (if f.fragIdx == 0 then |f.payload| <= 16384
           else f.fragIdx == rx.asm.next && f.fragTotal == rx.asm.total && |rx.asm.msg| + |f.payload| <= rx.asm.cap)
  }

  /** Whatever is cut from the stream either advances the assembly or counts one drop. */
  lemma DropsAreCounted(rx: Rx, seg: seq<u8>)
    ensures HandleSegment(rx, seg).drops == rx.drops + (if Advances(rx, seg) then 0 else 1)
  {
    hide IsValidPayloadLen;
  }
}
