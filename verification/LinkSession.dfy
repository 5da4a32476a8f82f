/** Commands from core to head over UDP: one sequence counter, a wrap-aware gate, receipts
  * and the credential push that waits for one.
  */
module LinkSession {
  import opened LinkCodec
  import opened Words

  // ── The sequence gate ─────────────────────────────────────────────────────

  /** u16 difference got - last. */
  function Ahead(last: u16, got: u16): u16 {
    (got - last + 0x1_0000) % 0x1_0000
  }

  predicate IsFreshSeq(last: u16, got: u16) {
    got != last && Ahead(last, got) < 0x8000
  }

  datatype Verdict = Fresh | Duplicate | Stale

  function ClassifyRx(have: bool, last: u16, got: u16): Verdict {
    if !have then Fresh
    else if got == last then Duplicate
    else if IsFreshSeq(last, got) then Fresh else Stale
  }

  /** Mint positions behind sequence numbers: the gate compares positions whenever the
    * arriving one is at most 2^15 behind, and takes equal residues for equality. */
  lemma GateComparesPositions(p: nat, q: nat)
    requires p - q <= 0x8000
    ensures ClassifyRx(true, Count16(0, p), Count16(0, q)).Duplicate? <==> (q - p) % 0x1_0000 == 0
    ensures ClassifyRx(true, Count16(0, p), Count16(0, q)).Fresh? ==> q > p
    ensures p < q < p + 0x8000 ==> ClassifyRx(true, Count16(0, p), Count16(0, q)).Fresh?
  {
    var d := q - p;
    assert Ahead(Count16(0, p), Count16(0, q)) == d % 0x1_0000 by { DifferenceOfCounts(p, q); }
    if q < p {
      assert d % 0x1_0000 == d + 0x1_0000;
    }
  }

  lemma DifferenceOfCounts(p: nat, q: nat)
    ensures Ahead(Count16(0, p), Count16(0, q)) == (q - p) % 0x1_0000
    ensures Count16(0, p) == Count16(0, q) <==> (q - p) % 0x1_0000 == 0
  {
    var a, b := p / 0x1_0000, q / 0x1_0000;
    assert q - p == 0x1_0000 * (b - a) + (Count16(0, q) - Count16(0, p));
  }

  // ── The head ──────────────────────────────────────────────────────────────

  /** Can the head apply this frame? Credentials must open under the provisioned key. */
  predicate Applies(f: Frame, opens: seq<u8> -> bool) {
    if f.kind == TYPE_WIFI_CREDS then 30 <= |f.payload| <= 126 && opens(f.payload)
    else if f.kind == TYPE_OTA then 1 <= |f.payload| <= 128
    else if f.kind == TYPE_PAIR_SHOW then |f.payload| == 8 && forall i :: 0 <= i < 6 ==> 48 <= f.payload[i] <= 57
    else if f.kind == TYPE_PAIR_DONE then |f.payload| == 0
    else if f.kind == TYPE_EXPR then |f.payload| == 1
    else if f.kind == TYPE_OLED then |f.payload| == 1 && f.payload[0] <= 2
    else f.kind == TYPE_CAMCTL && |f.payload| == 1 && f.payload[0] <= 1
  }

  /** Gate state, frames handed to the handlers, and sequence numbers acknowledged. */
  datatype Head = Head(have: bool, last: u16, executed: seq<Frame>, acked: seq<u16>)

  function HandledCmd(h: Head, f: Frame, opens: seq<u8> -> bool): Head {
    match ClassifyRx(h.have, h.last, f.number)
    case Stale => h
    case Duplicate => h.(acked := h.acked + [f.number])
    case Fresh =>
      if Applies(f, opens) then Head(true, f.number, h.executed + [f], h.acked + [f.number]) else h
  }

  class LinkClient {
    var haveCmdSeq: bool
    var lastCmdSeq: u16
    var executed: seq<Frame>
    var acked: seq<u16>
    const opens: seq<u8> -> bool

    ghost function View(): Head
      reads this
    {
      Head(haveCmdSeq, lastCmdSeq, executed, acked)
    }

    constructor (o: seq<u8> -> bool)
      ensures View() == Head(false, 0, [], []) && opens == o
    {
      haveCmdSeq, lastCmdSeq, executed, acked, opens := false, 0, [], [], o;
    }

    method OnAssoc()
      modifies this
      ensures View() == old(View()).(have := false)
    {
      haveCmdSeq := false;
    }

    /** Accept a frame: advance the gate, hand it over, acknowledge. */
    method Accept(f: Frame)
      modifies this
      ensures View() == Head(true, f.number, old(executed) + [f], old(acked) + [f.number])
    {
      haveCmdSeq := true;
      lastCmdSeq := f.number;
      executed := executed + [f];
      acked := acked + [f.number];
    }

    method HandleCmd(f: Frame)
      modifies this
      ensures View() == HandledCmd(old(View()), f, opens)
    {
      var v := ClassifyRx(haveCmdSeq, lastCmdSeq, f.number);
      if v.Stale? {
        return;
      }
      if v.Duplicate? {
        acked := acked + [f.number];
        return;
      }
      if f.kind == TYPE_WIFI_CREDS && 30 <= |f.payload| <= 126 {
        if opens(f.payload) {
          Accept(f);
        }
        return;
      }
      if f.kind == TYPE_OTA && 1 <= |f.payload| <= 128 {
        Accept(f);
        return;
      }
      if f.kind == TYPE_PAIR_SHOW && |f.payload| == 8 {
        var digits := true;
        for i := 0 to 6
          invariant digits == forall k :: 0 <= k < i ==> 48 <= f.payload[k] <= 57
        {
          if f.payload[i] < 48 || f.payload[i] > 57 {
            digits := false;
          }
        }
        if digits {
          Accept(f);
        }
        return;
      }
      if f.kind == TYPE_PAIR_DONE && |f.payload| == 0 {
        Accept(f);
        return;
      }
      var ok := false;
      if f.kind == TYPE_EXPR {
        ok := |f.payload| == 1;
      } else if f.kind == TYPE_OLED {
        ok := |f.payload| == 1 && f.payload[0] <= 2;
      } else if f.kind == TYPE_CAMCTL {
        ok := |f.payload| == 1 && f.payload[0] <= 1;
      }
      if ok {
        Accept(f);
      }
    }
  }

  // ── The core ──────────────────────────────────────────────────────────────

  const MAX_ATTEMPTS := 5
  const RETRY_MS := 1000
  const MAX_UDP_PAYLOAD := 128

  /** What a minted frame was for. */
  datatype Purpose = Plain | StoreCreds | ClearCreds

  /** A frame that took a sequence number; it may have failed to leave the radio. */
  datatype Mint = Mint(frame: Frame, sent: bool, purpose: Purpose)

  datatype Core = Core(minted: seq<Mint>, armed: bool, confirmed: bool, clear: bool, haveSeq: bool,
                       credSeq: u16, attempts: nat, lastTry: u32)

  function TxSeq(c: Core): u16 {
    Count16(0, |c.minted|)
  }

  /** A core-to-head send by a pinned peer. Oversize payloads are refused before the counter
    * moves; from then on the number is spent whether or not the datagram leaves. */
  function AfterSend(c: Core, kind: u8, payload: seq<u8>, radio: bool, purpose: Purpose): Core {
    if |payload| > MAX_UDP_PAYLOAD then c
    else
      var f := Frame(kind, TxSeq(c), 0, 1, payload);
      c.(minted := c.minted + [Mint(f, radio && Encodable(f), purpose)])
  }

  predicate Sent(c: Core, kind: u8, payload: seq<u8>, radio: bool) {
    |payload| <= MAX_UDP_PAYLOAD && radio && Encodable(Frame(kind, TxSeq(c), 0, 1, payload))
  }

  function PurposeOf(clear: bool): Purpose {
    if clear then ClearCreds else StoreCreds
  }

  /** Portal relay of a store or a clear: arms only if the first datagram left. `ready`
    * stands for a key, a peer and (for a store) an injected bundle. */
  function AfterPush(c: Core, clear: bool, ready: bool, sealed: seq<u8>, radio: bool, now: u32): Core {
    if !ready then c
    else
      var c1 := AfterSend(c, TYPE_WIFI_CREDS, sealed, radio, PurposeOf(clear));
      if !Sent(c, TYPE_WIFI_CREDS, sealed, radio) then c1
      else c1.(armed := true, confirmed := false, clear := clear, haveSeq := true,
               credSeq := TxSeq(c), attempts := 1, lastTry := now)
  }

  predicate RetryDue(attempts: nat, lastTry: u32, now: u32) {
    attempts < MAX_ATTEMPTS && Since(lastTry, now) >= RETRY_MS
  }

  function AfterPoll(c: Core, ready: bool, sealed: seq<u8>, radio: bool, now: u32): Core {
    if !c.armed || c.confirmed then c
    else if c.attempts >= MAX_ATTEMPTS then c.(armed := false)
    else if !RetryDue(c.attempts, c.lastTry, now) then c
    else
      var tried := (if ready then AfterSend(c, TYPE_WIFI_CREDS, sealed, radio, PurposeOf(c.clear)) else c)
                   .(attempts := c.attempts + 1, lastTry := now);
      if ready && Sent(c, TYPE_WIFI_CREDS, sealed, radio) then tried.(haveSeq := true, credSeq := TxSeq(c)) else tried
  }

  function AfterAck(c: Core, acked: u16): Core {
    if c.armed && !c.confirmed && c.haveSeq && acked == c.credSeq then c.(confirmed := true, armed := false) else c
  }

  class LinkServer {
    var txSeq: u16
    var credArmed: bool
    var credConfirmed: bool
    var credClear: bool
    var credHaveSeq: bool
    var credSeq: u16
    var credAttempts: nat
    var credLastTryMs: u32
    ghost var minted: seq<Mint>

    ghost predicate Valid()
      reads this
    {
      txSeq == Count16(0, |minted|)
    }

    ghost function View(): Core
      reads this
    {
      Core(minted, credArmed, credConfirmed, credClear, credHaveSeq, credSeq, credAttempts, credLastTryMs)
    }

    constructor ()
      ensures Valid() && View() == CORE_START
    {
      txSeq, credArmed, credConfirmed, credClear, credHaveSeq := 0, false, false, false, false;
      credSeq, credAttempts, credLastTryMs, minted := 0, 0, 0, [];
    }

    method SendTo(kind: u8, payload: seq<u8>, radio: bool, ghost purpose: Purpose) returns (sent: bool, number: u16)
      requires Valid()
      modifies this
      ensures Valid() && View() == AfterSend(old(View()), kind, payload, radio, purpose)
      ensures sent == Sent(old(View()), kind, payload, radio)
      ensures sent ==> number == TxSeq(old(View()))
    {
      if |payload| > MAX_UDP_PAYLOAD {
        return false, 0;
      }
      number := txSeq;
      CountOneMore(0, |minted|);
      txSeq := Next16(txSeq);
      var f := Frame(kind, number, 0, 1, payload);
      var out := new u8[OVERHEAD + MAX_UDP_PAYLOAD];
      var n := EncodeFrame(f, out);
      sent := n != 0 && radio;
      minted := minted + [Mint(f, sent, purpose)];
    }

    method PushBundle(clear: bool, ready: bool, sealed: seq<u8>, radio: bool, now: u32)
      requires Valid()
      modifies this
      ensures Valid() && View() == AfterPush(old(View()), clear, ready, sealed, radio, now)
    {
      if !ready {
        return;
      }
      var sent, number := SendTo(TYPE_WIFI_CREDS, sealed, radio, PurposeOf(clear));
      if !sent {
        return;
      }
      credArmed, credConfirmed, credClear, credHaveSeq := true, false, clear, true;
      credSeq, credAttempts, credLastTryMs := number, 1, now;
    }

    method PollCredPush(ready: bool, sealed: seq<u8>, radio: bool, now: u32)
      requires Valid()
      modifies this
      ensures Valid() && View() == AfterPoll(old(View()), ready, sealed, radio, now)
    {
      if !credArmed || credConfirmed {
        return;
      }
      if credAttempts >= MAX_ATTEMPTS {
        credArmed := false;
        return;
      }
      if !RetryDue(credAttempts, credLastTryMs, now) {
        return;
      }
      var sent, number := false, 0;
      if ready {
        sent, number := SendTo(TYPE_WIFI_CREDS, sealed, radio, PurposeOf(credClear));
      }
      credAttempts := credAttempts + 1;
      credLastTryMs := now;
      if sent {
        credHaveSeq := true;
        credSeq := number;
      }
    }

    method HandleAck(acked: u16)
      requires Valid()
      modifies this
      ensures Valid() && View() == AfterAck(old(View()), acked)
    {
      if credArmed && !credConfirmed && credHaveSeq && acked == credSeq {
        credConfirmed := true;
        credArmed := false;
      }
    }
  }

  // ── The system over a bad network ─────────────────────────────────────────

  const CORE_START := Core([], false, false, false, false, 0, 0, 0)
  const HEAD_START := Head(false, 0, [], [])

  /** One receipt: the number it carries, the mint position it names, and how many frames
    * had been minted when it left the head. */
  datatype Receipt = Receipt(number: u16, pos: nat, at: nat)

  /** Both ends, plus bookkeeping: where the last accepted frame sat, the positions executed
    * since association and ever, the receipts, and where the latest credential attempt sits. */
  datatype System = System(core: Core, head: Head, lastPos: nat, since: seq<nat>, ever: set<nat>,
                           receipts: seq<Receipt>, credPos: nat)

  const START := System(CORE_START, HEAD_START, 0, [], {}, [], 0)

  datatype Event =
    | Send(kind: u8, payload: seq<u8>, radio: bool)
    | Push(clear: bool, ready: bool, sealed: seq<u8>, radio: bool, now: u32)
    | Poll(ready: bool, sealed: seq<u8>, radio: bool, now: u32)
    | Deliver(i: nat)
    | DeliverAck(k: nat)
    | Associate

  const HORIZON := 0x8000

  /** The network delivers only what was sent, any number of times and in any order, at most
    * 2^15 mints later; the same holds for receipts. */
  predicate Enabled(s: System, e: Event) {
    match e
    case Deliver(i) => i < |s.core.minted| && s.core.minted[i].sent && |s.core.minted| - i <= HORIZON
    case DeliverAck(k) => k < |s.receipts| && |s.core.minted| <= s.receipts[k].at + HORIZON
    case Send(kind, _, _) => kind != TYPE_WIFI_CREDS
    case _ => true
  }

  function Receive(s: System, i: nat, opens: seq<u8> -> bool): System
    requires i < |s.core.minted|
  {
    var f := s.core.minted[i].frame;
    var n := |s.core.minted|;
    var head := HandledCmd(s.head, f, opens);
    match ClassifyRx(s.head.have, s.head.last, f.number)
    case Stale => s.(head := head)
    case Duplicate => s.(head := head, receipts := s.receipts + [Receipt(f.number, s.lastPos, n)])
    case Fresh =>
      if Applies(f, opens) then
        s.(head := head, lastPos := i, since := s.since + [i], ever := s.ever + {i},
           receipts := s.receipts + [Receipt(f.number, i, n)])
      else s.(head := head)
  }

  function Apply(s: System, e: Event, opens: seq<u8> -> bool): System
    requires Enabled(s, e)
  {
    match e
    case Send(kind, payload, radio) => s.(core := AfterSend(s.core, kind, payload, radio, Plain))
    case Push(clear, ready, sealed, radio, now) =>
      s.(core := AfterPush(s.core, clear, ready, sealed, radio, now),
         credPos := if ready && Sent(s.core, TYPE_WIFI_CREDS, sealed, radio) then |s.core.minted| else s.credPos)
    case Poll(ready, sealed, radio, now) =>
      var core := AfterPoll(s.core, ready, sealed, radio, now);
      s.(core := core,
         credPos := if |core.minted| > |s.core.minted| && core.minted[|s.core.minted|].sent then |s.core.minted|
                    else s.credPos)
    case Deliver(i) => Receive(s, i, opens)
    case DeliverAck(k) => s.(core := AfterAck(s.core, s.receipts[k].number))
    case Associate => s.(head := s.head.(have := false), since := [])
  }

  predicate Admissible(s: System, events: seq<Event>, opens: seq<u8> -> bool)
    decreases |events|
  {
    events == [] || (Enabled(s, events[0]) && Admissible(Apply(s, events[0], opens), events[1..], opens))
  }

  function Run(s: System, events: seq<Event>, opens: seq<u8> -> bool): System
    requires Admissible(s, events, opens)
    decreases |events|
  {
    if events == [] then s else Run(Apply(s, events[0], opens), events[1..], opens)
  }

  // ── Invariants ────────────────────────────────────────────────────────────

  predicate Increasing(p: seq<nat>) {
    forall i, j :: 0 <= i < j < |p| ==> p[i] < p[j]
  }

  ghost predicate Numbered(c: Core) {
    forall i :: 0 <= i < |c.minted| ==> c.minted[i].frame.number == Count16(0, i)
  }

  /** The frames executed since association are the minted ones at `since`, in mint order. */
  ghost predicate Ordered(s: System) {
    && Numbered(s.core)
    && Increasing(s.since)
    && (forall k :: 0 <= k < |s.since| ==> s.since[k] < |s.core.minted| && s.since[k] in s.ever)
    && |s.since| <= |s.head.executed|
    && (forall k :: 0 <= k < |s.since| ==>
         s.head.executed[|s.head.executed| - |s.since| + k] == s.core.minted[s.since[k]].frame)
    && (s.head.have <==> s.since != [])
    && (s.head.have ==> s.lastPos == s.since[|s.since| - 1] && s.head.last == Count16(0, s.lastPos))
  }

  /** Every receipt carries the number of a frame the head executed. */
  ghost predicate ReceiptsAreHonest(s: System) {
    |s.receipts| == |s.head.acked|
    && forall k :: 0 <= k < |s.receipts| ==>
         s.receipts[k].number == s.head.acked[k] == Count16(0, s.receipts[k].pos)
         && s.receipts[k].pos in s.ever && s.receipts[k].pos < s.receipts[k].at <= |s.core.minted|
  }

  /** The credential machine points at its latest attempt, of the kind last armed, among at
    * most five. */
  ghost predicate PushIsTracked(s: System) {
    && s.core.attempts <= MAX_ATTEMPTS
    && (s.core.haveSeq ==>
         s.credPos < |s.core.minted| && s.core.credSeq == Count16(0, s.credPos)
         && s.core.minted[s.credPos].frame.kind == TYPE_WIFI_CREDS
         && s.core.minted[s.credPos].purpose == PurposeOf(s.core.clear))
    && (s.core.armed || s.core.confirmed ==> s.core.haveSeq && s.core.attempts >= 1)
  }

  ghost predicate Inv(s: System) {
    Ordered(s) && ReceiptsAreHonest(s) && PushIsTracked(s)
  }

  lemma MintKeeps(s: System, core: Core)
    requires Ordered(s) && ReceiptsAreHonest(s)
    requires s.core.minted <= core.minted && |core.minted| <= |s.core.minted| + 1
    requires |core.minted| > |s.core.minted| ==> core.minted[|s.core.minted|].frame.number == TxSeq(s.core)
    ensures Ordered(s.(core := core)) && ReceiptsAreHonest(s.(core := core))
  {
    hide Count16;
  }

  lemma CredPosIsBookkeeping(s: System, p: nat)
    requires Ordered(s) && ReceiptsAreHonest(s)
    ensures Ordered(s.(credPos := p)) && ReceiptsAreHonest(s.(credPos := p))
  {
  }

  lemma CoreKeepsInv(s: System, e: Event, opens: seq<u8> -> bool)
    requires Inv(s) && Enabled(s, e) && (e.Send? || e.Push? || e.Poll? || e.DeliverAck?)
    ensures Inv(Apply(s, e, opens))
  {
    var t := Apply(s, e, opens);
    CoreMints(s, e, opens);
    CoreTracks(s, e, opens);
    MintKeeps(s, t.core);
    hide Ordered, ReceiptsAreHonest, PushIsTracked, Apply, Enabled;
    CredPosIsBookkeeping(s.(core := t.core), t.credPos);
    assert t == s.(core := t.core).(credPos := t.credPos);
  }

  lemma CoreMints(s: System, e: Event, opens: seq<u8> -> bool)
    requires Enabled(s, e) && (e.Send? || e.Push? || e.Poll? || e.DeliverAck?)
    ensures var t := Apply(s, e, opens);
            && t == s.(core := t.core).(credPos := t.credPos)
            && s.core.minted <= t.core.minted && |t.core.minted| <= |s.core.minted| + 1
            && (|t.core.minted| > |s.core.minted| ==> t.core.minted[|s.core.minted|].frame.number == TxSeq(s.core))
  {
    hide Count16, Encodable;
  }

  lemma CoreTracks(s: System, e: Event, opens: seq<u8> -> bool)
    requires PushIsTracked(s) && Enabled(s, e) && (e.Send? || e.Push? || e.Poll? || e.DeliverAck?)
    ensures PushIsTracked(Apply(s, e, opens))
  {
    hide Encodable;
    CoreMints(s, e, opens);
    hide Count16;
  }

  lemma DeliverKeepsOrder(s: System, i: nat, opens: seq<u8> -> bool)
    requires Ordered(s) && Enabled(s, Deliver(i))
    ensures Ordered(Apply(s, Deliver(i), opens))
  {
    var f := s.core.minted[i].frame;
    if s.head.have {
      GateComparesPositions(s.lastPos, i);
    }
    hide Applies, Count16, IsFreshSeq;
    if ClassifyRx(s.head.have, s.head.last, f.number).Fresh? && Applies(f, opens) {
      assert s.since != [] ==> s.since[|s.since| - 1] < i;
      hide Ordered;
      ExecutedKeepsOrder(s, Apply(s, Deliver(i), opens), i);
    }
  }

  lemma ExecutedKeepsOrder(s: System, t: System, i: nat)
    requires Ordered(s) && i < |s.core.minted| && (s.since != [] ==> s.since[|s.since| - 1] < i)
    requires t.core == s.core && t.since == s.since + [i] && t.ever == s.ever + {i}
    requires t.head.executed == s.head.executed + [s.core.minted[i].frame]
    requires t.head.have && t.lastPos == i && t.head.last == Count16(0, i)
    ensures Ordered(t)
  {
    hide Count16;
  }

  lemma DeliverKeepsReceipts(s: System, i: nat, opens: seq<u8> -> bool)
    requires Ordered(s) && ReceiptsAreHonest(s) && Enabled(s, Deliver(i))
    ensures ReceiptsAreHonest(Apply(s, Deliver(i), opens))
  {
    hide Applies, Count16, IsFreshSeq;
  }

  lemma StepKeepsInv(s: System, e: Event, opens: seq<u8> -> bool)
    requires Inv(s) && Enabled(s, e)
    ensures Inv(Apply(s, e, opens))
  {
    match e
    case Deliver(i) =>
      DeliverKeepsOrder(s, i, opens);
      DeliverKeepsReceipts(s, i, opens);
      hide Ordered, ReceiptsAreHonest, HandledCmd;
    case Associate =>
      hide Count16;
    case _ =>
      CoreKeepsInv(s, e, opens);
  }

  lemma {:induction false} RunKeepsInv(s: System, events: seq<Event>, opens: seq<u8> -> bool)
    requires Inv(s) && Admissible(s, events, opens)
    ensures Inv(Run(s, events, opens))
    decreases |events|
  {
    hide Inv, Enabled, Apply;
    if events != [] {
      StepKeepsInv(s, events[0], opens);
      RunKeepsInv(Apply(s, events[0], opens), events[1..], opens);
    }
  }

  lemma StartIsGood()
    ensures Inv(START)
  {
  }

  // ── Main results ──────────────────────────────────────────────────────────

  /** At most once and in order: whatever the network does within its horizon, the frames
    * executed in one association are those minted at strictly increasing positions, and
    * every receipt names an executed frame. */
  lemma CommandsAtMostOnceInOrder(events: seq<Event>, opens: seq<u8> -> bool)
    requires Admissible(START, events, opens)
    ensures var s := Run(START, events, opens);
            Increasing(s.since)
            && |s.since| <= |s.head.executed|
            && (forall k :: 0 <= k < |s.since| ==> s.since[k] < |s.core.minted|)
            && (forall k :: 0 <= k < |s.since| ==>
                 s.head.executed[|s.head.executed| - |s.since| + k] == s.core.minted[s.since[k]].frame)
    ensures var s := Run(START, events, opens);
            |s.receipts| == |s.head.acked|
            && forall k :: 0 <= k < |s.receipts| ==>
                 s.receipts[k].pos in s.ever && s.head.acked[k] == Count16(0, s.receipts[k].pos)
  {
    StartIsGood();
    RunKeepsInv(START, events, opens);
  }

  /** A redelivered frame that the head acknowledges again was executed in this association
    * exactly when fewer than 2^16 numbers were minted since the last accepted one. */
  lemma ReAckIsTruthful(s: System, i: nat)
    requires Inv(s) && Enabled(s, Deliver(i)) && s.head.have
    requires ClassifyRx(true, s.head.last, s.core.minted[i].frame.number).Duplicate?
    ensures i in s.since <==> i < s.lastPos + 0x1_0000
    ensures i in s.since <==> i == s.lastPos
  {
    GateComparesPositions(s.lastPos, i);
    hide ClassifyRx, Count16;
    if i in s.since {
      var k :| 0 <= k < |s.since| && s.since[k] == i;
      assert i <= s.lastPos;
    }
  }

  /** Does this acknowledgement confirm the pending push? */
  predicate Confirms(s: System, e: Event)
    requires Enabled(s, e)
  {
    e.DeliverAck? && s.core.armed && !s.core.confirmed && s.core.haveSeq
    && s.receipts[e.k].number == s.core.credSeq
  }

  /** An acknowledgement with the pending push's number was sent for that very push exactly
    * when the frame it was sent for lies fewer than 2^16 mints away from the push. */
  lemma ConfirmationIsOwnIff(s: System, k: nat)
    requires Inv(s) && Enabled(s, DeliverAck(k))
    requires s.core.haveSeq && s.receipts[k].number == s.core.credSeq
    ensures s.credPos == s.receipts[k].pos <==> -0x1_0000 < s.credPos - s.receipts[k].pos < 0x1_0000
  {
    DifferenceOfCounts(s.receipts[k].pos, s.credPos);
    hide Count16;
    if -0x1_0000 < s.credPos - s.receipts[k].pos < 0x1_0000 {
      SmallMultiple(s.credPos - s.receipts[k].pos);
    }
  }

  /** A confirming acknowledgement, if this is one, is that near. */
  predicate Near(s: System, e: Event)
    requires Enabled(s, e)
  {
    Confirms(s, e) ==> -0x1_0000 < s.credPos - s.receipts[e.k].pos < 0x1_0000
  }

  predicate AllNear(s: System, events: seq<Event>, opens: seq<u8> -> bool)
    requires Admissible(s, events, opens)
    decreases |events|
  {
    events == []
    || (Near(s, events[0]) && AllNear(Apply(s, events[0], opens), events[1..], opens))
  }

  ghost predicate ConfirmedWasExecuted(s: System) {
    s.core.confirmed ==> s.credPos in s.ever
  }

  lemma SmallMultiple(d: int)
    requires -0x1_0000 < d < 0x1_0000 && d % 0x1_0000 == 0
    ensures d == 0
  {
  }

  lemma NearStep(s: System, e: Event, opens: seq<u8> -> bool)
    requires Inv(s) && ConfirmedWasExecuted(s) && Enabled(s, e) && Near(s, e)
    ensures ConfirmedWasExecuted(Apply(s, e, opens))
  {
    match e
    case DeliverAck(k) =>
      if Confirms(s, e) {
        ConfirmationIsOwnIff(s, k);
      }
    case _ =>
      hide Count16, Encodable, Applies, IsFreshSeq;
  }

  lemma {:induction false} NearRun(s: System, events: seq<Event>, opens: seq<u8> -> bool)
    requires Inv(s) && ConfirmedWasExecuted(s)
    requires Admissible(s, events, opens) && AllNear(s, events, opens)
    ensures ConfirmedWasExecuted(Run(s, events, opens))
    decreases |events|
  {
    hide Inv, Enabled, Apply, Near, ConfirmedWasExecuted;
    if events != [] {
      StepKeepsInv(s, events[0], opens);
      NearStep(s, events[0], opens);
      NearRun(Apply(s, events[0], opens), events[1..], opens);
    }
  }

  /** A confirmed push reached the head: its latest attempt, one of at most five, was
    * executed, hence opened under the key and handed to the store, and it carries the
    * operation the portal asked for. */
  lemma ConfirmedPushWasStored(events: seq<Event>, opens: seq<u8> -> bool)
    requires Admissible(START, events, opens) && AllNear(START, events, opens)
    requires Run(START, events, opens).core.confirmed
    ensures var s := Run(START, events, opens);
            s.credPos in s.ever && s.credPos < |s.core.minted| && 1 <= s.core.attempts <= MAX_ATTEMPTS
            && s.core.minted[s.credPos].purpose == PurposeOf(s.core.clear)
            && s.core.minted[s.credPos].frame.kind == TYPE_WIFI_CREDS
            && opens(s.core.minted[s.credPos].frame.payload)
  {
    StartIsGood();
    RunKeepsInv(START, events, opens);
    NearRun(START, events, opens);
    EverApplied(START, events, opens);
    hide *;
    ConfirmedMeans(Run(START, events, opens), opens);
  }

  lemma ConfirmedMeans(s: System, opens: seq<u8> -> bool)
    requires Inv(s) && ConfirmedWasExecuted(s) && ExecutedApplies(s, opens) && s.core.confirmed
    ensures s.credPos in s.ever && s.credPos < |s.core.minted| && 1 <= s.core.attempts <= MAX_ATTEMPTS
    ensures s.core.minted[s.credPos].purpose == PurposeOf(s.core.clear)
    ensures s.core.minted[s.credPos].frame.kind == TYPE_WIFI_CREDS
    ensures opens(s.core.minted[s.credPos].frame.payload)
  {
    hide Ordered, ReceiptsAreHonest, Count16;
    assert Applies(s.core.minted[s.credPos].frame, opens);
  }

  /** Whatever was ever executed could be applied. */
  ghost predicate ExecutedApplies(s: System, opens: seq<u8> -> bool) {
    forall p :: p in s.ever ==> p < |s.core.minted| && Applies(s.core.minted[p].frame, opens)
  }

  lemma StepApplies(s: System, e: Event, opens: seq<u8> -> bool)
    requires ExecutedApplies(s, opens) && Enabled(s, e)
    ensures ExecutedApplies(Apply(s, e, opens), opens)
  {
    if e.Send? || e.Push? || e.Poll? || e.DeliverAck? {
      CoreMints(s, e, opens);
      assert Apply(s, e, opens).ever == s.ever;
    }
    hide Applies, IsFreshSeq, Encodable, Count16;
  }

  lemma {:induction false} EverApplied(s: System, events: seq<Event>, opens: seq<u8> -> bool)
    requires ExecutedApplies(s, opens) && Admissible(s, events, opens)
    ensures ExecutedApplies(Run(s, events, opens), opens)
    decreases |events|
  {
    if events != [] {
      StepApplies(s, events[0], opens);
      hide Apply, Enabled, ExecutedApplies;
      EverApplied(Apply(s, events[0], opens), events[1..], opens);
    }
  }

  // ── Timing that keeps acknowledgements near ───────────────────────────────

  /** The head re-acknowledges, and the push it confirms was sent, within 2^15 mints. */
  predicate InTime(s: System, e: Event)
    requires Enabled(s, e)
  {
    && (e.Deliver? && ClassifyRx(s.head.have, s.head.last, s.core.minted[e.i].frame.number).Duplicate? ==>
          |s.core.minted| <= s.lastPos + HORIZON)
    && (Confirms(s, e) ==> |s.core.minted| <= s.credPos + HORIZON)
  }

  predicate Timely(s: System, events: seq<Event>, opens: seq<u8> -> bool)
    requires Admissible(s, events, opens)
    decreases |events|
  {
    events == []
    || (InTime(s, events[0]) && Timely(Apply(s, events[0], opens), events[1..], opens))
  }

  /** In timely runs receipts leave the head within the horizon of the frame they name. */
  ghost predicate ReceiptsAreRecent(s: System) {
    forall k :: 0 <= k < |s.receipts| ==> s.receipts[k].at <= s.receipts[k].pos + HORIZON
  }

  lemma TimelyStep(s: System, e: Event, opens: seq<u8> -> bool)
    requires Inv(s) && ReceiptsAreRecent(s) && Enabled(s, e) && InTime(s, e)
    ensures ReceiptsAreRecent(Apply(s, e, opens)) && Near(s, e)
  {
    hide Count16, Encodable, Applies, IsFreshSeq;
  }

  /** Timing is enough: the head may be idle for as long as it likes, as long as what it
    * re-acknowledges and what is confirmed is at most 2^15 mints old. */
  lemma {:induction false} TimelyIsNear(s: System, events: seq<Event>, opens: seq<u8> -> bool)
    requires Inv(s) && ReceiptsAreRecent(s)
    requires Admissible(s, events, opens) && Timely(s, events, opens)
    ensures AllNear(s, events, opens)
    decreases |events|
  {
    hide Inv, Enabled, Apply, ReceiptsAreRecent, InTime, Near;
    if events != [] {
      StepKeepsInv(s, events[0], opens);
      TimelyStep(s, events[0], opens);
      TimelyIsNear(Apply(s, events[0], opens), events[1..], opens);
    }
  }

  // ── Why nearness is needed ────────────────────────────────────────────────

  /** n heartbeat receipts from the core: they spend numbers but are not gated. */
  function Heartbeats(n: nat): seq<Event> {
    if n == 0 then [] else [Send(TYPE_HB_ACK, [0, 0, 0, 0, 0], true)] + Heartbeats(n - 1)
  }

  lemma {:induction false} HeartbeatsOnlySpendNumbers(s: System, n: nat, opens: seq<u8> -> bool)
    ensures Admissible(s, Heartbeats(n), opens)
    ensures var t := Run(s, Heartbeats(n), opens);
            |t.core.minted| == |s.core.minted| + n && t == s.(core := s.core.(minted := t.core.minted))
    decreases n
  {
    if n > 0 {
      var e := Send(TYPE_HB_ACK, [0, 0, 0, 0, 0], true);
      assert Heartbeats(n)[0] == e && Heartbeats(n)[1..] == Heartbeats(n - 1);
      HeartbeatsOnlySpendNumbers(Apply(s, e, opens), n - 1, opens);
    }
  }

  lemma {:induction false} RunConcat(s: System, a: seq<Event>, b: seq<Event>, opens: seq<u8> -> bool)
    requires Admissible(s, a, opens) && Admissible(Run(s, a, opens), b, opens)
    ensures Admissible(s, a + b, opens) && Run(s, a + b, opens) == Run(Run(s, a, opens), b, opens)
    decreases |a|
  {
    hide Enabled, Apply;
    if a == [] {
      assert a + b == b;
    } else {
      assert (a + b)[0] == a[0] && (a + b)[1..] == a[1..] + b;
      RunConcat(Apply(s, a[0], opens), a[1..], b, opens);
    }
  }

  lemma RunOne(s: System, e: Event, opens: seq<u8> -> bool)
    requires Enabled(s, e)
    ensures Admissible(s, [e], opens) && Run(s, [e], opens) == Apply(s, e, opens)
  {
    hide Enabled, Apply;
    assert [e][1..] == [];
    var t := Apply(s, e, opens);
    assert Admissible(t, [], opens) && Run(t, [], opens) == t;
    assert Admissible(s, [e], opens);
  }

  lemma RunThree(s: System, a: Event, b: Event, c: Event, opens: seq<u8> -> bool)
    requires Enabled(s, a) && Enabled(Apply(s, a, opens), b)
    requires Enabled(Apply(Apply(s, a, opens), b, opens), c)
    ensures Admissible(s, [a, b, c], opens)
    ensures Run(s, [a, b, c], opens) == Apply(Apply(Apply(s, a, opens), b, opens), c, opens)
  {
    hide Enabled, Apply;
    assert [a, b, c][1..] == [b, c] && [b, c][1..] == [c];
    var s1, s2 := Apply(s, a, opens), Apply(Apply(s, a, opens), b, opens);
    RunOne(s2, c, opens);
    assert Admissible(s1, [b, c], opens) && Run(s1, [b, c], opens) == Run(s2, [c], opens);
    assert Run(s, [a, b, c], opens) == Run(s1, [b, c], opens);
  }

  /** One expression accepted, then 65535 heartbeat receipts and no other command: the next
    * credential push reuses the accepted number, is acknowledged as a duplicate and reported
    * confirmed, although the head cannot even open it. */
  lemma StaleTurnConfirmsFalsely()
    ensures exists events, opens ::
              Admissible(START, events, opens) && Run(START, events, opens).core.confirmed
              && Run(START, events, opens).credPos !in Run(START, events, opens).ever
  {
    var opens := (p: seq<u8>) => false;
    var events := StaleTurn(65535, opens);
  }

  lemma StaleTurn(n: nat, opens: seq<u8> -> bool) returns (events: seq<Event>)
    requires n == 65535
    ensures Admissible(START, events, opens)
    ensures Run(START, events, opens).core.confirmed
    ensures Run(START, events, opens).credPos !in Run(START, events, opens).ever
  {
    var push := Push(false, true, seq(30, _ => 0), true, 0);
    var first := FirstCommand(opens);
    hide *;
    var s1 := Run(START, first, opens);
    HeartbeatsOnlySpendNumbers(s1, n, opens);
    var s2 := Run(s1, Heartbeats(n), opens);
    FalseConfirmation(s2, push, opens);
    var last := [push, Deliver(65536), DeliverAck(1)];
    RunThree(s2, push, Deliver(65536), DeliverAck(1), opens);
    RunConcat(START, first, Heartbeats(n), opens);
    RunConcat(START, first + Heartbeats(n), last, opens);
    events := first + Heartbeats(n) + last;
  }

  lemma FirstCommand(opens: seq<u8> -> bool) returns (events: seq<Event>)
    ensures Admissible(START, events, opens)
    ensures var s := Run(START, events, opens);
            |s.core.minted| == 1 && s.head.have && s.head.last == 0 && s.lastPos == 0 && s.ever == {0}
            && |s.receipts| == 1 && !s.core.confirmed
  {
    var e0 := Send(TYPE_EXPR, [0], true);
    events := [e0, Deliver(0)];
    var s0 := Apply(START, e0, opens);
    assert events[1..] == [Deliver(0)] && [Deliver(0)][1..] == [];
    assert Admissible(s0, [Deliver(0)], opens);
  }

  lemma FalseConfirmation(s: System, push: Event, opens: seq<u8> -> bool)
    requires push == Push(false, true, seq(30, _ => 0), true, 0)
    requires |s.core.minted| == 65536 && s.head.have && s.head.last == 0 && s.lastPos == 0
    requires s.ever == {0} && |s.receipts| == 1
    ensures Enabled(s, push)
    ensures Enabled(Apply(s, push, opens), Deliver(65536))
    ensures Enabled(Apply(Apply(s, push, opens), Deliver(65536), opens), DeliverAck(1))
    ensures var t := Apply(Apply(Apply(s, push, opens), Deliver(65536), opens), DeliverAck(1), opens);
            t.core.confirmed && t.credPos == 65536 && t.ever == {0}
  {
  }

  // ── What is applied, and when a push is sent again ────────────────────────

  /** The head applies exactly the well-formed frames of the command types, with these contents. */
  lemma AppliesIff(f: Frame, opens: seq<u8> -> bool)
    ensures Applies(f, opens) <==>
            && IsValidPayloadLen(f.kind, |f.payload|)
            && f.kind in {0x02, 0x03, 0x05, 0x06, 0x07, 0x08, 0x09}
            && (f.kind == 0x02 ==> f.payload[0] <= 2) && (f.kind == 0x03 ==> f.payload[0] <= 1)
            && (f.kind == 0x06 ==> forall i :: 0 <= i < 6 ==> '0' as int <= f.payload[i] <= '9' as int)
            && (f.kind == 0x09 ==> opens(f.payload))
  {
  }

  /** Is a poll at this time to send again? */
  predicate Due(c: Core, now: u32) {
    c.armed && !c.confirmed && c.attempts < 5 && (now as int - c.lastTry as int) % 0x1_0000_0000 >= 1000
  }

  /** All of a poll: it tries again exactly when that is due, spends a number exactly when the try
    * gets as far as minting a frame, awaits that number exactly when the frame left, and gives up
    * exactly after a fifth try without confirmation. */
  lemma PollIs(c: Core, ready: bool, sealed: seq<u8>, radio: bool, now: u32)
    ensures var d := AfterPoll(c, ready, sealed, radio, now);
            var mints := Due(c, now) && ready && |sealed| <= 128;
            && d.attempts == c.attempts + (if Due(c, now) then 1 else 0)
            && d.lastTry == (if Due(c, now) then now else c.lastTry)
            && (d.armed <==> c.armed && (c.confirmed || c.attempts < 5))
            && d.confirmed == c.confirmed && d.clear == c.clear
            && (!mints ==> d.minted == c.minted && d.haveSeq == c.haveSeq && d.credSeq == c.credSeq)
            && (mints ==>
                  && |d.minted| == |c.minted| + 1 && d.minted[..|c.minted|] == c.minted
                  && var m := d.minted[|c.minted|];
                     && m.frame == Frame(TYPE_WIFI_CREDS, TxSeq(c), 0, 1, sealed)
                     && m.purpose == (if c.clear then ClearCreds else StoreCreds)
                     && (m.sent <==> radio && 30 <= |sealed| <= 126)
                     && (m.sent ==> d.haveSeq && d.credSeq == m.frame.number)
                     && (!m.sent ==> d.haveSeq == c.haveSeq && d.credSeq == c.credSeq))
  {
    SinceIsRemainder(c.lastTry, now);
    hide Since, Count16;
  }

  lemma SinceIsRemainder(before: u32, now: u32)
    ensures Since(before, now) == (now as int - before as int) % 0x1_0000_0000
  {
  }

  /** Polls at times counted without wrap-around. */
  datatype PollAt = PollAt(ready: bool, sealed: seq<u8>, radio: bool, at: nat)

  function Polled(c: Core, ps: seq<PollAt>): Core
    decreases |ps|
  {
    if ps == [] then c
    else Polled(AfterPoll(c, ps[0].ready, ps[0].sealed, ps[0].radio, ps[0].at % 0x1_0000_0000), ps[1..])
  }

  /** Each poll comes at least a second after the one before, and within 2^32 ms. */
  predicate SecondApart(from: nat, ps: seq<PollAt>)
    decreases |ps|
  {
    ps != [] ==> from + 1000 <= ps[0].at < from + 0x1_0000_0000 && SecondApart(ps[0].at, ps[1..])
  }

  lemma PollAfter(before: nat, at: nat)
    requires before <= at < before + 0x1_0000_0000
    ensures ((at % 0x1_0000_0000) as int - (before % 0x1_0000_0000) as int) % 0x1_0000_0000 == at - before
  {
    var a, b := before / 0x1_0000_0000, at / 0x1_0000_0000;
    assert at - before == 0x1_0000_0000 * (b - a) + (at % 0x1_0000_0000 - before % 0x1_0000_0000);
  }

  /** A push nobody confirms is tried once a second, five times in all, and then given up. */
  lemma {:induction false} PushIsGivenUp(c: Core, from: nat, ps: seq<PollAt>)
    requires c.armed && !c.confirmed && c.attempts <= 5 && c.lastTry == from % 0x1_0000_0000
    requires SecondApart(from, ps)
    ensures var d := Polled(c, ps);
            && d.attempts == (if c.attempts + |ps| <= 5 then c.attempts + |ps| else 5)
            && (d.armed <==> c.attempts + |ps| <= 5) && !d.confirmed
    decreases |ps|
  {
    if ps != [] {
      var p := ps[0];
      PollAfter(from, p.at);
      PollIs(c, p.ready, p.sealed, p.radio, p.at % 0x1_0000_0000);
      var d := AfterPoll(c, p.ready, p.sealed, p.radio, p.at % 0x1_0000_0000);
      hide AfterPoll;
      if c.attempts < 5 {
        PushIsGivenUp(d, p.at, ps[1..]);
      } else {
        Disarmed(d, ps[1..]);
      }
    }
  }

  lemma {:induction false} Disarmed(c: Core, ps: seq<PollAt>)
    requires !c.armed
    ensures Polled(c, ps) == c
    decreases |ps|
  {
    if ps != [] {
      Disarmed(c, ps[1..]);
    }
  }

  predicate InTurn(from: nat, start: nat, ps: seq<PollAt>)
    decreases |ps|
  {
    ps != [] ==> from <= ps[0].at < start + 0x1_0000_0000 && InTurn(ps[0].at, start, ps[1..])
  }

  /** However often it is polled, the tries lie at least a second apart: the last of n tries came at
    * least n - 1 seconds after the first. */
  lemma {:induction false} TriesAreSpaced(c: Core, start: nat, tried: nat, from: nat, ps: seq<PollAt>)
    returns (last: nat)
    requires c.attempts >= 1 && c.lastTry == tried % 0x1_0000_0000
    requires start + 1000 * (c.attempts - 1) <= tried <= from < start + 0x1_0000_0000 && InTurn(from, start, ps)
    ensures Polled(c, ps).lastTry == last % 0x1_0000_0000
    ensures start + 1000 * (Polled(c, ps).attempts - 1) <= last
    ensures Polled(c, ps).attempts <= (if c.attempts <= 5 then 5 else c.attempts)
    decreases |ps|
  {
    if ps == [] {
      last := tried;
    } else {
      var p := ps[0];
      PollAfter(tried, p.at);
      PollIs(c, p.ready, p.sealed, p.radio, p.at % 0x1_0000_0000);
      var d := AfterPoll(c, p.ready, p.sealed, p.radio, p.at % 0x1_0000_0000);
      hide AfterPoll;
      last := TriesAreSpaced(d, start, if Due(c, p.at % 0x1_0000_0000) then p.at else tried, p.at, ps[1..]);
    }
  }

  /** A relayed store or clear arms a fresh push exactly when its first datagram left, and then
    * awaits that datagram's number; otherwise an earlier push goes on as it was. */
  lemma PushIs(c: Core, clear: bool, ready: bool, sealed: seq<u8>, radio: bool, now: u32)
    ensures var d := AfterPush(c, clear, ready, sealed, radio, now);
            if ready && radio && 30 <= |sealed| <= 126 then
              d == Core(c.minted + [Mint(Frame(TYPE_WIFI_CREDS, TxSeq(c), 0, 1, sealed), true, PurposeOf(clear))],
                        true, false, clear, true, TxSeq(c), 1, now)
            else d.(minted := c.minted) == c && |d.minted| == |c.minted| + (if ready && |sealed| <= 128 then 1 else 0)
  {
    hide Count16;
  }

  // ── A frame that arrives ──────────────────────────────────────────────────

  /** All a frame can do at the head: the number accepted last is acknowledged again; one up to
    * 32767 further on, or the first of an association, is applied and acknowledged if it can be;
    * anything else changes nothing. */
  lemma CommandIs(h: Head, f: Frame, opens: seq<u8> -> bool)
    ensures var further := (f.number as int - h.last as int) % 0x1_0000;
            HandledCmd(h, f, opens) ==
            if h.have && further == 0 then h.(acked := h.acked + [f.number])
            else if (!h.have || further < 0x8000) && Applies(f, opens)
            then Head(true, f.number, h.executed + [f], h.acked + [f.number])
            else h
  {
    hide Applies;
  }

  function HandledAll(h: Head, fs: seq<Frame>, opens: seq<u8> -> bool): Head
    decreases |fs|
  {
    if fs == [] then h else HandledAll(HandledCmd(h, fs[0], opens), fs[1..], opens)
  }

  /** Frames the head can apply, numbered on from one it accepted. */
  predicate InStep(last: u16, fs: seq<Frame>, opens: seq<u8> -> bool)
    decreases |fs|
  {
    fs != [] ==>
      Applies(fs[0], opens) && fs[0].number == (last + 1) % 0x1_0000 && InStep(fs[0].number, fs[1..], opens)
  }

  /** Frames that come in turn are all applied and all acknowledged, however many. */
  lemma {:induction false} CommandsGoThrough(h: Head, fs: seq<Frame>, opens: seq<u8> -> bool)
    requires h.have && InStep(h.last, fs, opens)
    ensures var t := HandledAll(h, fs, opens);
            && t.executed == h.executed + fs && |t.acked| == |h.acked| + |fs|
            && t.acked[..|h.acked|] == h.acked
            && forall i :: 0 <= i < |fs| ==> t.acked[|h.acked| + i] == fs[i].number
    decreases |fs|
  {
    hide Applies;
    if fs != [] {
      var f := fs[0];
      CommandIs(h, f, opens);
      var d := HandledCmd(h, f, opens);
      hide HandledCmd;
      assert d.executed == h.executed + [f] && d.acked == h.acked + [f.number];
      CommandsGoThrough(d, fs[1..], opens);
      assert h.executed + [f] + fs[1..] == h.executed + fs;
    }
  }

  /** A push that leaves and is opened by a head whose gate lets its number in is executed with its
    * bytes, and confirmed by the receipt, whether the first or a repeated one; by no other number. */
  lemma PushIsConfirmed(c: Core, h: Head, clear: bool, sealed: seq<u8>, now: u32, opens: seq<u8> -> bool, other: u16)
    requires 30 <= |sealed| <= 126 && opens(sealed)
    requires !h.have || 0 < (TxSeq(c) as int - h.last as int) % 0x1_0000 < 0x8000
    ensures var d := AfterPush(c, clear, true, sealed, true, now);
            var f := Frame(TYPE_WIFI_CREDS, TxSeq(c), 0, 1, sealed);
            var t := HandledCmd(h, f, opens);
            && d.minted == c.minted + [Mint(f, true, PurposeOf(clear))]
            && t.executed == h.executed + [f] && t.acked == h.acked + [f.number]
            && HandledCmd(t, f, opens) == t.(acked := t.acked + [f.number])
            && AfterAck(d, f.number) == d.(confirmed := true, armed := false)
            && (other != f.number ==> AfterAck(d, other) == d)
  {
    var f := Frame(TYPE_WIFI_CREDS, TxSeq(c), 0, 1, sealed);
    PushIs(c, clear, true, sealed, true, now);
    CommandIs(h, f, opens);
    CommandIs(HandledCmd(h, f, opens), f, opens);
    hide HandledCmd, AfterPush, Count16;
  }
}
