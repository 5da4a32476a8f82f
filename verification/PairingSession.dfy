/** The robot's pairing session and its persisted copy.
  *
  * HMAC and HKDF are ideal: a tag is the pair of key and message, a derived key the pair of
  * parent key and era. Flash writes either land whole or not at all, which the caller's
  * `saves` flags decide. A handler is a sequence of effects on flash, on RAM and on the
  * outside, and power may fail between any two of them.
  */
module PairingSession {
  import opened PairingTags
  import opened Words
  import W = PairWindow

  datatype Key = Blank | Root(id: nat) | Next(prev: Key, era: u16)

  function RootOf(k: Key): Option<nat> {
    match k
    case Blank => None
    case Root(id) => Some(id)
    case Next(prev, _) => RootOf(prev)
  }

  function Depth(k: Key): nat {
    if k.Next? then Depth(k.prev) + 1 else 0
  }

  datatype Mac = Mac(key: Key, message: seq<u8>)

  function Sign(key: Key, c: Claim): Mac {
    Mac(key, TagMessage(c))
  }

  const PERSIST_EVERY := 128
  const REDELIVERY_MS := 60_000
  const HALF_RANGE := 0x8000_0000

  /** The pair as flash holds it. */
  datatype Stored = Stored(psk: Key, counter: u32, era: u16)

  /** The answer kept for a repeated pairing request. */
  datatype Cached = Cached(code: seq<u8>, nonce: seq<u8>, key: Key, at: u32)

  datatype Robot = Robot(paired: bool, psk: Key, era: u16, counter: u32, validCount: u32,
                         lastPair: Option<Cached>, nvs: Option<Stored>)

  datatype Reply =
    | Silent
    | PairErr(reason: u8, retrySeconds: u8)
    | PairOk(key: Key)
    | Redelivered(key: Key)
    | Ack(era: u16, tag: Mac)
    | Verified(claim: Claim)
    | Farewell(era: u16, counter: u32, tag: Mac)

  // ── Freshness ─────────────────────────────────────────────────────────────

  predicate IsFresh(last: u32, got: u32) {
    got != last && Since(last, got) < HALF_RANGE
  }

  function NextEra(era: u16): u16 {
    (era + 1) % 0x1_0000
  }

  // ── What each handler does ────────────────────────────────────────────────

  /** Frames that spend a counter and leave the session as it is. */
  predicate Consuming(c: Claim) {
    !c.Unpair? && !c.Refresh? && !c.RefreshAck?
  }

  predicate EraOk(r: Robot, c: Claim)
    requires Consuming(c)
  {
    c.Drive? || c.era == r.era
  }

  predicate Accepts(r: Robot, c: Claim, tag: Mac) {
    Consuming(c) && r.paired && EraOk(r, c) && IsFresh(r.counter, c.counter) && tag == Sign(r.psk, c)
  }

  function Spent(r: Robot, counter: u32, saves: bool): Robot {
    var n := (r.validCount + 1) % 0x1_0000_0000;
    r.(counter := counter, validCount := n,
       nvs := if n % PERSIST_EVERY == 0 && saves && r.nvs.Some? then Some(r.nvs.value.(counter := counter)) else r.nvs)
  }

  function Consumed(r: Robot, c: Claim, tag: Mac, saves: bool): (Robot, Reply)
    requires Consuming(c)
  {
    if Accepts(r, c, tag) then (Spent(r, c.counter, saves), Verified(c)) else (r, Silent)
  }

  function Cleared(r: Robot, clears: bool): Robot {
    r.(paired := false, psk := Blank, era := 0, counter := 0, lastPair := None, nvs := if clears then None else r.nvs)
  }

  function Unpaired(r: Robot, counter: u32, tag: Mac, clears: bool): (Robot, Reply) {
    if r.paired && IsFresh(r.counter, counter) && tag == Sign(r.psk, Unpair(counter))
    then (Cleared(r, clears), Verified(Unpair(counter)))
    else (r, Silent)
  }

  function AckFor(r: Robot): Reply {
    Ack(r.era, Sign(r.psk, RefreshAck(r.era)))
  }

  predicate AdmitsRefresh(r: Robot, era: u16, counter: u32, tag: Mac) {
    && r.paired
    && era != r.era && era == NextEra(r.era)
    && IsFresh(r.counter, counter)
    && tag == Sign(r.psk, Refresh(era, counter))
  }

  function Rotated(r: Robot, era: u16): Robot {
    r.(psk := Next(r.psk, era), era := era, counter := 0, validCount := 0,
       nvs := Some(Stored(Next(r.psk, era), 0, era)))
  }

  function Refreshed(r: Robot, era: u16, counter: u32, tag: Mac, saves: bool): (Robot, Reply) {
    if r.paired && era == r.era then (r, AckFor(r))
    else if !AdmitsRefresh(r, era, counter, tag) || !saves then (r, Silent)
    else (Rotated(r, era), AckFor(Rotated(r, era)))
  }

  predicate Redelivers(r: Robot, code: seq<u8>, nonce: seq<u8>, now: u32) {
    && r.lastPair.Some?
    && r.lastPair.value.code == code
    && r.lastPair.value.nonce == nonce
    && Since(r.lastPair.value.at, now) < REDELIVERY_MS
  }

  function Reason(v: W.Result): u8
    requires !v.Accepted?
  {
    match v
    case BadCode => 0
    case Locked => 1
    case NotInWindow => 2
    case AlreadyPaired => 3
    case Internal => 4
  }

  function Joined(r: Robot, code: seq<u8>, nonce: seq<u8>, key: Key, now: u32): Robot {
    Robot(true, key, 0, 0, r.validCount, Some(Cached(code, nonce, key, now)), Some(Stored(key, 0, 0)))
  }

  /** The verdict is the window's, reached only while unpaired. */
  function PairAsked(r: Robot, code: seq<u8>, nonce: seq<u8>, verdict: W.Result, key: Key,
                     saves: bool, wraps: bool, now: u32): (Robot, Reply)
  {
    if r.paired && Redelivers(r, code, nonce, now) then (r, Redelivered(r.lastPair.value.key))
    else if r.paired then (r, PairErr(Reason(W.AlreadyPaired), 0))
    else if !verdict.Accepted? then (r, PairErr(Reason(verdict), if verdict.Locked? then 30 else 0))
    else if !saves then (r, PairErr(Reason(W.Internal), 0))
    else if !wraps then (r.(nvs := Some(Stored(key, 0, 0))), PairErr(Reason(W.Internal), 0))
    else (Joined(r, code, nonce, key, now), PairOk(key))
  }

  /** The pair button's goodbye, when there is a peer to tell, and the cleared session. */
  function Evicted(r: Robot, farewell: Option<u32>, clears: bool): (Robot, Reply) {
    (Cleared(r, clears).(validCount := 0),
     if r.paired && farewell.Some? then FarewellOf(r, farewell.value) else Silent)
  }

  function FarewellOf(r: Robot, counter: u32): Reply {
    Farewell(r.era, counter, Sign(r.psk, Disconnect(r.era, counter)))
  }

  /** What RAM holds before anything is restored. */
  function Booted(nvs: Option<Stored>): Robot {
    Robot(false, Blank, 0, 0, 0, None, nvs)
  }

  function Restored(r: Robot, readable: bool): Robot {
    if readable && r.nvs.Some?
    then r.(paired := true, psk := r.nvs.value.psk, era := r.nvs.value.era, counter := r.nvs.value.counter,
            lastPair := None)
    else r.(paired := false, era := 0, counter := 0, lastPair := None)
  }

  // ── Effects, in the order a handler has them ──────────────────────────────

  datatype Event =
    | Frame(claim: Claim, tag: Mac, saves: bool)
    | Goodbye(counter: u32, tag: Mac, clears: bool)
    | RefreshReq(era: u16, counter: u32, tag: Mac, saves: bool)
    | PairReq(code: seq<u8>, nonce: seq<u8>, verdict: W.Result, key: Key, saves: bool, wraps: bool, now: u32)
    | Evict(farewell: Option<u32>, clears: bool)

  datatype Ram = Ram(paired: bool, psk: Key, era: u16, counter: u32, validCount: u32, lastPair: Option<Cached>)

  /** A completed flash write, a change of RAM, or a reply handed to the radio (an accepted
    * frame, to its caller). */
  datatype Effect = Write(nvs: Option<Stored>) | SetRam(ram: Ram) | Emit(reply: Reply)

  function RamOf(r: Robot): Ram {
    Ram(r.paired, r.psk, r.era, r.counter, r.validCount, r.lastPair)
  }

  function WithRam(r: Robot, m: Ram): Robot {
    Robot(m.paired, m.psk, m.era, m.counter, m.validCount, m.lastPair, r.nvs)
  }

  function Did(r: Robot, x: Effect): Robot {
    match x
    case Write(nvs) => r.(nvs := nvs)
    case SetRam(m) => WithRam(r, m)
    case Emit(_) => r
  }

  function Perform(r: Robot, xs: seq<Effect>): Robot {
    if xs == [] then r else Did(Perform(r, xs[..|xs| - 1]), xs[|xs| - 1])
  }

  /** The last reply among some effects. */
  function Emitted(xs: seq<Effect>): Reply {
    if xs == [] then Silent
    else if xs[|xs| - 1].Emit? then xs[|xs| - 1].reply
    else Emitted(xs[..|xs| - 1])
  }

  /** The counter in RAM first, then, every 128th time, in flash. */
  function SpendEffects(r: Robot, counter: u32, saves: bool): seq<Effect> {
    var t := Spent(r, counter, saves);
    [SetRam(RamOf(t))] + (if t.validCount % PERSIST_EVERY == 0 && saves && r.nvs.Some? then [Write(t.nvs)] else [])
  }

  /** RAM first, then flash. */
  function ClearEffects(r: Robot, clears: bool): seq<Effect> {
    [SetRam(RamOf(Cleared(r, clears).(validCount := 0)))] + (if clears then [Write(None)] else [])
  }

  function Effects(r: Robot, e: Event): seq<Effect> {
    match e
    case Frame(c, tag, saves) =>
      if Accepts(r, c, tag) then SpendEffects(r, c.counter, saves) + [Emit(Verified(c))] else []
    case Goodbye(counter, tag, clears) =>
      if !Unpaired(r, counter, tag, clears).1.Verified? then []
      else (if clears then [Write(None)] else []) + [SetRam(RamOf(Cleared(r, clears))), Emit(Verified(Unpair(counter)))]
    case RefreshReq(era, counter, tag, saves) =>
      if r.paired && era == r.era then [Emit(AckFor(r))]
      else if !AdmitsRefresh(r, era, counter, tag) || !saves then []
      else [Write(Rotated(r, era).nvs), SetRam(RamOf(Rotated(r, era))), Emit(AckFor(Rotated(r, era)))]
    case PairReq(code, nonce, verdict, key, saves, wraps, now) =>
      var (t, reply) := PairAsked(r, code, nonce, verdict, key, saves, wraps, now);
      if reply.PairOk? then [Write(t.nvs), Emit(reply), SetRam(RamOf(t))]
      else if !r.paired && verdict.Accepted? && saves then [Write(t.nvs), Emit(reply)]
      else [Emit(reply)]
    case Evict(farewell, clears) =>
      (if r.paired && farewell.Some? then [Emit(FarewellOf(r, farewell.value))] else []) + ClearEffects(r, clears)
  }

  /** The code gate beside the session: what each handler leaves of it. A right code joins it
    * before anything is saved. */
  function GateAfter(r: Robot, g: W.Gate, e: Event): W.Gate {
    match e
    case Frame(_, _, _) => g
    case Goodbye(counter, tag, clears) => if Unpaired(r, counter, tag, clears).1.Verified? then W.Forgotten(g) else g
    case RefreshReq(era, counter, tag, saves) =>
      if AdmitsRefresh(r, era, counter, tag) && saves then g.(era := era) else g
    case PairReq(code, _, _, _, _, _, now) => if r.paired then g else W.Attempted(g, code, now).0
    case Evict(_, _) => W.Forgotten(g)
  }

  lemma JoinTwice(g: W.Gate, code: seq<u8>, now: u32)
    ensures var (h, result) := W.Attempted(g, code, now);
            result.Accepted? ==> W.Joined(h, now) == h
  {
  }

  // ── What keeps the record of effects: flash and the way out ───────────────

  class Timeline {
    ghost var effects: seq<Effect>

    constructor ()
      ensures effects == []
    {
      effects := [];
    }

    ghost method Note(x: Effect)
      modifies this
      ensures effects == old(effects) + [x]
    {
      effects := effects + [x];
    }
  }

  class ConfigStore {
    var slot: Option<Stored>
    const timeline: Timeline

    constructor (timeline: Timeline)
      ensures slot == None && this.timeline == timeline
    {
      slot := None;
      this.timeline := timeline;
    }

    /** The receipt is the permission to answer; only a completed write mints one. */
    method SavePair(psk: Key, counter: u32, saves: bool) returns (receipt: bool)
      modifies this, timeline
      ensures receipt == saves
      ensures slot == if saves then Some(Stored(psk, counter, 0)) else old(slot)
      ensures timeline.effects == old(timeline.effects) + (if saves then [Write(slot)] else [])
    {
      receipt := false;
      if saves {
        slot := Some(Stored(psk, counter, 0));
        timeline.Note(Write(slot));
        receipt := true;
      }
    }

    method SavePairRefresh(psk: Key, era: u16, counter: u32, saves: bool) returns (receipt: bool)
      modifies this, timeline
      ensures receipt == saves
      ensures slot == if saves then Some(Stored(psk, counter, era)) else old(slot)
      ensures timeline.effects == old(timeline.effects) + (if saves then [Write(slot)] else [])
    {
      receipt := false;
      if saves {
        slot := Some(Stored(psk, counter, era));
        timeline.Note(Write(slot));
        receipt := true;
      }
    }

    method SaveCounter(counter: u32, saves: bool)
      modifies this, timeline
      ensures slot == if saves && old(slot).Some? then Some(old(slot).value.(counter := counter)) else old(slot)
      ensures timeline.effects == old(timeline.effects) + (if saves && slot.Some? then [Write(slot)] else [])
    {
      if saves && slot.Some? {
        slot := Some(slot.value.(counter := counter));
        timeline.Note(Write(slot));
      }
    }

    method ClearPair(clears: bool)
      modifies this, timeline
      ensures slot == if clears then None else old(slot)
      ensures timeline.effects == old(timeline.effects) + (if clears then [Write(None)] else [])
    {
      if clears {
        slot := None;
        timeline.Note(Write(slot));
      }
    }
  }

  class Transport {
    const timeline: Timeline

    constructor (timeline: Timeline)
      ensures this.timeline == timeline
    {
      this.timeline := timeline;
    }

    method Send(reply: Reply)
      modifies timeline
      ensures timeline.effects == old(timeline.effects) + [Emit(reply)]
    {
      timeline.Note(Emit(reply));
    }
  }

  // ── Session handlers ──────────────────────────────────────────────────────

  class PairingTask {
    var paired: bool
    var psk: Key
    var era: u16
    var fromAppCounter: u32
    var validCount: u32
    var lastPair: Option<Cached>
    const nvs: ConfigStore
    const air: Transport
    const window: W.Core

    ghost predicate Valid()
      reads window
    {
      nvs.timeline == air.timeline && window.Valid()
    }

    ghost function View(): Robot
      reads this, nvs
    {
      Robot(paired, psk, era, fromAppCounter, validCount, lastPair, nvs.slot)
    }

    constructor (nvs: ConfigStore, air: Transport, window: W.Core)
      requires nvs.timeline == air.timeline && window.Valid()
      ensures Valid()
      ensures View() == Booted(nvs.slot)
      ensures this.nvs == nvs && this.air == air && this.window == window
    {
      paired, psk, era, fromAppCounter, validCount, lastPair := false, Blank, 0, 0, 0, None;
      this.nvs, this.air, this.window := nvs, air, window;
    }

    method RestorePair(readable: bool)
      modifies this
      ensures View() == Restored(old(View()), readable)
    {
      lastPair := None;
      if readable && nvs.slot.Some? {
        paired, fromAppCounter, era, psk := true, nvs.slot.value.counter, nvs.slot.value.era, nvs.slot.value.psk;
      } else {
        paired, fromAppCounter, era := false, 0, 0;
      }
    }

    method PutRam(m: Ram)
      modifies this, nvs.timeline
      ensures View() == WithRam(old(View()), m)
      ensures nvs.timeline.effects == old(nvs.timeline.effects) + [SetRam(m)]
    {
      paired, psk, era, fromAppCounter, validCount, lastPair
        := m.paired, m.psk, m.era, m.counter, m.validCount, m.lastPair;
      nvs.timeline.Note(SetRam(m));
    }

    /** One gate for every opcode that spends a counter: all checks, then all changes. */
    method TryConsume(counter: u32, eraOk: bool, tag: Mac, message: seq<u8>, saves: bool) returns (verified: bool)
      requires Valid()
      modifies this, nvs, nvs.timeline
      ensures Valid()
      ensures verified <==>
              old(paired) && eraOk && IsFresh(old(fromAppCounter), counter) && tag == Mac(old(psk), message)
      ensures View() == if verified then Spent(old(View()), counter, saves) else old(View())
      ensures nvs.timeline.effects == old(nvs.timeline.effects) +
                (if verified then SpendEffects(old(View()), counter, saves) else [])
    {
      var recent, hmacOk := false, false;
      if paired && eraOk {
        recent := IsFresh(fromAppCounter, counter);
        if recent {
          hmacOk := tag == Mac(psk, message);
        }
      }
      verified := paired && eraOk && recent && hmacOk;
      if !verified {
        return;
      }
      PutRam(Ram(paired, psk, era, counter, (validCount + 1) % 0x1_0000_0000, lastPair));
      if validCount % PERSIST_EVERY == 0 {
        nvs.SaveCounter(fromAppCounter, saves);
      }
    }

    /** The opcode wrappers: the era on the wire must be the session's, and a drive frame has none. */
    method Consume(c: Claim, tag: Mac, saves: bool) returns (reply: Reply)
      requires Valid() && Consuming(c)
      modifies this, nvs, nvs.timeline
      ensures Valid()
      ensures (View(), reply) == Consumed(old(View()), c, tag, saves)
      ensures nvs.timeline.effects == old(nvs.timeline.effects) + Effects(old(View()), Frame(c, tag, saves))
    {
      var verified := TryConsume(c.counter, c.Drive? || c.era == era, tag, TagMessage(c), saves);
      if verified {
        air.Send(Verified(c));
        return Verified(c);
      }
      return Silent;
    }

    method ClearPair(clears: bool)
      requires Valid()
      modifies this, nvs, nvs.timeline, window
      ensures Valid()
      ensures View() == Cleared(old(View()), clears).(validCount := 0)
      ensures window.View() == W.Forgotten(old(window.View()))
      ensures nvs.timeline.effects == old(nvs.timeline.effects) + ClearEffects(old(View()), clears)
    {
      window.ClearPair();
      PutRam(Ram(false, Blank, 0, 0, 0, None));
      nvs.ClearPair(clears);
    }

    /** The pair button: say goodbye while there is a key to sign with, then forget. */
    method EnterPairMode(farewell: Option<u32>, clears: bool) returns (reply: Reply)
      requires Valid()
      modifies this, nvs, nvs.timeline, window
      ensures Valid()
      ensures (View(), reply) == Evicted(old(View()), farewell, clears)
      ensures window.View() == GateAfter(old(View()), old(window.View()), Evict(farewell, clears))
      ensures nvs.timeline.effects == old(nvs.timeline.effects) + Effects(old(View()), Evict(farewell, clears))
    {
      reply := Silent;
      if paired && farewell.Some? {
        reply := Farewell(era, farewell.value, Sign(psk, Disconnect(era, farewell.value)));
        air.Send(reply);
      }
      ClearPair(clears);
    }

    /** A fresh code on display; refused while paired. */
    method OpenPairingWindow(code: seq<u8>, now: u32) returns (shows: bool)
      requires Valid()
      modifies window
      ensures Valid()
      ensures View() == old(View()) && shows == (!old(paired) && W.IsCode(code))
      ensures window.View() == if paired then old(window.View()) else W.Opened(old(window.View()), now, code)
    {
      if paired {
        return false;
      }
      shows := window.OpenWindow(now, code);
    }

    method HandleUnpair(counter: u32, tag: Mac, clears: bool) returns (reply: Reply)
      requires Valid()
      modifies this, nvs, nvs.timeline, window
      ensures Valid()
      ensures (View(), reply) == Unpaired(old(View()), counter, tag, clears)
      ensures window.View() == GateAfter(old(View()), old(window.View()), Goodbye(counter, tag, clears))
      ensures nvs.timeline.effects == old(nvs.timeline.effects) + Effects(old(View()), Goodbye(counter, tag, clears))
    {
      if !paired {
        return Silent;
      }
      if !IsFresh(fromAppCounter, counter) {
        return Silent;
      }
      if tag != Sign(psk, Unpair(counter)) {
        return Silent;
      }
      nvs.ClearPair(clears);
      window.ClearPair();
      PutRam(Ram(false, Blank, 0, 0, validCount, None));
      reply := Verified(Unpair(counter));
      air.Send(reply);
    }

    method HandlePairReq(code: seq<u8>, nonce: seq<u8>, key: Key, saves: bool, wraps: bool, now: u32)
      returns (reply: Reply)
      requires Valid()
      modifies this, nvs, nvs.timeline, window
      ensures Valid()
      ensures var verdict := W.Attempted(old(window.View()), code, now).1;
              && (View(), reply) == PairAsked(old(View()), code, nonce, verdict, key, saves, wraps, now)
              && window.View() ==
                   GateAfter(old(View()), old(window.View()), PairReq(code, nonce, verdict, key, saves, wraps, now))
              && nvs.timeline.effects == old(nvs.timeline.effects) +
                   Effects(old(View()), PairReq(code, nonce, verdict, key, saves, wraps, now))
    {
      JoinTwice(window.View(), code, now);
      hide W.Attempted, W.Joined;
      if paired && lastPair.Some? && lastPair.value.code == code && lastPair.value.nonce == nonce
         && Since(lastPair.value.at, now) < REDELIVERY_MS
      {
        reply := Redelivered(lastPair.value.key);
        air.Send(reply);
        return;
      }
      if paired {
        reply := PairErr(3, 0);
        air.Send(reply);
        return;
      }
      var result := window.TryCode(code, now);
      if !result.Accepted? {
        reply := PairErr(Reason(result), if result.Locked? then 30 else 0);
        air.Send(reply);
        return;
      }
      var receipt := nvs.SavePair(key, 0, saves);
      reply := PairErr(4, 0);
      if receipt {
        if wraps {
          reply := PairOk(key);
        }
      }
      air.Send(reply);
      if reply.PairOk? {
        PutRam(Ram(true, key, 0, 0, validCount, Some(Cached(code, nonce, key, now))));
        window.OnPaired(now);
      }
    }

    method HandlePairRefresh(newEra: u16, counter: u32, tag: Mac, saves: bool) returns (reply: Reply)
      requires Valid()
      modifies this, nvs, nvs.timeline, window`era
      ensures Valid()
      ensures (View(), reply) == Refreshed(old(View()), newEra, counter, tag, saves)
      ensures window.View() == GateAfter(old(View()), old(window.View()), RefreshReq(newEra, counter, tag, saves))
      ensures nvs.timeline.effects == old(nvs.timeline.effects) +
                Effects(old(View()), RefreshReq(newEra, counter, tag, saves))
    {
      if !paired {
        return Silent;
      }
      if newEra == era {
        reply := Ack(era, Sign(psk, RefreshAck(era)));
        air.Send(reply);
        return;
      }
      if newEra != NextEra(era) {
        return Silent;
      }
      if !IsFresh(fromAppCounter, counter) {
        return Silent;
      }
      if tag != Sign(psk, Refresh(newEra, counter)) {
        return Silent;
      }
      var next := Next(psk, newEra);
      var receipt := nvs.SavePairRefresh(next, newEra, 0, saves);
      if !receipt {
        return Silent;
      }
      PutRam(Ram(paired, next, newEra, 0, 0, lastPair));
      window.OnPairRefreshApplied(newEra);
      reply := Ack(era, Sign(psk, RefreshAck(era)));
      air.Send(reply);
    }
  }

  // ── Every step the robot can take ─────────────────────────────────────────

  /** What a handler comes to when it runs to its end. */
  function Handled(r: Robot, e: Event): (Robot, Reply) {
    match e
    case Frame(c, tag, saves) => if Consuming(c) then Consumed(r, c, tag, saves) else (r, Silent)
    case Goodbye(counter, tag, clears) => Unpaired(r, counter, tag, clears)
    case RefreshReq(era, counter, tag, saves) => Refreshed(r, era, counter, tag, saves)
    case PairReq(code, nonce, verdict, key, saves, wraps, now) =>
      PairAsked(r, code, nonce, verdict, key, saves, wraps, now)
    case Evict(farewell, clears) => Evicted(r, farewell, clears)
  }

  lemma PerformFew(r: Robot, xs: seq<Effect>)
    requires |xs| <= 3
    ensures Perform(r, []) == r
    ensures |xs| == 1 ==> Perform(r, xs) == Did(r, xs[0])
    ensures |xs| == 2 ==> Perform(r, xs) == Did(Did(r, xs[0]), xs[1])
    ensures |xs| == 3 ==> Perform(r, xs) == Did(Did(Did(r, xs[0]), xs[1]), xs[2])
  {
    hide Did;
    if |xs| > 0 {
      var ys := xs[..|xs| - 1];
      assert Perform(r, xs) == Did(Perform(r, ys), xs[|xs| - 1]);
      if |xs| > 1 {
        assert ys[0] == xs[0];
        assert |xs| == 3 ==> ys[1] == xs[1];
        PerformFew(r, ys);
      }
    }
  }

  lemma EmittedFew(xs: seq<Effect>)
    requires |xs| <= 3
    ensures Emitted([]) == Silent
    ensures |xs| > 0 && xs[|xs| - 1].Emit? ==> Emitted(xs) == xs[|xs| - 1].reply
    ensures |xs| > 0 && !xs[|xs| - 1].Emit? ==> Emitted(xs) == Emitted(xs[..|xs| - 1])
  {
  }

  /** The shapes handlers have: at most one write, and at most one reply. */
  predicate Shaped(xs: seq<Effect>) {
    && |xs| <= 3
    && (forall i, k :: 0 <= i < k < |xs| ==> !(xs[i].Write? && xs[k].Write?) && !(xs[i].Emit? && xs[k].Emit?))
  }

  lemma EffectsAreShaped(r: Robot, e: Event)
    ensures Shaped(Effects(r, e))
  {
    hide TagMessage, IsFresh, Accepts, AdmitsRefresh, Redelivers, Spent, Rotated, Cleared, RamOf, AckFor, FarewellOf;
  }

  function FlashLeft(nvs: Option<Stored>, xs: seq<Effect>): Option<Stored> {
    if xs == [] then nvs
    else if xs[|xs| - 1].Write? then xs[|xs| - 1].nvs
    else FlashLeft(nvs, xs[..|xs| - 1])
  }

  lemma {:induction false} FlashOfPerformed(r: Robot, xs: seq<Effect>)
    ensures Perform(r, xs).nvs == FlashLeft(r.nvs, xs)
  {
    if xs != [] {
      FlashOfPerformed(r, xs[..|xs| - 1]);
    }
  }

  lemma PairEmits(r: Robot, e: Event)
    requires e.PairReq?
    ensures Emitted(Effects(r, e)) == Handled(r, e).1
  {
    var xs := Effects(r, e);
    EmittedFew(xs);
    if |xs| == 3 {
      EmittedFew(xs[..2]);
    }
    hide Emitted, Redelivers;
  }

  lemma EvictEmits(r: Robot, e: Event)
    requires e.Evict?
    ensures Emitted(Effects(r, e)) == Handled(r, e).1
  {
    var xs := Effects(r, e);
    EmittedFew(xs);
    if |xs| > 0 {
      EmittedFew(xs[..|xs| - 1]);
    }
    if |xs| > 1 {
      EmittedFew(xs[..|xs| - 1][..|xs| - 2]);
    }
    hide Emitted, TagMessage;
  }

  /** Its effects one after the other come to the same. */
  lemma EffectsAddUp(r: Robot, e: Event)
    ensures Perform(r, Effects(r, e)) == Handled(r, e).0
    ensures Emitted(Effects(r, e)) == Handled(r, e).1
  {
    var xs := Effects(r, e);
    EffectsAreShaped(r, e);
    PerformFew(r, xs);
    hide Perform, Emitted, TagMessage, IsFresh;
    match e
    case Frame(_, _, _) => EmittedFew(xs);
    case Goodbye(_, _, _) => EmittedFew(xs);
    case RefreshReq(_, _, _, _) => EmittedFew(xs);
    case PairReq(_, _, _, _, _, _, _) => PairEmits(r, e);
    case Evict(_, _) => EvictEmits(r, e);
  }

  /** Power fails after the first n effects, at the latest before the next handler. */
  function Prefix(r: Robot, e: Event, n: nat): seq<Effect> {
    var xs := Effects(r, e);
    if n <= |xs| then xs[..n] else xs
  }

  function Rebooted(r: Robot, readable: bool): Robot {
    Restored(Booted(r.nvs), readable)
  }

  /** A handler runs to its end, or power fails after any number of its effects, or between
    * handlers. */
  datatype Step =
    | Whole(event: Event)
    | CutShort(event: Event, done: nat, readable: bool)
    | PowerCycle(readable: bool)

  function Stepped(r: Robot, s: Step): (Robot, Reply) {
    match s
    case Whole(e) => Handled(r, e)
    case CutShort(e, n, readable) => (Rebooted(Perform(r, Prefix(r, e, n)), readable), Emitted(Prefix(r, e, n)))
    case PowerCycle(readable) => (Rebooted(r, readable), Silent)
  }

  /** RAM and flash agree on key and era whenever RAM says paired. */
  predicate InStep(r: Robot) {
    r.paired ==> r.nvs.Some? && r.psk == r.nvs.value.psk && r.era == r.nvs.value.era
  }

  function Run(r: Robot, steps: seq<Step>): Robot
    decreases |steps|
  {
    if steps == [] then r else Run(Stepped(r, steps[0]).0, steps[1..])
  }

  /** Does flash hold the key this reply names? */
  predicate NamesStoredKey(nvs: Option<Stored>, reply: Reply) {
    match reply
    case PairOk(key) => nvs.Some? && nvs.value.psk == key
    case Ack(era, tag) => nvs.Some? && nvs.value.era == era && tag == Sign(nvs.value.psk, RefreshAck(era))
    case Farewell(era, counter, tag) =>
      nvs.Some? && nvs.value.era == era && tag == Sign(nvs.value.psk, Disconnect(era, counter))
    case _ => true
  }

  // ── Store before send ─────────────────────────────────────────────────────

  /** Whatever a handler sends under a key, flash holds that key at that moment. */
  lemma SendsStoredKey(r: Robot, e: Event, n: nat)
    requires InStep(r) && n < |Effects(r, e)| && Effects(r, e)[n].Emit?
    ensures NamesStoredKey(Perform(r, Effects(r, e)[..n]).nvs, Effects(r, e)[n].reply)
  {
    var xs := Effects(r, e);
    EffectsAreShaped(r, e);
    FlashOfPerformed(r, xs[..n]);
    if n > 0 {
      PrefixEnds(xs, n);
    }
    if n > 1 {
      PrefixEnds(xs, n - 1);
    }
    hide Perform, TagMessage, IsFresh;
  }

  lemma PrefixEnds(xs: seq<Effect>, n: nat)
    requires 0 < n <= |xs|
    ensures xs[..n][n - 1] == xs[n - 1] && xs[..n][..n - 1] == xs[..n - 1]
  {
  }

  predicate IsAnswer(reply: Reply) {
    reply.PairOk? || reply.Ack?
  }

  /** Nothing is written once a pairing answer or an acknowledgement is out. */
  predicate Settled(xs: seq<Effect>) {
    forall i, k :: 0 <= i < k < |xs| && xs[i].Emit? && IsAnswer(xs[i].reply) ==> !xs[k].Write?
  }

  lemma EffectsAreSettled(r: Robot, e: Event)
    ensures Settled(Effects(r, e))
  {
    hide TagMessage, IsFresh, Accepts, AdmitsRefresh, Redelivers, Spent, Rotated, Cleared, RamOf;
  }

  lemma {:induction false} NoneOfThese(nvs: Option<Stored>, xs: seq<Effect>)
    ensures (forall i :: 0 <= i < |xs| ==> !xs[i].Write?) ==> FlashLeft(nvs, xs) == nvs
    ensures (forall i :: 0 <= i < |xs| ==> !xs[i].Emit?) ==> Emitted(xs) == Silent
    ensures Emitted(xs) != Silent ==> Emit(Emitted(xs)) in xs
  {
    if xs != [] {
      NoneOfThese(nvs, xs[..|xs| - 1]);
    }
  }

  lemma {:induction false} PrefixOfEffects(nvs: Option<Stored>, xs: seq<Effect>, n: nat)
    requires Shaped(xs) && Settled(xs) && n <= |xs|
    ensures FlashLeft(nvs, xs[..n]) == nvs || FlashLeft(nvs, xs[..n]) == FlashLeft(nvs, xs)
    ensures Emitted(xs[..n]) == Silent || Emitted(xs[..n]) == Emitted(xs)
    ensures IsAnswer(Emitted(xs[..n])) ==> FlashLeft(nvs, xs[..n]) == FlashLeft(nvs, xs)
    decreases |xs|
  {
    if n == |xs| {
      assert xs[..n] == xs;
    } else {
      var p := xs[..|xs| - 1];
      assert p[..n] == xs[..n];
      PrefixOfEffects(nvs, p, n);
      NoneOfThese(nvs, p[..n]);
      if IsAnswer(Emitted(p[..n])) {
        var i :| 0 <= i < n && p[..n][i] == Emit(Emitted(p[..n]));
        assert xs[i] == p[..n][i];
      }
      hide IsAnswer;
    }
  }

  /** Wherever power fails, flash is as before the handler or as after it, and pairing answers
    * and acknowledgements are out only in the second case. */
  lemma PrefixFlash(r: Robot, e: Event, n: nat)
    ensures var nvs := Perform(r, Prefix(r, e, n)).nvs;
            var reply := Emitted(Prefix(r, e, n));
            && (nvs == r.nvs || nvs == Handled(r, e).0.nvs)
            && (reply == Silent || reply == Handled(r, e).1)
            && (IsAnswer(reply) ==> nvs == Handled(r, e).0.nvs)
  {
    var xs := Effects(r, e);
    var m := if n <= |xs| then n else |xs|;
    EffectsAddUp(r, e);
    EffectsAreShaped(r, e);
    EffectsAreSettled(r, e);
    FlashOfPerformed(r, xs);
    FlashOfPerformed(r, xs[..m]);
    assert Prefix(r, e, n) == xs[..m];
    hide *;
    PrefixOfEffects(r.nvs, xs, m);
  }

  lemma StepKeepsInStep(r: Robot, s: Step)
    requires InStep(r)
    ensures InStep(Stepped(r, s).0)
  {
    hide TagMessage, IsFresh, Effects, Perform, Emitted, Prefix;
  }

  /** The effects of a step before power fails, if it does. */
  function EffectsOf(r: Robot, s: Step): seq<Effect> {
    match s
    case Whole(e) => Effects(r, e)
    case CutShort(e, n, _) => Prefix(r, e, n)
    case PowerCycle(_) => []
  }

  /** Store before send, over whole runs with power failing after any effect: RAM and flash
    * agree between steps, and whenever a pairing answer, an acknowledgement or a goodbye goes
    * out, the effects before it have left in flash the key it names. */
  lemma {:induction false} StoredBeforeSent(r: Robot, steps: seq<Step>, k: nat, n: nat)
    requires InStep(r) && k < |steps|
    ensures InStep(Run(r, steps[..k]))
    ensures var now := Run(r, steps[..k]);
            var xs := EffectsOf(now, steps[k]);
            n < |xs| && xs[n].Emit? ==> NamesStoredKey(Perform(now, xs[..n]).nvs, xs[n].reply)
    decreases k
  {
    if k == 0 {
      if n < |EffectsOf(r, steps[0])| && EffectsOf(r, steps[0])[n].Emit? {
        SendsStoredKey(r, steps[0].event, n);
        assert EffectsOf(r, steps[0])[..n] == Effects(r, steps[0].event)[..n];
      }
    } else {
      StepKeepsInStep(r, steps[0]);
      assert steps[..k][0] == steps[0] && steps[..k][1..] == steps[1..][..k - 1];
      hide Stepped, EffectsOf, InStep;
      StoredBeforeSent(Stepped(r, steps[0]).0, steps[1..], k - 1, n);
    }
  }
}
