/** No frame is accepted twice in a session, and what a reboot can re-admit.
  *
  * Each accepted frame gets an unbounded position: the session starts at 0 and every
  * acceptance adds the distance its 32-bit counter moved.
  */
module PairingReplay {
  import opened PairingSession
  import opened PairingTags
  import opened Words

  datatype Entry = Entry(position: nat, claim: Claim)

  /** A robot with the accepted frames of the stored session, how many of them the stored
    * counter covers, the counter writes lost since, and every key flash has ever held. */
  datatype Life = Life(robot: Robot, log: seq<Entry>, kept: nat, missed: nat, keys: set<Key>)

  function PositionAfter(log: seq<Entry>, n: nat): nat
    requires n <= |log|
  {
    if n == 0 then 0 else log[n - 1].position
  }

  function Position(l: Life): nat {
    PositionAfter(l.log, |l.log|)
  }

  function Held(keys: set<Key>, nvs: Option<Stored>): set<Key> {
    if nvs.Some? then keys + {nvs.value.psk} else keys
  }

  /** Bookkeeping for one handler that ran to its end. */
  function Journaled(l: Life, e: Event): Life {
    var (r, reply) := Handled(l.robot, e);
    if r.nvs.None? || l.robot.nvs.None? || r.nvs.value.psk != l.robot.nvs.value.psk then
      Life(r, [], 0, 0, Held(l.keys, r.nvs))
    else if reply.Verified? && Consuming(reply.claim) then
      var log := l.log + [Entry(Position(l) + Since(l.robot.counter, reply.claim.counter), reply.claim)];
      if r.validCount % PERSIST_EVERY != 0 then Life(r, log, l.kept, l.missed, l.keys)
      else if e.Frame? && e.saves then Life(r, log, |log|, 0, l.keys)
      else Life(r, log, l.kept, l.missed + 1, l.keys)
    else l.(robot := r)
  }

  /** A reboot forgets the frames the stored counter does not cover. */
  function AfterReboot(l: Life, readable: bool): Life {
    Life(Rebooted(l.robot, readable), if l.kept <= |l.log| then l.log[..l.kept] else l.log, l.kept, 0, l.keys)
  }

  /** What a handler cut short leaves to the reboot: its flash write or nothing. */
  function Cut(l: Life, e: Event, done: nat): Life {
    if Perform(l.robot, Prefix(l.robot, e, done)).nvs == Handled(l.robot, e).0.nvs then Journaled(l, e) else l
  }

  function After(l: Life, s: Step): Life {
    match s
    case Whole(e) => Journaled(l, e)
    case CutShort(e, done, readable) => AfterReboot(Cut(l, e, done), readable)
    case PowerCycle(readable) => AfterReboot(l, readable)
  }

  function RunOf(l: Life, steps: seq<Step>): Life
    decreases |steps|
  {
    if steps == [] then l else RunOf(After(l, steps[0]), steps[1..])
  }

  lemma LifeFollowsRobot(l: Life, s: Step)
    ensures After(l, s).robot == Stepped(l.robot, s).0
  {
    if s.CutShort? {
      PrefixFlash(l.robot, s.event, s.done);
    }
    hide Handled, Perform, Prefix, Emitted;
  }

  lemma {:induction false} RunFollowsRobot(l: Life, steps: seq<Step>)
    ensures RunOf(l, steps).robot == Run(l.robot, steps)
    decreases |steps|
  {
    if steps != [] {
      LifeFollowsRobot(l, steps[0]);
      hide After, Stepped;
      RunFollowsRobot(After(l, steps[0]), steps[1..]);
    }
  }

  // ── Assumption on key generation ──────────────────────────────────────────

  /** A pairing draws a key unrelated to every key flash has held. */
  predicate FreshKey(keys: set<Key>, key: Key) {
    key.Root? && forall k :: k in keys ==> RootOf(k) != Some(key.id)
  }

  predicate Draws(keys: set<Key>, s: Step) {
    match s
    case Whole(e) => e.PairReq? ==> FreshKey(keys, e.key)
    case CutShort(e, _, _) => e.PairReq? ==> FreshKey(keys, e.key)
    case PowerCycle(_) => true
  }

  predicate DrawsAll(l: Life, steps: seq<Step>)
    decreases |steps|
  {
    steps != [] ==> Draws(l.keys, steps[0]) && DrawsAll(After(l, steps[0]), steps[1..])
  }

  // ── The invariant ─────────────────────────────────────────────────────────

  predicate Climbs(log: seq<Entry>) {
    && (forall i :: 0 <= i < |log| ==>
          Consuming(log[i].claim) && log[i].claim.counter == log[i].position % 0x1_0000_0000)
    && (forall i, k :: 0 <= i < k < |log| ==> log[i].position < log[k].position)
    && (forall i :: 0 <= i < |log| ==> 0 < log[i].position)
  }

  /** The stored counter is the one reached after the `kept` frames it covers. */
  predicate Covered(l: Life) {
    && l.kept <= |l.log|
    && (if l.robot.nvs.None? then l.log == []
        else l.robot.nvs.value.counter == PositionAfter(l.log, l.kept) % 0x1_0000_0000)
  }

  /** The live counter is the last position; the frames past the stored one are bounded. */
  predicate Live(l: Life) {
    l.robot.paired ==>
      && l.robot.counter == Position(l) % 0x1_0000_0000
      && |l.log| - l.kept <= PERSIST_EVERY * l.missed + l.robot.validCount % PERSIST_EVERY
  }

  /** The stored key is the deepest of its root. */
  predicate NewestKey(l: Life) {
    l.robot.nvs.Some? ==>
      && l.robot.nvs.value.psk in l.keys
      && forall k :: k in l.keys && RootOf(k) == RootOf(l.robot.nvs.value.psk) ==>
          Depth(k) <= Depth(l.robot.nvs.value.psk)
  }

  predicate Inv(l: Life) {
    InStep(l.robot) && Climbs(l.log) && Covered(l) && Live(l) && NewestKey(l)
  }

  lemma GapAdvances(position: nat, last: u32, got: u32)
    requires last == position % 0x1_0000_0000
    ensures (position + Since(last, got)) % 0x1_0000_0000 == got
  {
    var q := position / 0x1_0000_0000;
    var g := Since(last, got);
    assert position == 0x1_0000_0000 * q + last;
    if got >= last {
      assert g == got - last;
      assert position + g == 0x1_0000_0000 * q + got;
    } else {
      assert g == got - last + 0x1_0000_0000;
      assert position + g == 0x1_0000_0000 * (q + 1) + got;
    }
  }

  function CountAfter(n: u32): u32 {
    (n + 1) % 0x1_0000_0000
  }

  /** Frames past the stored counter: at most the count modulo 128, and 128 for each write lost. */
  lemma OneMoreUnsaved(unsaved: int, missed: nat, n: u32)
    requires unsaved <= PERSIST_EVERY * missed + n % PERSIST_EVERY
    ensures CountAfter(n) % PERSIST_EVERY != 0 ==> unsaved + 1 <= PERSIST_EVERY * missed + CountAfter(n) % PERSIST_EVERY
    ensures CountAfter(n) % PERSIST_EVERY == 0 ==> unsaved + 1 <= PERSIST_EVERY * (missed + 1)
  {
    assert CountAfter(n) % PERSIST_EVERY == (if n % PERSIST_EVERY == 127 then 0 else n % PERSIST_EVERY + 1);
  }

  lemma GapIsPositive(last: u32, got: u32)
    ensures Since(last, got) == 0 <==> last == got
  {
  }

  lemma ClimbsHigher(log: seq<Entry>, next: Entry)
    requires Climbs(log)
    requires Consuming(next.claim) && next.claim.counter == next.position % 0x1_0000_0000
    requires PositionAfter(log, |log|) < next.position
    ensures Climbs(log + [next])
  {
  }

  function EntryFor(l: Life, c: Claim): Entry
    requires Consuming(c)
  {
    Entry(Position(l) + Since(l.robot.counter, c.counter), c)
  }

  /** An accepted frame is logged, and the stored counter catches up every 128 frames. */
  predicate Logged(l: Life, l': Life, c: Claim, saves: bool)
    requires Consuming(c)
  {
    && l'.robot == Spent(l.robot, c.counter, saves)
    && l'.log == l.log + [EntryFor(l, c)]
    && l'.keys == l.keys
    && (if l'.robot.validCount % PERSIST_EVERY != 0 then l'.kept == l.kept && l'.missed == l.missed
        else if saves then l'.kept == |l'.log| && l'.missed == 0
        else l'.kept == l.kept && l'.missed == l.missed + 1)
  }

  lemma AcceptIsLogged(l: Life, e: Event)
    requires InStep(l.robot) && e.Frame? && Accepts(l.robot, e.claim, e.tag)
    ensures Logged(l, Journaled(l, e), e.claim, e.saves)
  {
    hide TagMessage, IsFresh, Since, NextEra;
  }

  /** The new position moves on from the last, to the frame's counter. */
  lemma EntryMovesOn(l: Life, c: Claim)
    requires Inv(l) && l.robot.paired && Consuming(c) && l.robot.counter != c.counter
    ensures EntryFor(l, c).position > Position(l) && EntryFor(l, c).position % 0x1_0000_0000 == c.counter
  {
    hide InStep, Climbs, Covered, NewestKey, Since;
    GapIsPositive(l.robot.counter, c.counter);
    GapAdvances(Position(l), l.robot.counter, c.counter);
  }

  lemma AcceptKeepsInv(l: Life, e: Event)
    requires Inv(l) && e.Frame? && Accepts(l.robot, e.claim, e.tag)
    ensures Inv(Journaled(l, e))
    ensures Journaled(l, e).log == l.log + [EntryFor(l, e.claim)]
    ensures Journaled(l, e).kept >= l.kept && Journaled(l, e).keys == l.keys
  {
    var c, l' := e.claim, Journaled(l, e);
    AcceptIsLogged(l, e);
    assert l.robot.paired && l.robot.counter != c.counter by { hide Inv, TagMessage; }
    hide Journaled, Accepts, EntryFor, Climbs, Live, Spent, NewestKey;
    EntryMovesOn(l, c);
    ClimbsHigher(l.log, EntryFor(l, c));
    AcceptKeepsBound(l, l', c, e.saves);
    AcceptKeepsCovered(l, l', c, e.saves);
    hide Logged, Covered;
  }

  lemma AcceptKeepsBound(l: Life, l': Life, c: Claim, saves: bool)
    requires Inv(l) && l.robot.paired && Consuming(c) && Logged(l, l', c, saves)
    requires EntryFor(l, c).position % 0x1_0000_0000 == c.counter
    ensures Live(l')
  {
    hide Climbs, Covered, NewestKey, Since;
    var n := l.robot.validCount;
    OneMoreUnsaved(|l.log| - l.kept, l.missed, n);
    assert l'.robot.validCount == CountAfter(n);
    hide CountAfter;
  }

  lemma AcceptKeepsCovered(l: Life, l': Life, c: Claim, saves: bool)
    requires Inv(l) && l.robot.paired && Consuming(c) && Logged(l, l', c, saves)
    requires EntryFor(l, c).position % 0x1_0000_0000 == c.counter
    ensures InStep(l'.robot) && Covered(l') && NewestKey(l') && l'.kept >= l.kept
  {
    hide Climbs, Live, EntryFor, RootOf, Depth;
    assert PositionAfter(l'.log, l.kept) == PositionAfter(l.log, l.kept);
  }

  /** What a handler other than an accepted frame can leave in flash: the same pair, nothing,
    * a fresh root, or the next key of the chain; always with counter 0 when it is new. */
  predicate FlashAfter(l: Life, r: Robot) {
    || (r.nvs == l.robot.nvs && (r.paired ==> r == l.robot))
    || (r.nvs.None? && !r.paired)
    || (r.nvs.Some? && r.nvs.value.counter == 0 && (r.paired ==> r.counter == 0)
        && (FreshKey(l.keys, r.nvs.value.psk)
            || (l.robot.nvs.Some? && r.nvs.value.psk.Next? && r.nvs.value.psk.prev == l.robot.nvs.value.psk)))
  }

  lemma OtherHandlers(l: Life, e: Event)
    requires InStep(l.robot) && Draws(l.keys, Whole(e)) && !(e.Frame? && Accepts(l.robot, e.claim, e.tag))
    ensures FlashAfter(l, Handled(l.robot, e).0)
    ensures Handled(l.robot, e).1.Verified? ==> !Consuming(Handled(l.robot, e).1.claim)
    ensures InStep(Handled(l.robot, e).0)
  {
    hide TagMessage, IsFresh, FreshKey;
  }

  lemma NewKeyIsNewest(l: Life, key: Key)
    requires NewestKey(l)
    requires FreshKey(l.keys, key) || (l.robot.nvs.Some? && key.Next? && key.prev == l.robot.nvs.value.psk)
    ensures forall k :: k in l.keys && RootOf(k) == RootOf(key) ==> Depth(k) < Depth(key)
    ensures key !in l.keys
  {
  }

  lemma QuietKeepsInv(l: Life, r: Robot)
    requires Inv(l) && r.nvs == l.robot.nvs && (r.paired ==> r == l.robot)
    ensures Inv(l.(robot := r))
  {
    hide Climbs, RootOf, Depth;
  }

  lemma NewSessionKeepsInv(l: Life, r: Robot)
    requires NewestKey(l) && InStep(r) && FlashAfter(l, r) && r.nvs != l.robot.nvs
    ensures Inv(Life(r, [], 0, 0, Held(l.keys, r.nvs)))
    ensures r.nvs.Some? && l.robot.nvs.Some? ==> r.nvs.value.psk != l.robot.nvs.value.psk
  {
    if r.nvs.Some? {
      NewKeyIsNewest(l, r.nvs.value.psk);
    }
    hide RootOf, Depth, FreshKey;
  }

  lemma HandlerKeepsInv(l: Life, e: Event)
    requires Inv(l) && Draws(l.keys, Whole(e))
    ensures Inv(Journaled(l, e))
    ensures l.keys <= Journaled(l, e).keys
  {
    if e.Frame? && Accepts(l.robot, e.claim, e.tag) {
      AcceptKeepsInv(l, e);
    } else {
      OtherHandlers(l, e);
      var r := Handled(l.robot, e).0;
      if r.nvs == l.robot.nvs {
        QuietKeepsInv(l, r);
        if r.nvs.None? {
          EmptyKeepsInv(l, r);
        }
      } else {
        NewSessionKeepsInv(l, r);
      }
      hide Handled, Accepts, FlashAfter, Inv, FreshKey, Consuming;
    }
  }

  lemma EmptyKeepsInv(l: Life, r: Robot)
    requires r.nvs.None? && !r.paired
    ensures Inv(Life(r, [], 0, 0, Held(l.keys, r.nvs)))
  {
  }

  lemma RebootKeepsInv(l: Life, readable: bool)
    requires Inv(l)
    ensures Inv(AfterReboot(l, readable))
  {
    var l' := AfterReboot(l, readable);
    assert Climbs(l'.log);
    hide Climbs;
    assert PositionAfter(l'.log, l.kept) == PositionAfter(l.log, l.kept);
    hide RootOf, Depth;
  }

  lemma StepKeepsInv(l: Life, s: Step)
    requires Inv(l) && Draws(l.keys, s)
    ensures Inv(After(l, s))
    ensures l.keys <= After(l, s).keys
  {
    if !s.PowerCycle? {
      HandlerKeepsInv(l, s.event);
    }
    if s.CutShort? {
      RebootKeepsInv(Cut(l, s.event, s.done), s.readable);
    } else if s.PowerCycle? {
      RebootKeepsInv(l, s.readable);
    }
    hide Handled, Journaled, Inv, Perform, Prefix;
  }

  // ── Runs ──────────────────────────────────────────────────────────────────

  lemma {:induction false} RunKeepsInv(l: Life, steps: seq<Step>)
    requires Inv(l) && DrawsAll(l, steps)
    ensures Inv(RunOf(l, steps))
    decreases |steps|
  {
    if steps == [] {
    } else {
      StepKeepsInv(l, steps[0]);
      RunKeepsInv(After(l, steps[0]), steps[1..]);
    }
  }

  predicate Current(l: Life, key: Key) {
    l.robot.nvs.Some? && l.robot.nvs.value.psk == key
  }

  /** A key flash has given up never comes back. */
  lemma {:induction false} KeysNeverReturn(l: Life, steps: seq<Step>, key: Key)
    requires Inv(l) && DrawsAll(l, steps) && key in l.keys && !Current(l, key)
    ensures !Current(RunOf(l, steps), key)
    decreases |steps|
  {
    if steps == [] {
    } else {
      StepKeepsInv(l, steps[0]);
      KeyStaysGone(l, steps[0], key);
      KeysNeverReturn(After(l, steps[0]), steps[1..], key);
    }
  }

  lemma KeyStaysGone(l: Life, s: Step, key: Key)
    requires Inv(l) && Draws(l.keys, s) && key in l.keys && !Current(l, key)
    ensures !Current(After(l, s), key)
  {
    if !s.PowerCycle? {
      var e := s.event;
      if !(e.Frame? && Accepts(l.robot, e.claim, e.tag)) {
        OtherHandlers(l, e);
        var nvs := Handled(l.robot, e).0.nvs;
        if nvs.Some? && nvs != l.robot.nvs {
          NewKeyIsNewest(l, nvs.value.psk);
        }
      }
      hide Accepts, FreshKey, Inv, RootOf, Depth, TagMessage, IsFresh, Perform, Prefix;
      assert Journaled(l, e).robot == Handled(l.robot, e).0;
    }
  }

  predicate NoReboot(steps: seq<Step>) {
    forall i :: 0 <= i < |steps| ==> steps[i].Whole?
  }

  lemma JournalKeepsLog(l: Life, e: Event)
    requires Inv(l) && Draws(l.keys, Whole(e))
    requires l.robot.nvs.Some? && Current(Journaled(l, e), l.robot.nvs.value.psk)
    ensures l.log <= Journaled(l, e).log && l.kept <= Journaled(l, e).kept
  {
    if e.Frame? && Accepts(l.robot, e.claim, e.tag) {
      AcceptKeepsInv(l, e);
    } else {
      OtherHandlers(l, e);
    }
    hide Handled, Accepts, FlashAfter, FreshKey, Climbs, Live, NewestKey;
  }

  lemma StepKeepsLog(l: Life, s: Step, n: nat)
    requires Inv(l) && Draws(l.keys, s) && n <= |l.log| && (n <= l.kept || s.Whole?)
    requires l.robot.nvs.Some? && Current(After(l, s), l.robot.nvs.value.psk)
    ensures n <= |After(l, s).log| && After(l, s).log[..n] == l.log[..n]
    ensures n <= l.kept ==> n <= After(l, s).kept
  {
    if !s.PowerCycle? {
      var e := s.event;
      var cut := if s.CutShort? then Cut(l, e, s.done) else Journaled(l, e);
      assert cut == l || cut == Journaled(l, e);
      assert Current(After(l, s), l.robot.nvs.value.psk) == Current(cut, l.robot.nvs.value.psk);
      if Current(Journaled(l, e), l.robot.nvs.value.psk) {
        JournalKeepsLog(l, e);
      }
      hide Handled, Journaled, Cut, Climbs, Live, NewestKey, InStep;
      assert l.log <= cut.log && l.kept <= cut.kept;
    }
  }

  /** While the session lasts its frames stay on record: all of them until a reboot, and
    * through any number of reboots those the stored counter already covered. */
  lemma {:induction false} RecordSurvives(l: Life, steps: seq<Step>, n: nat)
    requires Inv(l) && DrawsAll(l, steps) && n <= |l.log| && (n <= l.kept || NoReboot(steps))
    requires l.robot.nvs.Some? && Current(RunOf(l, steps), l.robot.nvs.value.psk)
    ensures n <= |RunOf(l, steps).log| && RunOf(l, steps).log[..n] == l.log[..n]
    decreases |steps|
  {
    if steps == [] {
    } else {
      var l' := After(l, steps[0]);
      var key := l.robot.nvs.value.psk;
      StepKeepsInv(l, steps[0]);
      assert key in l'.keys;
      if !Current(l', key) {
        KeysNeverReturn(l', steps[1..], key);
        assert false;
      }
      StepKeepsLog(l, steps[0], n);
      RecordSurvives(l', steps[1..], n);
    }
  }

  // ── What the record rules out ─────────────────────────────────────────────

  lemma GapBehind(p: nat, q: nat)
    requires p <= q
    ensures IsFresh(q % 0x1_0000_0000, p % 0x1_0000_0000) <==> (q - p) % 0x1_0000_0000 > HALF_RANGE
  {
    var a, b := p / 0x1_0000_0000, q / 0x1_0000_0000;
    var last, got := q % 0x1_0000_0000, p % 0x1_0000_0000;
    if last >= got {
      ModUnique(q - p, 0x1_0000_0000, b - a, last - got);
    } else {
      ModUnique(q - p, 0x1_0000_0000, b - a - 1, last - got + 0x1_0000_0000);
    }
  }

  /** A recorded frame sent again is accepted exactly when the session has moved on by more
    * than half the counter's range past it, modulo the whole range. */
  lemma ReplayIsAcceptedIff(l: Life, i: nat)
    requires Inv(l) && l.robot.paired && i < |l.log|
    ensures var c := l.log[i].claim;
            Accepts(l.robot, c, Sign(l.robot.psk, c)) <==>
            EraOk(l.robot, c) && (Position(l) - l.log[i].position) % 0x1_0000_0000 > HALF_RANGE
  {
    GapBehind(l.log[i].position, Position(l));
    hide IsFresh, TagMessage;
  }

  /** Would this event be let through, whatever the flash writes do? */
  predicate Admits(r: Robot, e: Event) {
    match e
    case Frame(c, tag, _) => Accepts(r, c, tag)
    case Goodbye(counter, tag, _) => Unpaired(r, counter, tag, true).1.Verified?
    case RefreshReq(era, counter, tag, _) => AdmitsRefresh(r, era, counter, tag)
    case _ => false
  }

  predicate Carries(e: Event, tag: Mac) {
    (e.Frame? || e.Goodbye? || e.RefreshReq?) && e.tag == tag
  }

  lemma TagOpensOneClaim(r: Robot, e: Event, key: Key, c: Claim)
    requires Carries(e, Sign(key, c)) && Consuming(c) && Admits(r, e)
    ensures r.psk == key && e.Frame? && e.claim == c
  {
    var d := match e
      case Frame(d, _, _) => d
      case Goodbye(n, _, _) => Unpair(n)
      case RefreshReq(era, n, _, _) => Refresh(era, n)
      case _ => c;
    assert Sign(r.psk, d) == Sign(key, c);
    MessagesAreDistinct(d, c);
  }

  lemma RecordedIsRefused(l: Life, i: nat, e: Event)
    requires Inv(l) && i < |l.log| && Position(l) <= l.log[i].position + HALF_RANGE
    requires l.robot.nvs.Some? && Carries(e, Sign(l.robot.nvs.value.psk, l.log[i].claim))
    ensures !Admits(l.robot, e)
  {
    if Admits(l.robot, e) {
      var c := l.log[i].claim;
      TagOpensOneClaim(l.robot, e, l.robot.nvs.value.psk, c);
      assert Accepts(l.robot, c, Sign(l.robot.psk, c));
      ReplayIsAcceptedIff(l, i);
      hide Accepts, Admits, TagMessage, Inv;
      var d := Position(l) - l.log[i].position;
      assert 0 <= d;
      SmallMod(d);
    }
  }

  lemma SmallMod(d: nat)
    requires d <= HALF_RANGE
    ensures d % 0x1_0000_0000 == d
  {
  }

  lemma OtherKeyIsRefused(r: Robot, e: Event, key: Key, c: Claim)
    requires InStep(r) && Consuming(c) && Carries(e, Sign(key, c))
    requires r.nvs.None? || r.nvs.value.psk != key
    ensures !Admits(r, e)
  {
    if Admits(r, e) {
      TagOpensOneClaim(r, e, key, c);
    }
  }

  /** No replay. A frame on record is not accepted again, under this or any other opcode, at
    * any later state of any run in which the session has advanced at most 2^31 past it; once
    * the key is gone it is never accepted again at all. Every frame accepted since the last
    * reboot is on record, and after reboots every frame the stored counter covered. */
  lemma NoReplay(l: Life, steps: seq<Step>, i: nat, e: Event)
    requires Inv(l) && DrawsAll(l, steps) && l.robot.nvs.Some? && i < |l.log|
    requires i < l.kept || NoReboot(steps)
    requires Carries(e, Sign(l.robot.nvs.value.psk, l.log[i].claim))
    requires Current(RunOf(l, steps), l.robot.nvs.value.psk) ==>
             Position(RunOf(l, steps)) <= l.log[i].position + HALF_RANGE
    ensures !Admits(RunOf(l, steps).robot, e)
  {
    hide Admits, Carries, DrawsAll, Live, NewestKey, Covered, TagMessage;
    var l' := RunOf(l, steps);
    var key := l.robot.nvs.value.psk;
    RunKeepsInv(l, steps);
    if Current(l', key) {
      RecordSurvives(l, steps, i + 1);
      assert l'.log[..i + 1][i] == l.log[..i + 1][i];
      RecordedIsRefused(l', i, e);
    } else {
      OtherKeyIsRefused(l'.robot, e, key, l.log[i].claim);
    }
  }

  // ── What a reboot forgets ─────────────────────────────────────────────────

  predicate SavesCounter(s: Step) {
    s.Whole? && s.event.Frame? ==> s.event.saves
  }

  lemma NothingMissed(l: Life, s: Step)
    requires l.missed == 0 && SavesCounter(s)
    ensures After(l, s).missed == 0
  {
    hide TagMessage, IsFresh;
  }

  /** The stored counter was the live counter of this same session at most 127 accepted
    * frames ago, in every reachable paired state, when counter writes succeed; with `missed`
    * failed writes in a row, 128 more for each. A reboot forgets exactly those frames. */
  lemma {:induction false} RebootForgetsFew(l: Life, steps: seq<Step>, readable: bool)
    requires Inv(l) && DrawsAll(l, steps)
    ensures var l' := RunOf(l, steps);
            && (l'.robot.paired ==>
                  && l'.kept <= |l'.log|
                  && l'.robot.nvs.Some?
                  && l'.robot.nvs.value.counter == PositionAfter(l'.log, l'.kept) % 0x1_0000_0000
                  && AfterReboot(l', readable).log == l'.log[..l'.kept]
                  && |l'.log| - l'.kept <= PERSIST_EVERY * l'.missed + 127)
            && (l.missed == 0 && (forall i :: 0 <= i < |steps| ==> SavesCounter(steps[i])) ==> l'.missed == 0)
    decreases |steps|
  {
    if steps == [] {
    } else {
      StepKeepsInv(l, steps[0]);
      if l.missed == 0 && SavesCounter(steps[0]) {
        NothingMissed(l, steps[0]);
      }
      RebootForgetsFew(After(l, steps[0]), steps[1..], readable);
      hide After, Inv;
      assert (forall i :: 0 <= i < |steps| ==> SavesCounter(steps[i])) ==>
          forall i :: 0 <= i < |steps[1..]| ==> SavesCounter(steps[1..][i]) by {
        assert forall i :: 0 <= i < |steps[1..]| ==> steps[1..][i] == steps[i + 1];
      }
    }
  }

  // ── Frames that end a session ─────────────────────────────────────────────

  /** A tag under a key flash no longer holds opens nothing, ever again. */
  lemma GoneKeyAdmitsNothing(l: Life, steps: seq<Step>, key: Key, e: Event)
    requires Inv(l) && DrawsAll(l, steps) && key in l.keys && !Current(l, key)
    requires (e.Frame? || e.Goodbye? || e.RefreshReq?) && e.tag.key == key
    ensures !Admits(RunOf(l, steps).robot, e)
  {
    RunKeepsInv(l, steps);
    KeysNeverReturn(l, steps, key);
    hide TagMessage, IsFresh, RunOf, DrawsAll;
  }

  /** Did this event end the session for good: a goodbye whose clear landed, or a rotation
    * whose write did? */
  predicate EndsSession(e: Event) {
    (e.Goodbye? && e.clears) || (e.RefreshReq? && e.saves)
  }

  /** No replay for UNPAIR and PAIR_REFRESH: once one of them has ended a session, its tag opens
    * nothing under any opcode at any later state of any run, reboots included. */
  lemma EndingFrameIsSpent(l: Life, e: Event, steps: seq<Step>, again: Event)
    requires Inv(l) && Draws(l.keys, Whole(e)) && Admits(l.robot, e) && EndsSession(e)
    requires DrawsAll(After(l, Whole(e)), steps) && Carries(again, e.tag)
    ensures !Admits(RunOf(After(l, Whole(e)), steps).robot, again)
  {
    StepKeepsInv(l, Whole(e));
    EndingDropsKey(l, e);
    GoneKeyAdmitsNothing(After(l, Whole(e)), steps, l.robot.psk, again);
  }

  lemma EndingDropsKey(l: Life, e: Event)
    requires Inv(l) && Admits(l.robot, e) && EndsSession(e)
    ensures e.tag.key == l.robot.psk && l.robot.psk in l.keys
    ensures !Current(After(l, Whole(e)), l.robot.psk)
  {
    hide TagMessage, IsFresh, Climbs, Covered, Live;
  }

  /** The clear is what makes a goodbye final: after a reboot the same goodbye is let through
    * again exactly when its clear failed and its counter is fresh to the stored one. */
  lemma GoodbyeReturnsIff(l: Life, e: Event)
    requires Inv(l) && e.Goodbye? && Admits(l.robot, e)
    ensures Admits(After(After(l, Whole(e)), PowerCycle(true)).robot, e) <==>
            !e.clears && IsFresh(l.robot.nvs.value.counter, e.counter)
  {
    hide TagMessage, IsFresh, Climbs, Covered, Live, NewestKey;
  }

  // ── From the factory ──────────────────────────────────────────────────────

  /** A robot that has never been paired. */
  const FACTORY := Life(Booted(None), [], 0, 0, {})

  lemma FactoryState()
    ensures Inv(FACTORY)
  {
  }

  /** For a robot out of the box: whatever happened `before`, a frame then on record is not let
    * through after any further `steps` that move its session at most 2^31 on. */
  lemma NoReplaySinceFactory(before: seq<Step>, steps: seq<Step>, i: nat, e: Event)
    requires DrawsAll(FACTORY, before) && DrawsAll(RunOf(FACTORY, before), steps)
    requires var l := RunOf(FACTORY, before);
             && l.robot.nvs.Some? && i < |l.log| && (i < l.kept || NoReboot(steps))
             && Carries(e, Sign(l.robot.nvs.value.psk, l.log[i].claim))
             && (Current(RunOf(l, steps), l.robot.nvs.value.psk) ==>
                 Position(RunOf(l, steps)) <= l.log[i].position + HALF_RANGE)
    ensures !Admits(Run(Run(Booted(None), before), steps), e)
  {
    FactoryState();
    RunKeepsInv(FACTORY, before);
    RunFollowsRobot(FACTORY, before);
    RunFollowsRobot(RunOf(FACTORY, before), steps);
    hide Inv, Admits, RunOf, Run, Carries;
    NoReplay(RunOf(FACTORY, before), steps, i, e);
  }

  /** And while counter writes succeed, no reboot of it forgets more than 127 frames: the stored
    * counter is the one the session had that many acceptances ago. */
  lemma FactoryRebootForgetsFew(steps: seq<Step>, readable: bool)
    requires DrawsAll(FACTORY, steps)
    requires forall i :: 0 <= i < |steps| ==> SavesCounter(steps[i])
    requires Run(Booted(None), steps).paired
    ensures var l := RunOf(FACTORY, steps);
            && l.robot == Run(Booted(None), steps)
            && l.kept <= |l.log| <= l.kept + 127
            && l.robot.nvs.Some?
            && l.robot.nvs.value.counter == PositionAfter(l.log, l.kept) % 0x1_0000_0000
            && AfterReboot(l, readable).log == l.log[..l.kept]
  {
    FactoryState();
    RunFollowsRobot(FACTORY, steps);
    RebootForgetsFew(FACTORY, steps, readable);
    hide Inv, RunOf, Run, DrawsAll;
  }
}
