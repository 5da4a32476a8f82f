/** The pairing session beside its code gate: exactly which request pairs the robot, what the
  * others are told, and what a failed save leaves behind.
  */
module PairingDesk {
  import opened PairingSession
  import opened PairingTags
  import opened Words
  import W = PairWindow

  /** The session and its gate, and what they do with an event; the verdict is the gate's. */
  datatype Desk = Desk(robot: Robot, gate: W.Gate)

  function Faced(g: W.Gate, e: Event): Event {
    if e.PairReq? then e.(verdict := W.Attempted(g, e.code, e.now).1) else e
  }

  function Beside(d: Desk, e: Event): (Desk, Reply) {
    var (r, reply) := Handled(d.robot, Faced(d.gate, e));
    (Desk(r, GateAfter(d.robot, d.gate, e)), reply)
  }

  // ── Who gets paired ───────────────────────────────────────────────────────

  /** Milliseconds between two readings of the 32-bit clock. */
  function Elapsed(before: u32, now: u32): nat {
    (now as int - before as int) % 0x1_0000_0000
  }

  /** The code shown is on: opened less than five minutes ago and not used up, and the gate has
    * not joined. */
  predicate OnShow(g: W.Gate, now: u32) {
    !g.paired && g.open && !g.burned && Elapsed(g.windowStart, now) < 300_000
  }

  /** The half minute after a fifth wrong code. */
  predicate Waiting(g: W.Gate, now: u32) {
    g.tries >= 5 && Elapsed(g.lockoutStart, now) < 30_000
  }

  /** A request with the six digits on show, outside a lockout. */
  predicate RightCode(g: W.Gate, e: Event) {
    e.PairReq? && OnShow(g, e.now) && !Waiting(g, e.now) && |e.code| == 6 && e.code == g.code
  }

  /** The gate once the code has been given rightly. */
  function UsedUp(g: W.Gate, now: u32): W.Gate {
    W.Gate(g.code, false, true, true, if g.tries >= 5 then 0 else g.tries, g.windowStart, g.lockoutStart, 0, now)
  }

  lemma ElapsedIsSince(before: u32, now: u32)
    ensures Elapsed(before, now) == Since(before, now)
  {
  }

  /** PAIR_OK goes out, and an unpaired robot becomes paired, exactly for a request with the code
    * on show outside a lockout, once the pair is stored and wrapped. The session is then the
    * fresh one, in RAM and flash, and the code is used up. */
  lemma PairsIff(d: Desk, e: Event)
    ensures var (t, reply) := Beside(d, e);
            && (reply.PairOk? <==> !d.robot.paired && RightCode(d.gate, e) && e.saves && e.wraps)
            && (!d.robot.paired ==> (t.robot.paired <==> reply.PairOk?))
            && (reply.PairOk? ==>
                  && reply.key == e.key
                  && t.robot == Robot(true, e.key, 0, 0, d.robot.validCount,
                                      Some(Cached(e.code, e.nonce, e.key, e.now)), Some(Stored(e.key, 0, 0)))
                  && t.gate == UsedUp(d.gate, e.now))
  {
    if e.PairReq? {
      ElapsedIsSince(d.gate.windowStart, e.now);
      ElapsedIsSince(d.gate.lockoutStart, e.now);
    }
    hide TagMessage, IsFresh, Redelivers, Elapsed, Since;
  }

  /** What every other request of an unpaired robot is told, and that it changes nothing but the
    * gate's count of tries: the wire's reasons are 0 bad code, 1 locked, 2 no window, 3 already
    * paired, 4 internal. Only a right code whose save or wrap fails leaves more behind. */
  lemma RefusedIs(d: Desk, e: Event)
    requires !d.robot.paired && e.PairReq? && !Beside(d, e).1.PairOk?
    ensures var (t, reply) := Beside(d, e);
            var g := d.gate;
            var tries := if g.tries >= 5 then 1 else g.tries + 1;
            if g.paired then t == d && reply == PairErr(3, 0)
            else if !OnShow(g, e.now) then t == Desk(d.robot, g.(open := false)) && reply == PairErr(2, 0)
            else if Waiting(g, e.now) then t == d && reply == PairErr(1, 30)
            else if !RightCode(g, e) then
              && t.robot == d.robot
              && (tries < 5 ==> t.gate == g.(tries := tries) && reply == PairErr(0, 0))
              && (tries == 5 ==> t.gate == g.(tries := 5, lockoutStart := e.now) && reply == PairErr(1, 30))
            else
              && reply == PairErr(4, 0) && t.gate == UsedUp(g, e.now)
              && t.robot == if e.saves then d.robot.(nvs := Some(Stored(e.key, 0, 0))) else d.robot
  {
    ElapsedIsSince(d.gate.windowStart, e.now);
    ElapsedIsSince(d.gate.lockoutStart, e.now);
    hide TagMessage, IsFresh, Redelivers, Elapsed, Since;
  }

  /** A paired robot answers a request only by repeating its last PAIR_OK, to the very code and
    * nonce it was for and within a minute; every other request is told so, and nothing changes. */
  lemma RedeliversIff(d: Desk, e: Event)
    ensures var (t, reply) := Beside(d, e);
            && (reply.Redelivered? <==>
                  && d.robot.paired && e.PairReq? && d.robot.lastPair.Some?
                  && d.robot.lastPair.value.code == e.code && d.robot.lastPair.value.nonce == e.nonce
                  && Elapsed(d.robot.lastPair.value.at, e.now) < 60_000)
            && (reply.Redelivered? ==> reply.key == d.robot.lastPair.value.key)
            && (d.robot.paired && e.PairReq? ==> t == d && (reply.Redelivered? || reply == PairErr(3, 0)))
  {
    if e.PairReq? && d.robot.lastPair.Some? {
      ElapsedIsSince(d.robot.lastPair.value.at, e.now);
    }
    hide TagMessage, IsFresh, Elapsed, Since;
  }

  // ── Over runs ─────────────────────────────────────────────────────────────

  /** Handlers, openings by the pair button, and reboots, which start with a fresh gate. */
  datatype Act = Handle(event: Event) | Show(code: seq<u8>, at: nat) | Reboot(readable: bool)

  /** With what was last put on display and to whom the last PAIR_OK of this boot went. */
  datatype Log = Log(desk: Desk, shown: Option<(seq<u8>, nat)>, answered: Option<Cached>)

  const SHUT := W.Gate([48, 48, 48, 48, 48, 48], false, false, false, 0, 0, 0, 0, 0)

  function After(l: Log, a: Act): Log {
    match a
    case Handle(e) =>
      var (d, reply) := Beside(l.desk, e);
      l.(desk := d,
         answered := if !reply.PairOk? || !e.PairReq? then l.answered
                     else Some(Cached(e.code, e.nonce, reply.key, e.now)))
    case Show(code, at) =>
      if l.desk.robot.paired || !W.IsCode(code) then l
      else l.(desk := l.desk.(gate := W.Opened(l.desk.gate, W.Clock(at), code)), shown := Some((code, at)))
    case Reboot(readable) => Log(Desk(Rebooted(l.desk.robot, readable), SHUT), None, None)
  }

  function Run(l: Log, acts: seq<Act>): Log
    decreases |acts|
  {
    if acts == [] then l else Run(After(l, acts[0]), acts[1..])
  }

  /** An open gate shows what was last displayed, and the cached answer is the last PAIR_OK. */
  predicate Inv(l: Log) {
    && (l.desk.gate.open ==>
          l.shown.Some? && l.desk.gate.code == l.shown.value.0 && l.desk.gate.windowStart == W.Clock(l.shown.value.1))
    && (l.desk.robot.lastPair.Some? ==> l.desk.robot.lastPair == l.answered)
  }

  lemma ActKeepsInv(l: Log, a: Act)
    requires Inv(l)
    ensures Inv(After(l, a))
  {
    if a.Handle? {
      PairsIff(l.desk, a.event);
    }
    hide TagMessage, IsFresh, Redelivers, RightCode, W.Clock, Since;
  }

  lemma {:induction false} RunKeepsInv(l: Log, acts: seq<Act>)
    requires Inv(l)
    ensures Inv(Run(l, acts))
    decreases |acts|
  {
    if acts != [] {
      ActKeepsInv(l, acts[0]);
      hide Inv, After;
      RunKeepsInv(After(l, acts[0]), acts[1..]);
    }
  }

  function Start(nvs: Option<Stored>, readable: bool): Log {
    Log(Desk(Rebooted(Booted(nvs), readable), SHUT), None, None)
  }

  /** Over every run from boot: whoever is sent PAIR_OK asked with the digits last put on display,
    * less than five minutes after, on the 32-bit clock; and an answer is repeated only to the
    * code and nonce it was first sent for, with the same key, less than a minute after. */
  lemma PairedAskedWithShownCode(nvs: Option<Stored>, readable: bool, acts: seq<Act>, e: Event)
    requires e.PairReq?
    ensures var l := Run(Start(nvs, readable), acts);
            var reply := Beside(l.desk, e).1;
            && (reply.PairOk? ==>
                  l.shown.Some? && e.code == l.shown.value.0 && (e.now - l.shown.value.1) % 0x1_0000_0000 < 300_000)
            && (reply.Redelivered? ==>
                  && l.answered.Some? && l.answered.value.code == e.code && l.answered.value.nonce == e.nonce
                  && reply.key == l.answered.value.key && Elapsed(l.answered.value.at, e.now) < 60_000)
  {
    RunKeepsInv(Start(nvs, readable), acts);
    var l := Run(Start(nvs, readable), acts);
    PairsIff(l.desk, e);
    RedeliversIff(l.desk, e);
    if l.shown.Some? {
      ClockElapsed(l.shown.value.1, e.now);
    }
    hide Run, Start, Beside, Elapsed;
  }

  lemma ClockElapsed(at: nat, now: u32)
    ensures Elapsed(W.Clock(at), now) == (now - at) % 0x1_0000_0000
  {
    var q := at / 0x1_0000_0000;
    assert now - at == (now - W.Clock(at)) - 0x1_0000_0000 * q;
  }

  // ── A gate that outruns the session ───────────────────────────────────────

  function BesideAll(d: Desk, events: seq<Event>): Desk
    decreases |events|
  {
    if events == [] then d else BesideAll(Beside(d, events[0]).0, events[1..])
  }

  /** The gate has joined, the session has not. */
  predicate Jammed(d: Desk) {
    !d.robot.paired && d.gate.paired
  }

  /** That is what an event makes of a session in order exactly when it is a pairing request
    * with the right code whose save or wrap fails. */
  lemma JamsIff(d: Desk, e: Event)
    requires d.robot.paired || !d.gate.paired
    ensures Jammed(Beside(d, e).0) <==>
            !d.robot.paired && e.PairReq? && W.Attempted(d.gate, e.code, e.now).1.Accepted? && !(e.saves && e.wraps)
  {
    hide TagMessage, IsFresh, Redelivers;
  }

  /** From then on every pairing request is turned away as if paired, whatever code it brings,
    * and nothing changes at all, until the pair button clears the gate. */
  lemma {:induction false} JamLasts(d: Desk, events: seq<Event>, e: Event)
    requires Jammed(d) && !e.Evict? && forall i :: 0 <= i < |events| ==> !events[i].Evict?
    ensures BesideAll(d, events) == d
    ensures Beside(BesideAll(d, events), e).1 == if e.PairReq? then PairErr(Reason(W.AlreadyPaired), 0) else Silent
    ensures forall farewell, clears :: !Jammed(Beside(BesideAll(d, events), Evict(farewell, clears)).0)
    decreases |events|
  {
    hide TagMessage, IsFresh, Redelivers;
    if events != [] {
      assert Beside(d, events[0]).0 == d;
      JamLasts(d, events[1..], e);
    }
  }
}
