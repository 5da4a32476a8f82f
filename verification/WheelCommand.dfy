/** What one coordinator tick does to the wheels and to its own state, in full, and what the
  * wheels are left doing over whole runs.
  */
module WheelCommand {
  import opened MotionPolicy
  import opened Words
  import D = DriveGate
  import C = CliffReaction

  // ── The command word ──────────────────────────────────────────────────────

  /** mode << 24 | throttle << 16 | steering << 8 | flags. */
  function PackCommand(mode: u8, throttle: u8, steer: u8, flags: u8): u32 {
    mode * 0x100_0000 + throttle * 0x1_0000 + steer * 0x100 + flags
  }

  /** Each stick comes back from its own byte: centred at 128, full scale both ways, and the
    * right way round. */
  lemma CommandUnpacks(mode: u8, throttle: u8, steer: u8, flags: u8)
    ensures var p := PackCommand(mode, throttle, steer, flags);
            && (throttle > 0 ==> ThrottleOf(p) + 128 == throttle) && (throttle == 0 ==> ThrottleOf(p) == -127)
            && (steer > 0 ==> SteerOf(p) + 128 == steer) && (steer == 0 ==> SteerOf(p) == -127)
            && -127 <= ThrottleOf(p) <= 127 && -127 <= SteerOf(p) <= 127
  {
    var p := PackCommand(mode, throttle, steer, flags);
    assert p / 0x100 == mode * 0x1_0000 + throttle * 0x100 + steer;
    assert p / 0x1_0000 == mode * 0x100 + throttle;
  }

  // ── One tick ──────────────────────────────────────────────────────────────

  /** The behaviour whose end was reported last, if any. */
  function LastDone(queue: seq<BusEvent>): Option<u32> {
    if queue == [] then None
    else if queue[|queue| - 1].kind.BehaviorDone? then Some(queue[|queue| - 1].payload)
    else LastDone(queue[..|queue| - 1])
  }

  /** The stick the tick acts on: the last drained command or the one held, and its time. */
  datatype Stick = Stick(any: bool, v: int, omega: int, at: u32)

  function Held(c: Coord, queue: seq<BusEvent>, now: u32): Stick {
    match D.LastCommand(queue)
    case Some(ev) => Stick(true, ThrottleOf(ev.payload), SteerOf(ev.payload), now)
    case None => Stick(c.hasCmd, c.v, c.omega, c.lastCmd)
  }

  /** A command at most 500 ms old, in a manual session of a paired robot. */
  predicate Live(c: Coord, queue: seq<BusEvent>, now: u32, s: Session) {
    var k := Held(c, queue, now);
    k.any && (now - k.at) % 0x1_0000_0000 <= 500 && Fed(c.sys, s) == Manual && s.paired
  }

  /** The behaviour still running after the queue: the active one unless its end came. */
  function Running(c: Coord, queue: seq<BusEvent>): u32 {
    if LastDone(queue) == Some(c.active) then 0 else c.active
  }

  predicate Centred(k: Stick) {
    k.v == 0 && k.omega == 0
  }

  /** Ground in the stick's direction; for a turn on the spot, on either rail. */
  predicate HasGround(k: Stick, fwd: bool, rev: bool) {
    (k.v > 0 ==> fwd) && (k.v < 0 ==> rev) && (k.v == 0 ==> fwd || rev)
  }

  lemma {:induction false} DrainFindsDone(c: Coord, queue: seq<BusEvent>, now: u32)
    ensures var e := Drained(c, NO_EDGES, queue, now).1;
            && e.done == LastDone(queue).Some? && (e.done ==> e.doneId == LastDone(queue).value)
            && (e.command <==> D.LastCommand(queue).Some?)
    decreases |queue|
  {
    if queue == [] {
    } else {
      var p := queue[..|queue| - 1];
      assert queue == p + [queue[|queue| - 1]];
      DrainFindsDone(c, p, now);
      C.DrainSplits(c, NO_EDGES, p, queue[|queue| - 1], now);
      hide Drained, ThrottleOf, SteerOf, FwdOf, RevOf;
    }
  }

  /** The arbitrator's inputs on a tick, told by the queue. */
  lemma TickInputs(c: Coord, queue: seq<BusEvent>, now: u32, s: Session)
    ensures var (d, e) := Drained(c, NO_EDGES, queue, now);
            var k := Held(c, queue, now);
            && d.mode == c.mode && d.active == c.active && d.latched == c.latched && d.sys == c.sys
            && (d.hasCmd, d.v, d.omega, d.lastCmd) == (k.any, k.v, k.omega, k.at)
            && (d.fwd, d.rev) == C.Rails(c.fwd, c.rev, queue)
            && (e.ground <==> C.Loses(c.fwd, c.rev, queue))
            && (e.command <==> D.LastCommand(queue).Some?)
            && e.done == LastDone(queue).Some? && (e.done ==> e.doneId == LastDone(queue).value)
            && (!Stale(d, now) && DriveAllowed(Fed(d.sys, s), s.paired) <==> Live(c, queue, now, s))
            && (Live(c, queue, now, s) ==> d.hasCmd)
  {
    D.DrainKeepsCommand(c, NO_EDGES, queue, now);
    C.DrainFindsLoss(c, queue, now);
    DrainFindsDone(c, queue, now);
    hide Drained, C.Rails, C.Loses, D.LastCommand, LastDone, Fed, ThrottleOf, SteerOf;
  }

  /** Everything a tick can tell the wheels. A rail lost in this drain brakes. Otherwise a stick
    * that is not live stops them, whatever was going on. A live one is followed exactly, except
    * that in EMERGENCY a direction without ground is cut to zero; and centred, it stops them
    * unless a behaviour other than driving is still running, which alone is left in charge. */
  lemma TickSends(c: Coord, queue: seq<BusEvent>, now: u32, s: Session)
    requires c.latched == (c.mode == Emergency)
    ensures var m := Ticked(c, queue, now, s).1;
            var k := Held(c, queue, now);
            var (fwd, rev) := C.Rails(c.fwd, c.rev, queue);
            if C.Loses(c.fwd, c.rev, queue) then m == Brake
            else if !Live(c, queue, now, s) then m == Stop
            else if c.mode == Emergency then
              var ahead := if (k.v > 0 && !fwd) || (k.v < 0 && !rev) then 0 else k.v;
              m == if ahead == 0 && k.omega == 0 then Stop else Velocity(ahead, k.omega)
            else if !Centred(k) then m == Velocity(k.v, k.omega)
            else m == if Running(c, queue) == NO_BEHAVIOR || Running(c, queue) == DRIVE_FORWARD then Stop else Hold
  {
    TickInputs(c, queue, now, s);
    hide Drained, C.Rails, C.Loses, D.LastCommand, LastDone, Fed, Stale, DriveAllowed, Live, Held;
  }

  /** And what it leaves behind: EMERGENCY after a loss, and until a live stick drained on this
    * very tick points where there is ground; the behaviour it starts, keeps or ends; the rails,
    * the stick and the mode. */
  lemma TickLeaves(c: Coord, queue: seq<BusEvent>, now: u32, s: Session)
    requires c.latched == (c.mode == Emergency)
    ensures var d := Ticked(c, queue, now, s).0;
            var k := Held(c, queue, now);
            var (fwd, rev) := C.Rails(c.fwd, c.rev, queue);
            var lost, live := C.Loses(c.fwd, c.rev, queue), Live(c, queue, now, s);
            var exits := live && !Centred(k) && D.LastCommand(queue).Some? && HasGround(k, fwd, rev);
            && d.mode == (if lost || (c.mode == Emergency && !exits) then Emergency
                          else if c.mode == Emergency then RobotMode.Driven else c.mode)
            && d.latched == (d.mode == Emergency)
            && d.active == (if lost || !live then NO_BEHAVIOR
                            else if c.mode == Emergency then (if exits then DRIVE_FORWARD else NO_BEHAVIOR)
                            else if !Centred(k) then DRIVE_FORWARD
                            else if Running(c, queue) == DRIVE_FORWARD then NO_BEHAVIOR else Running(c, queue))
            && (d.fwd, d.rev) == (fwd, rev) && d.sys == Fed(c.sys, s)
            && Stick(d.hasCmd, d.v, d.omega, d.lastCmd) == k
  {
    TickInputs(c, queue, now, s);
    hide Drained, C.Rails, C.Loses, D.LastCommand, LastDone, Fed, Stale, DriveAllowed, Live, Held;
  }

  // ── Over whole runs ───────────────────────────────────────────────────────

  /** Only the coordinator starts behaviours, and the only one it starts is driving. */
  predicate OwnBehavior(c: Coord) {
    c.latched == (c.mode == Emergency) && (c.active == NO_BEHAVIOR || c.active == DRIVE_FORWARD)
  }

  lemma StepKeepsOwn(w: D.World, e: D.Event)
    requires OwnBehavior(w.coord)
    ensures OwnBehavior(D.After(w, e).coord)
  {
    if e.CoordTick? {
      TickLeaves(w.coord, w.queue, D.Clock(e.at), D.Reads(w, e.windowOpen, e.at));
    }
    hide Ticked, Apply, C.Rails, C.Loses, Live, Held, HasGround;
  }

  lemma {:induction false} RunSplits(w: D.World, events: seq<D.Event>, e: D.Event)
    requires D.AllPossible(w, events + [e])
    ensures D.AllPossible(w, events) && D.Possible(D.RunOf(w, events), e)
    ensures D.RunOf(w, events + [e]) == D.After(D.RunOf(w, events), e)
    decreases |events|
  {
    hide D.After, D.Possible;
    if events == [] {
      var one := [] + [e];
      assert one[1..] == [];
      assert D.RunOf(w, one) == D.RunOf(D.After(w, e), []);
    } else {
      assert (events + [e])[1..] == events[1..] + [e];
      RunSplits(D.After(w, events[0]), events[1..], e);
    }
  }

  lemma {:induction false} RunKeepsOwn(w: D.World, events: seq<D.Event>)
    requires OwnBehavior(w.coord)
    ensures OwnBehavior(D.RunOf(w, events).coord)
    decreases |events|
  {
    if events != [] {
      StepKeepsOwn(w, events[0]);
      hide OwnBehavior, D.After;
      RunKeepsOwn(D.After(w, events[0]), events[1..]);
    }
  }

  /** The speeds the motion layer is left with: braking and stopping make them zero, and Hold
    * leaves them as they were. */
  function Setpoint(before: (int, int), m: Motion): (int, int) {
    match m
    case Brake => (0, 0)
    case Stop => (0, 0)
    case Hold => before
    case Velocity(v, omega) => (v, omega)
  }

  function Wheels(paired: bool, events: seq<D.Event>): (int, int) {
    if events == [] then (0, 0)
    else
      var front, e := events[..|events| - 1], events[|events| - 1];
      if e.CoordTick? then Setpoint(Wheels(paired, front), D.MotionOf(D.RunOf(D.Boot(paired), front), e))
      else Wheels(paired, front)
  }

  /** From boot on no tick ever holds, so the wheels do what the latest tick said. */
  lemma TicksDecide(paired: bool, events: seq<D.Event>, e: D.Event)
    requires e.CoordTick?
    ensures var m := D.MotionOf(D.RunOf(D.Boot(paired), events), e);
            && !m.Hold?
            && Wheels(paired, events + [e]) == (if m.Velocity? then (m.v, m.omega) else (0, 0))
  {
    var w := D.RunOf(D.Boot(paired), events);
    RunKeepsOwn(D.Boot(paired), events);
    TickSends(w.coord, w.queue, D.Clock(e.at), D.Reads(w, e.windowOpen, e.at));
    assert (events + [e])[..|events|] == events;
    hide Ticked, D.RunOf, C.Rails, C.Loses, Live, Held;
  }

  /** Is j the latest tick? */
  predicate LatestTick(events: seq<D.Event>, j: nat)
    requires j < |events|
  {
    events[j].CoordTick? && forall i :: j < i < |events| ==> !events[i].CoordTick?
  }

  /** Was j the latest tick, did it send a justified velocity, and do the wheels turn at it? */
  predicate Drives(paired: bool, events: seq<D.Event>, j: nat, v: int, omega: int)
    requires j < |events|
  {
    && LatestTick(events, j)
    && var w := D.RunOf(D.Boot(paired), events[..j]);
       var m := D.MotionOf(w, events[j]);
       m == Velocity(v, omega) && D.Justified(w, events[j], m)
  }

  lemma DrivesStill(paired: bool, front: seq<D.Event>, e: D.Event, j: nat, v: int, omega: int)
    requires !e.CoordTick? && j < |front| && Drives(paired, front, j, v, omega)
    ensures Drives(paired, front + [e], j, v, omega)
  {
    var events := front + [e];
    assert events[..j] == front[..j] && events[j] == front[j];
    hide D.Justified, D.MotionOf, D.RunOf, D.Boot;
  }

  lemma DrivesNow(paired: bool, front: seq<D.Event>, e: D.Event)
    requires e.CoordTick? && D.AllPossible(D.Boot(paired), front)
    requires D.Possible(D.RunOf(D.Boot(paired), front), e) && Wheels(paired, front + [e]) != (0, 0)
    ensures var s := Wheels(paired, front + [e]);
            Drives(paired, front + [e], |front|, s.0, s.1)
  {
    var events := front + [e];
    assert events[..|front|] == front && events[|front|] == e;
    hide D.Justified, D.MotionOf, D.RunOf, D.Boot, D.Possible, D.AllPossible, Wheels;
    TicksDecide(paired, front, e);
    D.DriveIsGated(paired, front, e);
  }

  /** Dead man's handle, over every run from boot: whenever the wheels are set to turn, the
    * latest tick was one with a justified velocity, and they turn at that. So the first tick at
    * which the command is too old, the manual session, the pairing or the peer gone, a window
    * open or a rail lost leaves them at rest, and they stay so until a justified tick. */
  lemma {:induction false} WheelsAreJustified(paired: bool, events: seq<D.Event>)
    requires D.AllPossible(D.Boot(paired), events) && Wheels(paired, events) != (0, 0)
    ensures var s := Wheels(paired, events);
            exists j :: 0 <= j < |events| && Drives(paired, events, j, s.0, s.1)
    decreases |events|
  {
    var front, e := events[..|events| - 1], events[|events| - 1];
    assert events == front + [e];
    RunSplits(D.Boot(paired), front, e);
    if e.CoordTick? {
      DrivesNow(paired, front, e);
    } else {
      WheelsAreJustified(paired, front);
      var s := Wheels(paired, front);
      var j :| 0 <= j < |front| && Drives(paired, front, j, s.0, s.1);
      DrivesStill(paired, front, e, j, s.0, s.1);
    }
    hide D.AllPossible, D.Possible, D.RunOf, D.Boot, D.MotionOf, Drives;
  }

  // ── A peer that leaves ────────────────────────────────────────────────────

  /** The peer says goodbye, is forgotten or is put out by the pair button. */
  predicate Leaves(e: D.Event) {
    e.Goodbye? || e.Unpair? || e.Evict?
  }

  /** Nobody comes: no verified frame, no pairing, no pin. */
  predicate Quiet(events: seq<D.Event>) {
    forall i :: 0 <= i < |events| ==> !events[i].Frame? && !events[i].PairOk? && !events[i].LegacyPin?
  }

  lemma {:induction false} StaysGone(w: D.World, events: seq<D.Event>)
    requires !w.conn.have && Quiet(events)
    ensures !D.RunOf(w, events).conn.have
    decreases |events|
  {
    if events != [] {
      assert !D.After(w, events[0]).conn.have by { hide Ticked, Apply, D.LastCommand, D.Reads; }
      hide D.After;
      StaysGone(D.After(w, events[0]), events[1..]);
    }
  }

  /** After that, and until somebody comes, no tick drives the wheels: the parting peer's last
    * command does not outlive it, however recent. */
  lemma GoneIsStill(w: D.World, gone: D.Event, events: seq<D.Event>, tick: D.Event)
    requires OwnBehavior(w.coord) && Leaves(gone) && Quiet(events) && tick.CoordTick?
    ensures !D.MotionOf(D.RunOf(D.After(w, gone), events), tick).Velocity?
  {
    var v := D.After(w, gone);
    var u := D.RunOf(v, events);
    StepKeepsOwn(w, gone);
    RunKeepsOwn(v, events);
    StaysGone(v, events);
    var s := D.Reads(u, tick.windowOpen, tick.at);
    D.MovesIff(u.coord, u.queue, D.Clock(tick.at), s);
    FedIsManual(u.coord.sys, s);
    hide Ticked, Drained, Fed, D.RunOf, D.After;
  }
}
