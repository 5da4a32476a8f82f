/** From a rail over a void to the wheels: sensor levels, published edges, the coordinator's
  * rails, and how long the direction stays forbidden. The bus loses nothing here.
  */
module CliffReaction {
  import opened MotionPolicy
  import opened Words

  const TCRT_THRESHOLD := 600
  const TCRT_HYSTERESIS := 200

  /** Symmetric band round the threshold; ground reads low unless the module asserts high. */
  function RailUpdate(level: bool, counts: u16, threshold: u16, hyst: u16, assertHigh: bool): bool {
    var hi := threshold as int + hyst;
    var lo := threshold as int - hyst;
    if assertHigh then
      if !level && counts >= hi then true else if level && counts <= lo then false else level
    else
      if !level && counts <= lo then true else if level && counts >= hi then false else level
  }

  /** Rail levels as the drivers hold them, and the levels last published. */
  datatype Sensors = Sensors(fwdLevel: bool, revLevel: bool, lastFwd: bool, lastRev: bool)

  /** What one sensor tick finds; `level` is the tilt rule's verdict. */
  datatype Sample = Sample(due: bool, fwdOn: bool, revOn: bool, fwdCounts: u16, revCounts: u16,
                           mpuHealthy: bool, tofLive: bool, level: bool)

  function Polled(s: Sensors, x: Sample): Sensors {
    if !x.due then s
    else s.(fwdLevel := if x.fwdOn then RailUpdate(s.fwdLevel, x.fwdCounts, TCRT_THRESHOLD, TCRT_HYSTERESIS, false)
                else s.fwdLevel,
            revLevel := if x.revOn then RailUpdate(s.revLevel, x.revCounts, TCRT_THRESHOLD, TCRT_HYSTERESIS, false)
                else s.revLevel)
  }

  predicate GroundLive(x: Sample) {
    x.mpuHealthy && (x.fwdOn || x.revOn)
  }

  /** Fusion's ground part, seeded with the published levels: a dead rail or a tilted body
    * holds what was last said. */
  function Fused(s: Sensors, x: Sample): (bool, bool) {
    if !(GroundLive(x) && x.level) then (s.lastFwd, s.lastRev)
    else (if x.fwdOn then s.fwdLevel else s.lastFwd, if x.revOn then s.revLevel else s.lastRev)
  }

  /** New state, and the levels to publish if a live tick found one of them changed. */
  function Sensed(s: Sensors, x: Sample): (Sensors, bool) {
    var p := Polled(s, x);
    var (f, r) := Fused(p, x);
    if GroundLive(x) && (f != p.lastFwd || r != p.lastRev) then (p.(lastFwd := f, lastRev := r), true) else (p, false)
  }

  class SensorTask {
    var fwdLevel: bool
    var revLevel: bool
    var lastGndFwd: bool
    var lastGndRev: bool

    function View(): Sensors
      reads this
    {
      Sensors(fwdLevel, revLevel, lastGndFwd, lastGndRev)
    }

    constructor ()
      ensures View() == Sensors(true, true, true, true)
    {
      fwdLevel, revLevel, lastGndFwd, lastGndRev := true, true, true, true;
    }

    method Loop(x: Sample) returns (publish: bool, payload: u32)
      modifies this
      ensures (View(), publish) == Sensed(old(View()), x)
      ensures publish ==> payload == PackGround(lastGndFwd, lastGndRev)
    {
      publish, payload := false, 0;
      if x.due {
        if x.fwdOn {
          fwdLevel := RailUpdate(fwdLevel, x.fwdCounts, TCRT_THRESHOLD, TCRT_HYSTERESIS, false);
        }
        if x.revOn {
          revLevel := RailUpdate(revLevel, x.revCounts, TCRT_THRESHOLD, TCRT_HYSTERESIS, false);
        }
      }
      var groundLive := x.mpuHealthy && (x.fwdOn || x.revOn);
      var fwdNow, revNow := lastGndFwd, lastGndRev;
      if groundLive || x.tofLive {
        if x.mpuHealthy && (x.fwdOn || x.revOn) && x.level {
          if x.fwdOn {
            fwdNow := fwdLevel;
          }
          if x.revOn {
            revNow := revLevel;
          }
        }
      }
      if groundLive && !(fwdNow == lastGndFwd && revNow == lastGndRev) {
        lastGndFwd, lastGndRev := fwdNow, revNow;
        publish, payload := true, PackGround(fwdNow, revNow);
      }
    }
  }

  // ── Sensor task, bus and coordinator together ─────────────────────────────

  datatype World = World(sensors: Sensors, queue: seq<BusEvent>, coord: Coord)

  datatype Event =
    | Sense(sample: Sample, at: nat)
    | Post(event: BusEvent)
    | CoordTick(now: u32, session: Session)

  /** Only the sensor task publishes ground levels. */
  predicate Allowed(e: Event) {
    e.Post? ==> !e.event.kind.GroundChanged?
  }

  function After(w: World, e: Event): World {
    match e
    case Sense(x, at) =>
      var (s, publish) := Sensed(w.sensors, x);
      World(s, if publish then w.queue + [BusEvent(GroundChanged, PackGround(s.lastFwd, s.lastRev), at)] else w.queue,
            w.coord)
    case Post(ev) => w.(queue := w.queue + [ev])
    case CoordTick(now, session) => World(w.sensors, [], Ticked(w.coord, w.queue, now, session).0)
  }

  function MotionOf(w: World, e: Event): Motion
    requires e.CoordTick?
  {
    Ticked(w.coord, w.queue, e.now, e.session).1
  }

  function RunOf(w: World, events: seq<Event>): World
    decreases |events|
  {
    if events == [] then w else RunOf(After(w, events[0]), events[1..])
  }

  predicate AllAllowed(events: seq<Event>) {
    forall i :: 0 <= i < |events| ==> Allowed(events[i])
  }

  // ── The coordinator's rails follow the sensor task's ──────────────────────

  /** Rails after reading a queue. */
  function Rails(fwd: bool, rev: bool, queue: seq<BusEvent>): (bool, bool) {
    if queue == [] then (fwd, rev)
    else
      var last := queue[|queue| - 1];
      if last.kind.GroundChanged? then (FwdOf(last.payload), RevOf(last.payload))
      else Rails(fwd, rev, queue[..|queue| - 1])
  }

  /** Does a rail go from ground to void anywhere in the queue? */
  predicate Loses(fwd: bool, rev: bool, queue: seq<BusEvent>) {
    queue != [] &&
    var p := queue[..|queue| - 1];
    var last := queue[|queue| - 1];
    || Loses(fwd, rev, p)
    || (last.kind.GroundChanged? &&
        ((Rails(fwd, rev, p).0 && !FwdOf(last.payload)) || (Rails(fwd, rev, p).1 && !RevOf(last.payload))))
  }

  lemma {:induction false} DrainSplits(c: Coord, e: Edges, queue: seq<BusEvent>, ev: BusEvent, now: u32)
    ensures var (d, f) := Drained(c, e, queue, now);
            Drained(c, e, queue + [ev], now) == Taken(d, f, ev, now)
    decreases |queue|
  {
    hide Taken;
    if queue == [] {
      var one := [] + [ev];
      assert one[1..] == [];
      assert Drained(c, e, one, now) == Drained(Taken(c, e, ev, now).0, Taken(c, e, ev, now).1, [], now);
    } else {
      var t := Taken(c, e, queue[0], now);
      assert (queue + [ev])[1..] == queue[1..] + [ev];
      DrainSplits(t.0, t.1, queue[1..], ev, now);
    }
  }

  lemma TakenRails(c: Coord, e: Edges, ev: BusEvent, now: u32)
    ensures var t := Taken(c, e, ev, now);
            && (t.0.fwd, t.0.rev) ==
               (if ev.kind.GroundChanged? then (FwdOf(ev.payload), RevOf(ev.payload)) else (c.fwd, c.rev))
            && (t.1.ground <==>
                (e.ground
                 || (ev.kind.GroundChanged? && ((c.fwd && !FwdOf(ev.payload)) || (c.rev && !RevOf(ev.payload))))))
            && t.0.mode == c.mode && t.0.latched == c.latched
  {
  }

  /** What a drain leaves: the queue's rails, and the entry edge exactly when one was lost. */
  lemma {:induction false} DrainFindsLoss(c: Coord, queue: seq<BusEvent>, now: u32)
    ensures var d := Drained(c, NO_EDGES, queue, now);
            && (d.0.fwd, d.0.rev) == Rails(c.fwd, c.rev, queue)
            && (d.1.ground <==> Loses(c.fwd, c.rev, queue))
            && d.0.mode == c.mode && d.0.latched == c.latched
    decreases |queue|
  {
    if queue == [] {
    } else {
      var p := queue[..|queue| - 1];
      var last := queue[|queue| - 1];
      assert queue == p + [last];
      DrainFindsLoss(c, p, now);
      DrainSplits(c, NO_EDGES, p, last, now);
      var d := Drained(c, NO_EDGES, p, now);
      TakenRails(d.0, d.1, last, now);
      hide Taken, Drained, FwdOf, RevOf;
    }
  }

  lemma PackedRails(fwd: bool, rev: bool)
    ensures FwdOf(PackGround(fwd, rev)) == fwd && RevOf(PackGround(fwd, rev)) == rev
  {
  }

  /** Coordinator's rails plus what is still queued are the levels last published. */
  predicate InStep(w: World) {
    && Rails(w.coord.fwd, w.coord.rev, w.queue) == (w.sensors.lastFwd, w.sensors.lastRev)
    && w.coord.latched == (w.coord.mode == Emergency)
  }

  lemma RailsOfMore(fwd: bool, rev: bool, queue: seq<BusEvent>, ev: BusEvent)
    ensures Rails(fwd, rev, queue + [ev]) ==
            if ev.kind.GroundChanged? then (FwdOf(ev.payload), RevOf(ev.payload)) else Rails(fwd, rev, queue)
    ensures Loses(fwd, rev, queue + [ev]) <==>
            || Loses(fwd, rev, queue)
            || (ev.kind.GroundChanged? &&
                ((Rails(fwd, rev, queue).0 && !FwdOf(ev.payload)) || (Rails(fwd, rev, queue).1 && !RevOf(ev.payload))))
  {
    assert (queue + [ev])[..|queue + [ev]| - 1] == queue;
  }

  lemma TickRails(c: Coord, queue: seq<BusEvent>, now: u32, s: Session)
    ensures var d := Ticked(c, queue, now, s).0;
            (d.fwd, d.rev) == Rails(c.fwd, c.rev, queue) && d.latched == (d.mode == Emergency)
  {
    DrainFindsLoss(c, queue, now);
    hide Drained, Arbitrate, Fed;
  }

  lemma StepKeepsInStep(w: World, e: Event)
    requires InStep(w) && Allowed(e)
    ensures InStep(After(w, e))
  {
    match e
    case Sense(x, at) =>
      var (s, publish) := Sensed(w.sensors, x);
      if publish {
        PackedRails(s.lastFwd, s.lastRev);
        RailsOfMore(w.coord.fwd, w.coord.rev, w.queue, BusEvent(GroundChanged, PackGround(s.lastFwd, s.lastRev), at));
      }
    case Post(ev) => RailsOfMore(w.coord.fwd, w.coord.rev, w.queue, ev);
    case CoordTick(now, session) => TickRails(w.coord, w.queue, now, session);
  }

  /** After every tick the coordinator's rails are the levels the sensor task last published. */
  lemma {:induction false} RailsFollow(w: World, events: seq<Event>)
    requires InStep(w) && AllAllowed(events)
    ensures InStep(RunOf(w, events))
    ensures events != [] && events[|events| - 1].CoordTick? ==>
              var v := RunOf(w, events);
              v.coord.fwd == v.sensors.lastFwd && v.coord.rev == v.sensors.lastRev
    decreases |events|
  {
    if events == [] {
    } else {
      StepKeepsInStep(w, events[0]);
      assert AllAllowed(events[1..]);
      var w' := After(w, events[0]);
      if events[0].CoordTick? {
        assert w'.queue == [] by { hide InStep, Ticked; }
        hide After, InStep;
        FromEmptyQueue(w');
      }
      hide After, InStep;
      RailsFollow(w', events[1..]);
    }
  }

  lemma FromEmptyQueue(w: World)
    requires InStep(w) && w.queue == []
    ensures w.coord.fwd == w.sensors.lastFwd && w.coord.rev == w.sensors.lastRev
  {
  }

  // ── A published loss brakes on the tick that drains it ────────────────────

  /** Did this sensor tick publish a rail going from ground to void? */
  predicate PublishesLoss(s: Sensors, x: Sample) {
    var t := Sensed(s, x).0;
    (s.lastFwd && !t.lastFwd) || (s.lastRev && !t.lastRev)
  }

  predicate LossQueued(w: World) {
    Loses(w.coord.fwd, w.coord.rev, w.queue)
  }

  lemma LossIsQueued(w: World, x: Sample, at: nat)
    requires InStep(w) && PublishesLoss(w.sensors, x)
    ensures LossQueued(After(w, Sense(x, at)))
  {
    var (s, publish) := Sensed(w.sensors, x);
    PackedRails(s.lastFwd, s.lastRev);
    RailsOfMore(w.coord.fwd, w.coord.rev, w.queue, BusEvent(GroundChanged, PackGround(s.lastFwd, s.lastRev), at));
  }

  predicate NoTick(events: seq<Event>) {
    forall i :: 0 <= i < |events| ==> !events[i].CoordTick?
  }

  lemma {:induction false} LossStaysQueued(w: World, events: seq<Event>)
    requires LossQueued(w) && NoTick(events)
    ensures LossQueued(RunOf(w, events))
    decreases |events|
  {
    if events == [] {
    } else {
      var w' := After(w, events[0]);
      assert LossQueued(w') by {
        match events[0] {
          case Sense(x, at) =>
            var s := Sensed(w.sensors, x).0;
            RailsOfMore(w.coord.fwd, w.coord.rev, w.queue,
                        BusEvent(GroundChanged, PackGround(s.lastFwd, s.lastRev), at));
          case Post(ev) =>
            RailsOfMore(w.coord.fwd, w.coord.rev, w.queue, ev);
        }
      }
      hide After, LossQueued;
      LossStaysQueued(w', events[1..]);
    }
  }

  lemma QueuedLossBrakes(w: World, now: u32, session: Session)
    requires LossQueued(w)
    ensures Ticked(w.coord, w.queue, now, session).1 == Brake
    ensures Ticked(w.coord, w.queue, now, session).0.mode == Emergency
  {
    DrainFindsLoss(w.coord, w.queue, now);
    hide Drained, Loses, Fed;
  }

  /** Whatever is published after a loss, even that the ground is back, the first coordinator
    * tick from then on brakes and enters EMERGENCY. */
  lemma PublishedLossBrakes(w: World, x: Sample, at: nat, between: seq<Event>, now: u32, session: Session)
    requires InStep(w) && PublishesLoss(w.sensors, x) && NoTick(between)
    ensures var v := RunOf(After(w, Sense(x, at)), between);
            MotionOf(v, CoordTick(now, session)) == Brake && After(v, CoordTick(now, session)).coord.mode == Emergency
  {
    LossIsQueued(w, x, at);
    LossStaysQueued(After(w, Sense(x, at)), between);
    QueuedLossBrakes(RunOf(After(w, Sense(x, at)), between), now, session);
  }

  /** A rail is published lost exactly when it was published present and a healthy, level
    * tick with that rail on holds it void; from an ADC reading in the void band it is. */
  lemma LossIsPublishedIff(s: Sensors, x: Sample)
    ensures var p := Polled(s, x);
            PublishesLoss(s, x) <==>
            x.mpuHealthy && x.level && ((x.fwdOn && s.lastFwd && !p.fwdLevel) || (x.revOn && s.lastRev && !p.revLevel))
    ensures x.due && x.fwdOn && x.fwdCounts >= TCRT_THRESHOLD + TCRT_HYSTERESIS ==> !Polled(s, x).fwdLevel
    ensures x.due && x.revOn && x.revCounts >= TCRT_THRESHOLD + TCRT_HYSTERESIS ==> !Polled(s, x).revLevel
  {
    var p := Polled(s, x);
    assert p.lastFwd == s.lastFwd && p.lastRev == s.lastRev;
    assert Sensed(s, x).0.lastFwd == Fused(p, x).0 && Sensed(s, x).0.lastRev == Fused(p, x).1;
  }

  // ── EMERGENCY until a permitted command ───────────────────────────────────

  /** The only way out: no loss in this drain, and a command drained on this tick, still
    * fresh, allowed by the mode, not centred, in a direction with ground. */
  predicate Exits(w: World, e: Event)
    requires e.CoordTick?
  {
    var d := Drained(w.coord, NO_EDGES, w.queue, e.now);
    var c := d.0;
    && !Loses(w.coord.fwd, w.coord.rev, w.queue)
    && d.1.command && !Stale(c, e.now) && DriveAllowed(Fed(c.sys, e.session), e.session.paired)
    && (c.v != 0 || c.omega != 0)
    && (if c.v > 0 then c.fwd else if c.v < 0 then c.rev else c.fwd || c.rev)
  }

  /** Forward needs ground ahead, reverse needs ground behind. */
  predicate Safe(m: Motion, fwd: bool, rev: bool) {
    m.Velocity? ==> (m.v > 0 ==> fwd) && (m.v < 0 ==> rev)
  }

  lemma EmergencyTick(w: World, e: Event)
    requires InStep(w) && e.CoordTick? && w.coord.mode == Emergency
    ensures After(w, e).coord.mode == Emergency <==> !Exits(w, e)
    ensures Safe(MotionOf(w, e), After(w, e).sensors.lastFwd, After(w, e).sensors.lastRev)
  {
    DrainFindsLoss(w.coord, w.queue, e.now);
    TickRails(w.coord, w.queue, e.now, e.session);
    hide Drained, Loses, Rails, Fed, Since;
  }

  /** From a brake on, at every tick up to and including the one that exits: the wheels are
    * sent forward only with the front rail's last published level at ground, backward only
    * with the rear's; and EMERGENCY lasts exactly until the first exit. */
  lemma {:induction false} EmergencyHolds(w: World, events: seq<Event>, k: nat)
    requires InStep(w) && w.coord.mode == Emergency && AllAllowed(events) && k <= |events|
    requires forall i :: 0 <= i < k && events[i].CoordTick? ==> !Exits(RunOf(w, events[..i]), events[i])
    ensures var v := RunOf(w, events[..k]);
            && v.coord.mode == Emergency
            && (k < |events| && events[k].CoordTick? ==>
                  && Safe(MotionOf(v, events[k]), v.sensors.lastFwd, v.sensors.lastRev)
                  && (After(v, events[k]).coord.mode != Emergency <==> Exits(v, events[k])))
    decreases k
  {
    if k == 0 {
      if 0 < |events| && events[0].CoordTick? {
        EmergencyTick(w, events[0]);
      }
    } else {
      var e := events[0];
      var w' := After(w, e);
      StepKeepsInStep(w, e);
      if e.CoordTick? {
        assert RunOf(w, events[..0]) == w;
        EmergencyTick(w, e);
      }
      assert w'.coord.mode == Emergency;
      var rest := events[1..];
      forall i | 0 <= i < k - 1 && rest[i].CoordTick?
        ensures !Exits(RunOf(w', rest[..i]), rest[i])
      {
        assert events[..i + 1][0] == e && events[..i + 1][1..] == rest[..i];
        assert rest[i] == events[i + 1];
      }
      assert AllAllowed(rest);
      assert events[..k][0] == e && events[..k][1..] == rest[..k - 1];
      assert k < |events| ==> rest[k - 1] == events[k];
      hide After, InStep, Exits, Safe, MotionOf;
      EmergencyHolds(w', rest, k - 1);
    }
  }

  // ── From boot ─────────────────────────────────────────────────────────────

  const BOOT := World(Sensors(true, true, true, true), [], START)

  lemma BootIsInStep()
    ensures InStep(BOOT)
  {
  }

  /** At every tick since boot the coordinator has the published rails. */
  lemma RailsFollowSinceBoot(events: seq<Event>)
    requires AllAllowed(events) && events != [] && events[|events| - 1].CoordTick?
    ensures var v := RunOf(BOOT, events);
            v.coord.fwd == v.sensors.lastFwd && v.coord.rev == v.sensors.lastRev
  {
    BootIsInStep();
    RailsFollow(BOOT, events);
  }

  /** Where a loss published at some time since boot has led once a tick has drained it. */
  function AfterLoss(before: seq<Event>, x: Sample, at: nat, between: seq<Event>): World {
    RunOf(After(RunOf(BOOT, before), Sense(x, at)), between)
  }

  /** The whole reaction, from boot: whatever happened `before`, a published loss makes the first
    * tick brake, and from there EMERGENCY lasts exactly until the first exit, at which the
    * wheels are sent only where there is ground. */
  lemma LossSinceBootHolds(before: seq<Event>, x: Sample, at: nat, between: seq<Event>,
                           tick: Event, events: seq<Event>, k: nat)
    requires AllAllowed(before) && AllAllowed(between) && NoTick(between) && tick.CoordTick? && AllAllowed(events)
    requires PublishesLoss(RunOf(BOOT, before).sensors, x)
    requires var u := After(AfterLoss(before, x, at, between), tick);
             k <= |events| && forall i :: 0 <= i < k && events[i].CoordTick? ==>
                 !Exits(RunOf(u, events[..i]), events[i])
    ensures MotionOf(AfterLoss(before, x, at, between), tick) == Brake
    ensures var v := RunOf(After(AfterLoss(before, x, at, between), tick), events[..k]);
            && v.coord.mode == Emergency
            && (k < |events| && events[k].CoordTick? ==>
                  && Safe(MotionOf(v, events[k]), v.sensors.lastFwd, v.sensors.lastRev)
                  && (After(v, events[k]).coord.mode != Emergency <==> Exits(v, events[k])))
  {
    BootIsInStep();
    RailsFollow(BOOT, before);
    var w := RunOf(BOOT, before);
    var v := AfterLoss(before, x, at, between);
    hide InStep, Exits, Safe, PublishesLoss;
    PublishedLossBrakes(w, x, at, between, tick.now, tick.session);
    StepKeepsInStep(w, Sense(x, at));
    RailsFollow(After(w, Sense(x, at)), between);
    StepKeepsInStep(v, tick);
    hide After, RunOf, MotionOf;
    EmergencyHolds(After(v, tick), events, k);
  }

  // ── A sensor tick in full ─────────────────────────────────────────────────

  /** One rail's level after a reading: void from 800 counts up, ground from 400 down, and in the
    * band between as it was. */
  predicate LevelIs(before: bool, read: bool, counts: u16, after: bool) {
    if !read then after == before
    else (counts >= 800 ==> !after) && (counts <= 400 ==> after) && (400 < counts < 800 ==> after == before)
  }

  /** Hysteresis in either polarity, for every band: counts on the ground's side set the level,
    * counts on the other side clear it, and strictly between them it stays. */
  lemma RailIs(level: bool, counts: u16, threshold: u16, hyst: u16, assertHigh: bool)
    requires hyst > 0
    ensures var after := RailUpdate(level, counts, threshold, hyst, assertHigh);
            var low, high := counts + hyst <= threshold, counts >= threshold + hyst;
            && (low ==> after == !assertHigh) && (high ==> after == assertHigh)
            && (!low && !high ==> after == level)
  {
  }

  /** Everything a sensor tick does. The drivers' levels follow due readings of rails that are on;
    * the published levels follow them on healthy, level ticks; and a tick publishes, both levels
    * in one word, exactly when it changes a published level. */
  lemma SenseIs(s: Sensors, x: Sample)
    ensures var (t, publish) := Sensed(s, x);
            && LevelIs(s.fwdLevel, x.due && x.fwdOn, x.fwdCounts, t.fwdLevel)
            && LevelIs(s.revLevel, x.due && x.revOn, x.revCounts, t.revLevel)
            && t.lastFwd == (if x.mpuHealthy && x.level && x.fwdOn then t.fwdLevel else s.lastFwd)
            && t.lastRev == (if x.mpuHealthy && x.level && x.revOn then t.revLevel else s.lastRev)
            && (publish <==> t.lastFwd != s.lastFwd || t.lastRev != s.lastRev)
            && PackGround(t.lastFwd, t.lastRev) == (if t.lastFwd then 1 else 0) + (if t.lastRev then 2 else 0)
  {
  }
}
