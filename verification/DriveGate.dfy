/** When the wheels may be driven at all: whatever order windows, OTA, takes, releases,
  * goodbyes and frames come in.
  */
module DriveGate {
  import opened MotionPolicy
  import opened Words

  const ALIVE_MS := 5000

  function Clock(t: nat): u32 {
    t % 0x1_0000_0000
  }

  // ── The peer slot ─────────────────────────────────────────────────────────

  datatype Conn = Conn(peer: u32, have: bool, lastMs: u32)

  predicate Alive(c: Conn, now: u32) {
    c.have && Since(c.lastMs, now) <= ALIVE_MS
  }

  function Marked(from: u32, now: u32): Conn {
    Conn(from, true, now)
  }

  function Pinned(c: Conn, from: u32): Conn {
    c.(peer := from, have := true)
  }

  function Parted(c: Conn, now: u32): Conn {
    c.(have := false, lastMs := now)
  }

  /** A token is spent by the call that takes it; only a valid one changes anything. */
  class ConnectionManager {
    var peer: u32
    var have: bool
    var lastMs: u32

    function View(): Conn
      reads this
    {
      Conn(peer, have, lastMs)
    }

    constructor ()
      ensures View() == Conn(0, false, 0)
    {
      peer, have, lastMs := 0, false, 0;
    }

    method MarkAlive(valid: bool, from: u32, now: u32) returns (pinned: bool)
      modifies this
      ensures pinned == valid
      ensures View() == if valid then Conn(from, true, now) else old(View())
      ensures valid ==> View() == Marked(from, now)
    {
      if !valid {
        return false;
      }
      peer, have, lastMs := from, true, now;
      return true;
    }

    method PinPeer(from: u32)
      modifies this
      ensures View() == Conn(from, true, old(lastMs)) == Pinned(old(View()), from)
    {
      peer, have := from, true;
    }

    method RefreshThenClear(valid: bool, now: u32)
      modifies this
      ensures View() == if valid then Conn(old(peer), false, now) else old(View())
      ensures valid ==> View() == Parted(old(View()), now)
    {
      if valid {
        lastMs, have := now, false;
      }
    }

    method IsAlive(now: u32) returns (alive: bool)
      ensures alive == Alive(View(), now)
      ensures alive <==> have && (now as int - lastMs as int) % 0x1_0000_0000 <= 5000
    {
      return have && Since(lastMs, now) <= ALIVE_MS;
    }

    method Clear()
      modifies this
      ensures View() == Conn(0, false, 0)
    {
      peer, have, lastMs := 0, false, 0;
    }
  }

  // ── Coordinator, session and peer slot over time ──────────────────────────

  /** A command the coordinator has drained, and the tick that drained it. */
  datatype DrainedCommand = DrainedCommand(event: BusEvent, tick: nat)

  /** The running system. For the record: `stamp` is when the alive stamp was last set,
    * `verified` the last verified frame that set it, `command` the last drained command,
    * `feeds` all that reached the mode. */
  datatype World = World(coord: Coord, queue: seq<BusEvent>, paired: bool, take: bool, release: bool, conn: Conn,
                         now: nat, lastTick: nat, stamp: nat, verified: Option<nat>,
                         command: Option<DrainedCommand>, feeds: seq<Feed>)

  datatype Opcode = Keepalive | DriveCommand(payload: u32) | ManualTake | ExprTrigger | Rotation

  datatype Event =
    | Frame(op: Opcode, from: u32, at: nat)
    | Release(at: nat)
    | Goodbye(at: nat)
    | Unpair(at: nat)
    | PairOk(from: u32, at: nat)
    | Evict(at: nat)
    | LegacyPin(from: u32, at: nat)
    | StageOta(at: nat)
    | FinishOta(at: nat)
    | Other(kind: Kind, payload: u32, at: nat)
    | CoordTick(windowOpen: bool, at: nat)

  /** Time goes on; frames count only while paired, pairing and legacy pins only while not. */
  predicate Possible(w: World, e: Event) {
    && w.now <= e.at
    && (e.Frame? || e.Release? || e.Goodbye? || e.Unpair? ==> w.paired)
    && (e.PairOk? || e.LegacyPin? ==> !w.paired)
    && (e.Other? ==> !e.kind.CommandReceived?)
  }

  function Reads(w: World, windowOpen: bool, at: nat): Session {
    Session(windowOpen, w.paired, w.take, w.release, Alive(w.conn, Clock(at)))
  }

  function LastCommand(queue: seq<BusEvent>): Option<BusEvent> {
    if queue == [] then None
    else if queue[|queue| - 1].kind.CommandReceived? then Some(queue[|queue| - 1])
    else LastCommand(queue[..|queue| - 1])
  }

  function Stamped(w: World, at: nat): World {
    w.(stamp := at, verified := Some(at))
  }

  function After(w: World, e: Event): World {
    var u := w.(now := e.at);
    match e
    case Frame(op, from, at) =>
      var v := Stamped(u, at).(conn := Marked(from, Clock(at)));
      if op.DriveCommand? then v.(queue := v.queue + [BusEvent(CommandReceived, op.payload, at)])
      else if op.ManualTake? then v.(take := true)
      else v
    case Release(_) => u.(release := true)
    case Goodbye(at) => Stamped(u, at).(conn := Parted(u.conn, Clock(at)))
    case Unpair(at) =>
      Stamped(u, at).(conn := Parted(u.conn, Clock(at)),
                      paired := false, take := false, release := false)
    case PairOk(from, _) => u.(paired := true, conn := Pinned(u.conn, from))
    case Evict(_) => u.(conn := Conn(0, false, 0), stamp := 0, paired := false, take := false, release := false)
    case LegacyPin(from, _) => u.(conn := Pinned(u.conn, from))
    case StageOta(_) => u.(coord := u.coord.(sys := Apply(u.coord.sys, OtaStaged)), feeds := u.feeds + [Staged])
    case FinishOta(_) => u.(coord := u.coord.(sys := Apply(u.coord.sys, OtaDone)), feeds := u.feeds + [Done])
    case Other(kind, payload, at) => u.(queue := u.queue + [BusEvent(kind, payload, at)])
    case CoordTick(windowOpen, at) =>
      var s := Reads(w, windowOpen, at);
      var last := LastCommand(w.queue);
      u.(coord := Ticked(w.coord, w.queue, Clock(at), s).0, queue := [],
         take := false, release := false, lastTick := at,
         command := if last.Some? then Some(DrainedCommand(last.value, at)) else w.command,
         feeds := u.feeds + [Tick(s)])
  }

  function MotionOf(w: World, e: Event): Motion
    requires e.CoordTick?
  {
    Ticked(w.coord, w.queue, Clock(e.at), Reads(w, e.windowOpen, e.at)).1
  }

  function Boot(paired: bool): World {
    World(START, [], paired, false, false, Conn(0, false, 0), 0, 0, 0, None, None, [])
  }

  function RunOf(w: World, events: seq<Event>): World
    decreases |events|
  {
    if events == [] then w else RunOf(After(w, events[0]), events[1..])
  }

  predicate AllPossible(w: World, events: seq<Event>)
    decreases |events|
  {
    events != [] ==> Possible(w, events[0]) && AllPossible(After(w, events[0]), events[1..])
  }

  // ── The record is true ────────────────────────────────────────────────────

  predicate CommandKept(w: World) {
    w.coord.hasCmd ==>
      && w.command.Some?
      && w.command.value.event.kind.CommandReceived?
      && w.coord.v == ThrottleOf(w.command.value.event.payload)
      && w.coord.omega == SteerOf(w.command.value.event.payload)
      && w.coord.lastCmd == Clock(w.command.value.tick)
      && w.command.value.event.at <= w.command.value.tick <= w.now
  }

  predicate StampKept(w: World) {
    && w.conn.lastMs == Clock(w.stamp) && w.stamp <= w.now
    && (w.stamp == 0 || w.verified == Some(w.stamp))
    && (w.verified.Some? ==> w.verified.value <= w.now)
    && (w.take || w.coord.sys == Manual ==> w.verified.Some?)
  }

  predicate Inv(w: World) {
    && w.coord.sys == ModeAfter(w.feeds)
    && w.coord.latched == (w.coord.mode == Emergency)
    && (forall i :: 0 <= i < |w.queue| ==> w.lastTick <= w.queue[i].at <= w.now)
    && w.lastTick <= w.now
    && CommandKept(w)
    && StampKept(w)
  }

  lemma {:induction false} DrainKeepsCommand(c: Coord, e: Edges, queue: seq<BusEvent>, now: u32)
    ensures var d := Drained(c, e, queue, now).0;
            && d.sys == c.sys && d.mode == c.mode && d.latched == c.latched && d.active == c.active
            && (if LastCommand(queue).Some?
                then d.hasCmd && d.v == ThrottleOf(LastCommand(queue).value.payload)
                     && d.omega == SteerOf(LastCommand(queue).value.payload) && d.lastCmd == now
                else d.hasCmd == c.hasCmd && d.v == c.v && d.omega == c.omega && d.lastCmd == c.lastCmd)
    decreases |queue|
  {
    if queue == [] {
    } else {
      var t := Taken(c, e, queue[0], now);
      DrainKeepsCommand(t.0, t.1, queue[1..], now);
      LastOfRest(queue);
      hide ThrottleOf, SteerOf, FwdOf, RevOf, LastCommand;
    }
  }

  lemma {:induction false} LastOfRest(queue: seq<BusEvent>)
    requires queue != []
    ensures LastCommand(queue) ==
            if LastCommand(queue[1..]).Some? then LastCommand(queue[1..])
            else if queue[0].kind.CommandReceived? then Some(queue[0]) else None
    decreases |queue|
  {
    if |queue| == 1 {
    } else {
      var p := queue[..|queue| - 1];
      assert queue[1..][..|queue[1..]| - 1] == p[1..];
      assert queue[1..][|queue[1..]| - 1] == queue[|queue| - 1];
      LastOfRest(p);
    }
  }

  lemma {:induction false} LastIsQueued(queue: seq<BusEvent>)
    ensures LastCommand(queue).Some? ==>
            LastCommand(queue).value in queue && LastCommand(queue).value.kind.CommandReceived?
    decreases |queue|
  {
    if queue != [] {
      LastIsQueued(queue[..|queue| - 1]);
    }
  }

  lemma ModeOfMore(h: seq<Feed>, f: Feed)
    ensures ModeAfter(h + [f]) ==
            match f
            case Tick(s) => Fed(ModeAfter(h), s)
            case Staged => Apply(ModeAfter(h), OtaStaged)
            case Done => Apply(ModeAfter(h), OtaDone)
  {
    assert (h + [f])[..|h + [f]| - 1] == h;
  }

  lemma TickMode(c: Coord, queue: seq<BusEvent>, now: u32, s: Session)
    ensures var d := Ticked(c, queue, now, s).0;
            && d.sys == Fed(c.sys, s) && d.latched == (d.mode == Emergency)
            && (d.hasCmd, d.v, d.omega, d.lastCmd) ==
               (if LastCommand(queue).Some?
                then (true, ThrottleOf(LastCommand(queue).value.payload),
                      SteerOf(LastCommand(queue).value.payload), now)
                else (c.hasCmd, c.v, c.omega, c.lastCmd))
  {
    DrainKeepsCommand(c, NO_EDGES, queue, now);
    hide Drained, Arbitrate, Fed, ThrottleOf, SteerOf, LastCommand;
  }

  lemma TickKeepsMode(w: World, e: Event)
    requires Inv(w) && e.CoordTick?
    ensures var v := After(w, e);
            v.coord.sys == ModeAfter(v.feeds) && v.coord.latched == (v.coord.mode == Emergency)
  {
    var s := Reads(w, e.windowOpen, e.at);
    TickMode(w.coord, w.queue, Clock(e.at), s);
    ModeOfMore(w.feeds, Tick(s));
    hide Ticked, Fed, LastCommand, ModeAfter, CommandKept, StampKept, ThrottleOf, SteerOf;
  }

  lemma TickKeepsCommand(w: World, e: Event)
    requires Inv(w) && Possible(w, e) && e.CoordTick?
    ensures CommandKept(After(w, e))
  {
    TickMode(w.coord, w.queue, Clock(e.at), Reads(w, e.windowOpen, e.at));
    LastIsQueued(w.queue);
    hide Ticked, Fed, LastCommand, ModeAfter, StampKept, ThrottleOf, SteerOf, Clock;
  }

  lemma TickKeepsStamp(w: World, e: Event)
    requires Inv(w) && Possible(w, e) && e.CoordTick?
    ensures StampKept(After(w, e))
  {
    var s := Reads(w, e.windowOpen, e.at);
    TickMode(w.coord, w.queue, Clock(e.at), s);
    FedIsManual(w.coord.sys, s);
    hide Ticked, Fed, Undisturbed, LastCommand, ModeAfter, CommandKept, ThrottleOf, SteerOf, Clock, Since;
  }

  lemma TickKeepsInv(w: World, e: Event)
    requires Inv(w) && Possible(w, e) && e.CoordTick?
    ensures Inv(After(w, e))
  {
    TickKeepsMode(w, e);
    TickKeepsCommand(w, e);
    TickKeepsStamp(w, e);
    hide Ticked, LastCommand, ModeAfter, CommandKept, StampKept, Clock;
  }

  lemma FrameKeepsInv(w: World, e: Event)
    requires Inv(w) && Possible(w, e) && (e.Frame? || e.Other?)
    ensures Inv(After(w, e))
  {
    hide ModeAfter, ThrottleOf, SteerOf, Clock, Since, Reads, Apply;
  }

  lemma OtaKeepsInv(w: World, e: Event)
    requires Inv(w) && Possible(w, e) && (e.StageOta? || e.FinishOta?)
    ensures Inv(After(w, e))
  {
    ModeOfMore(w.feeds, Staged);
    ModeOfMore(w.feeds, Done);
    hide ModeAfter, ThrottleOf, SteerOf, Clock, Since, Reads;
  }

  lemma SessionKeepsInv(w: World, e: Event)
    requires Inv(w) && Possible(w, e)
    requires e.Release? || e.Goodbye? || e.Unpair? || e.PairOk? || e.Evict? || e.LegacyPin?
    ensures Inv(After(w, e))
  {
    assert Clock(0) == 0;
    hide ModeAfter, ThrottleOf, SteerOf, Clock, Since, Reads, Apply;
  }

  lemma StepKeepsInv(w: World, e: Event)
    requires Inv(w) && Possible(w, e)
    ensures Inv(After(w, e))
  {
    hide *;
    if e.CoordTick? {
      TickKeepsInv(w, e);
    } else if e.Frame? || e.Other? {
      FrameKeepsInv(w, e);
    } else if e.StageOta? || e.FinishOta? {
      OtaKeepsInv(w, e);
    } else {
      SessionKeepsInv(w, e);
    }
  }

  lemma {:induction false} RunKeepsInv(w: World, events: seq<Event>)
    requires Inv(w) && AllPossible(w, events)
    ensures Inv(RunOf(w, events))
    decreases |events|
  {
    if events == [] {
    } else {
      StepKeepsInv(w, events[0]);
      RunKeepsInv(After(w, events[0]), events[1..]);
    }
  }

  // ── The gate ──────────────────────────────────────────────────────────────

  /** Exactly when a tick sends the wheels a nonzero speed: no rail was lost in this drain,
    * the mode after this tick's feeds is MANUAL, the session is paired, the last drained
    * command is at most 500 ms old on the 32-bit clock and not centred, and in EMERGENCY it
    * turns or points where there is ground. */
  lemma MovesIff(c: Coord, queue: seq<BusEvent>, now: u32, s: Session)
    requires c.latched == (c.mode == Emergency)
    ensures var d := Drained(c, NO_EDGES, queue, now);
            Ticked(c, queue, now, s).1.Velocity? <==>
              && !d.1.ground
              && Fed(c.sys, s) == Manual && s.paired
              && d.0.hasCmd && Since(d.0.lastCmd, now) <= STALE_MS
              && (d.0.v != 0 || d.0.omega != 0)
              && (c.mode == Emergency ==> d.0.omega != 0 || (d.0.v > 0 && d.0.fwd) || (d.0.v < 0 && d.0.rev))
    ensures Ticked(c, queue, now, s).1.Velocity? ==>
              var m := Ticked(c, queue, now, s).1;
              var d := Drained(c, NO_EDGES, queue, now).0;
              m.omega == d.omega
              && m.v == if c.mode == Emergency && ((d.v > 0 && !d.fwd) || (d.v < 0 && !d.rev)) then 0 else d.v
  {
    DrainKeepsCommand(c, NO_EDGES, queue, now);
    hide Drained, Fed, Since, LastCommand, ThrottleOf, SteerOf;
  }

  /** What stands behind every nonzero velocity. */
  predicate Justified(w: World, e: Event, m: Motion)
    requires e.CoordTick? && m.Velocity?
  {
    var v := After(w, e);
    && v.coord.sys == Manual && w.paired && !e.windowOpen
    && v.command.Some?
    && (var c := v.command.value;
        && c.event.kind.CommandReceived? && c.event.at <= c.tick <= e.at
        && (e.at - c.tick) % 0x1_0000_0000 <= STALE_MS
        && m.omega == SteerOf(c.event.payload)
        && (m.v == ThrottleOf(c.event.payload) || (m.v == 0 && w.coord.mode == Emergency)))
    && v.verified.Some? && v.verified.value <= e.at
    && (v.stamp == 0 || v.verified == Some(v.stamp))
    && (e.at - v.stamp) % 0x1_0000_0000 <= ALIVE_MS
  }

  lemma ElapsedIs(before: nat, now: nat)
    requires before <= now
    ensures Since(Clock(before), Clock(now)) == (now - before) % 0x1_0000_0000
  {
    var a, b := before / 0x1_0000_0000, now / 0x1_0000_0000;
    var x: int, y: int := Clock(before), Clock(now);
    if y >= x {
      ModUnique(now - before, 0x1_0000_0000, b - a, y - x);
    } else {
      ModUnique(now - before, 0x1_0000_0000, b - a - 1, y - x + 0x1_0000_0000);
    }
  }

  lemma MovingTickCommand(w: World, e: Event)
    requires Inv(w) && Possible(w, e) && e.CoordTick? && MotionOf(w, e).Velocity?
    ensures var m := MotionOf(w, e);
            var c := After(w, e).coord;
            && c.hasCmd && Since(c.lastCmd, Clock(e.at)) <= STALE_MS
            && m.omega == c.omega && (m.v == c.v || (m.v == 0 && w.coord.mode == Emergency))
            && c.sys == Manual && w.paired && !e.windowOpen && Alive(w.conn, Clock(e.at))
  {
    var s := Reads(w, e.windowOpen, e.at);
    MovesIff(w.coord, w.queue, Clock(e.at), s);
    TickMode(w.coord, w.queue, Clock(e.at), s);
    DrainKeepsCommand(w.coord, NO_EDGES, w.queue, Clock(e.at));
    FedIsManual(w.coord.sys, s);
    hide Ticked, Drained, Fed, ModeAfter, ThrottleOf, SteerOf, LastCommand, Since, Clock, CommandKept, StampKept;
  }

  lemma AgeIs(before: nat, now: nat, last: u32, bound: nat)
    requires before <= now && last == Clock(before) && Since(last, Clock(now)) <= bound
    ensures (now - before) % 0x1_0000_0000 <= bound
  {
    ElapsedIs(before, now);
  }

  lemma TickIsJustified(w: World, e: Event)
    requires Inv(w) && Possible(w, e) && e.CoordTick? && MotionOf(w, e).Velocity?
    ensures Justified(w, e, MotionOf(w, e))
  {
    var v := After(w, e);
    MovingTickCommand(w, e);
    TickKeepsInv(w, e);
    assert v.conn == w.conn && v.now == e.at;
    assert CommandKept(v) && StampKept(v);
    hide After, MotionOf, CommandKept, StampKept, ThrottleOf, SteerOf, Clock, Since, Alive;
    CommandIsRecent(v, MotionOf(w, e));
    PeerIsRecent(v);
  }

  lemma CommandIsRecent(v: World, m: Motion)
    requires CommandKept(v) && v.coord.hasCmd && Since(v.coord.lastCmd, Clock(v.now)) <= STALE_MS
    requires m.Velocity? && m.omega == v.coord.omega && (m.v == v.coord.v || m.v == 0)
    ensures v.command.Some?
    ensures var c := v.command.value;
            && c.event.kind.CommandReceived? && c.event.at <= c.tick <= v.now
            && (v.now - c.tick) % 0x1_0000_0000 <= STALE_MS
            && m.omega == SteerOf(c.event.payload) && (m.v == ThrottleOf(c.event.payload) || m.v == 0)
  {
    hide ThrottleOf, SteerOf, Clock, Since;
    AgeIs(v.command.value.tick, v.now, v.coord.lastCmd, STALE_MS);
  }

  lemma PeerIsRecent(v: World)
    requires StampKept(v) && v.coord.sys == Manual && Alive(v.conn, Clock(v.now))
    ensures v.verified.Some? && v.verified.value <= v.now
    ensures v.stamp <= v.now && (v.stamp == 0 || v.verified == Some(v.stamp))
    ensures (v.now - v.stamp) % 0x1_0000_0000 <= ALIVE_MS
  {
    hide Clock, Since;
    AgeIs(v.stamp, v.now, v.conn.lastMs, ALIVE_MS);
  }

  /** Over every run from boot: a nonzero velocity is sent only in a manual session that some
    * tick granted and nothing has disturbed since, paired, with no window open, on a verified
    * drive frame drained at most 500 ms ago, from a peer whose last verified frame is at most
    * 5 s old (boot counting as one), ages taken on the 32-bit clock. */
  lemma DriveIsGated(paired: bool, events: seq<Event>, e: Event)
    requires AllPossible(Boot(paired), events)
    requires Possible(RunOf(Boot(paired), events), e) && e.CoordTick?
    requires MotionOf(RunOf(Boot(paired), events), e).Velocity?
    ensures var w := RunOf(Boot(paired), events);
            var h := After(w, e).feeds;
            && Justified(w, e, MotionOf(w, e))
            && exists j :: 0 <= j < |h| && Grants(h, j) && Holds(h, j + 1)
  {
    BootIsSound(paired);
    RunKeepsInv(Boot(paired), events);
    var w := RunOf(Boot(paired), events);
    TickIsJustified(w, e);
    TickKeepsInv(w, e);
    ManualIff(After(w, e).feeds);
    hide RunOf, AllPossible, Ticked, ModeAfter;
  }

  lemma BootIsSound(paired: bool)
    ensures Inv(Boot(paired))
  {
  }

  lemma AgeIsRealIff(age: nat, bound: nat)
    requires bound < 0x1_0000_0000 && age % 0x1_0000_0000 <= bound
    ensures age <= bound <==> age < 0x1_0000_0000
  {
  }

  /** At any uptime, on a tick that moves: the command is at most 500 ms old exactly when fewer
    * than 2^32 ms passed since the tick that drained it, and the peer's stamp at most 5 s old
    * exactly when fewer than 2^32 ms passed since it was set. */
  lemma AgesAreRealIff(paired: bool, events: seq<Event>, e: Event)
    requires AllPossible(Boot(paired), events)
    requires Possible(RunOf(Boot(paired), events), e) && e.CoordTick?
    requires MotionOf(RunOf(Boot(paired), events), e).Velocity?
    ensures var v := After(RunOf(Boot(paired), events), e);
            && v.command.Some? && v.command.value.tick <= e.at && v.stamp <= e.at
            && (e.at - v.command.value.tick <= STALE_MS <==> e.at - v.command.value.tick < 0x1_0000_0000)
            && (e.at - v.stamp <= ALIVE_MS <==> e.at - v.stamp < 0x1_0000_0000)
            && (v.stamp == 0 || v.verified == Some(v.stamp))
  {
    DriveIsGated(paired, events, e);
    RecordIsPast(paired, events, e);
    var v := After(RunOf(Boot(paired), events), e);
    hide *;
    AgeIsRealIff(e.at - v.command.value.tick, 500);
    AgeIsRealIff(e.at - v.stamp, 5000);
  }

  lemma RecordIsPast(paired: bool, events: seq<Event>, e: Event)
    requires AllPossible(Boot(paired), events)
    requires Possible(RunOf(Boot(paired), events), e) && e.CoordTick?
    ensures After(RunOf(Boot(paired), events), e).stamp <= e.at
  {
    BootIsSound(paired);
    RunKeepsInv(Boot(paired), events);
    TickKeepsInv(RunOf(Boot(paired), events), e);
    hide RunOf, AllPossible, Ticked, ModeAfter, CommandKept;
  }

  /** So in the first 2^32 ms after boot a verified frame arrived at most 5 s ago, even if the
    * stamp was cleared since. */
  lemma AgesAreRealEarly(paired: bool, events: seq<Event>, e: Event)
    requires AllPossible(Boot(paired), events)
    requires Possible(RunOf(Boot(paired), events), e) && e.CoordTick? && e.at < 0x1_0000_0000
    requires MotionOf(RunOf(Boot(paired), events), e).Velocity?
    ensures var v := After(RunOf(Boot(paired), events), e);
            && v.command.Some? && v.command.value.tick <= e.at <= v.command.value.tick + STALE_MS
            && v.verified.Some? && v.verified.value <= e.at <= v.verified.value + ALIVE_MS
  {
    AgesAreRealIff(paired, events, e);
    DriveIsGated(paired, events, e);
    hide RunOf, AllPossible, MotionOf, After, Grants, Holds;
  }

  const OLD_COMMAND := BusEvent(CommandReceived, 0xFF_8000, 1)

  lemma FullAhead(now: u32, s: Session)
    requires !s.take && !s.windowOpen
    ensures Ticked(START, [OLD_COMMAND], now, s).0 == START.(v := 127, omega := 0, hasCmd := true, lastCmd := now)
  {
    var q := [OLD_COMMAND];
    assert q[1..] == [];
    assert ThrottleOf(0xFF_8000) == 127 && SteerOf(0xFF_8000) == 0;
    assert Drained(START, NO_EDGES, q, now) ==
           Drained(Taken(START, NO_EDGES, OLD_COMMAND, now).0, Taken(START, NO_EDGES, OLD_COMMAND, now).1, [], now);
  }

  lemma HeldCommandMoves(now: u32, s: Session)
    requires s.take && s.paired && Undisturbed(s)
    ensures Ticked(START.(v := 127, omega := 0, hasCmd := true, lastCmd := now), [], now, s).1 == Velocity(127, 0)
  {
    var c := START.(v := 127, omega := 0, hasCmd := true, lastCmd := now);
    assert Drained(c, NO_EDGES, [], now) == (c, NO_EDGES);
    FedIsManual(Normal, s);
    hide Fed;
  }

  /** Past 2^32 ms ages are not real: a full-throttle command drained at 2 ms drives the wheels at
    * 2^32 + 2 ms, when a manual session is taken then and no new command has come. */
  lemma OldCommandDrivesAgain()
    ensures var events := [Frame(DriveCommand(0xFF_8000), 7, 1), CoordTick(false, 2),
                           Frame(ManualTake, 7, 0x1_0000_0001)];
            var e := CoordTick(false, 0x1_0000_0002);
            && AllPossible(Boot(true), events)
            && Possible(RunOf(Boot(true), events), e)
            && MotionOf(RunOf(Boot(true), events), e) == Velocity(127, 0)
            && After(RunOf(Boot(true), events), e).command == Some(DrainedCommand(OLD_COMMAND, 2))
  {
    var a := Frame(DriveCommand(0xFF_8000), 7, 1);
    var b := CoordTick(false, 2);
    var c := Frame(ManualTake, 7, 0x1_0000_0001);
    var e := CoordTick(false, 0x1_0000_0002);
    var w1 := After(Boot(true), a);
    assert w1.queue == [OLD_COMMAND];
    FullAhead(2, Reads(w1, false, 2));
    assert LastCommand([OLD_COMMAND]) == Some(OLD_COMMAND);
    hide Ticked, Fed;
    var w2 := After(w1, b);
    var w3 := After(w2, c);
    assert w3.command == Some(DrainedCommand(OLD_COMMAND, 2)) && w3.queue == [];
    HeldCommandMoves(2, Reads(w3, false, 0x1_0000_0002));
    assert RunOf(Boot(true), [a, b, c]) == w3 && AllPossible(Boot(true), [a, b, c]) by {
      hide After;
      assert [a, b, c][1..] == [b, c] && [b, c][1..] == [c] && [c][1..] == [];
      assert RunOf(w2, [c]) == RunOf(w3, []) && AllPossible(w2, [c]);
      assert RunOf(w1, [b, c]) == RunOf(w2, [c]) && AllPossible(w1, [b, c]);
    }
  }
}
