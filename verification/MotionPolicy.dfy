/** What the robot's wheels are told: the system mode, the priority arbitrator and the
  * coordinator's tick over a drained event queue.
  *
  * Stick values are kept as exact numerators over 127.
  */
module MotionPolicy {
  import opened Words

  // ── System mode ───────────────────────────────────────────────────────────

  datatype SysMode = Normal | Manual | Pairing | Ota

  datatype ModeEvent =
    | PairWindowOpened | Paired | PairWindowClosed
    | OtaStaged | OtaStarted | OtaDone | OtaAborted
    | ManualTakeGranted | ManualReleaseGranted | AliveStale

  function Apply(m: SysMode, e: ModeEvent): SysMode {
    match e
    case OtaStaged => Ota
    case OtaStarted => Ota
    case OtaDone => if m == Ota then Normal else m
    case OtaAborted => if m == Ota then Normal else m
    case PairWindowOpened => if m != Ota then Pairing else m
    case Paired => if m == Pairing then Normal else m
    case PairWindowClosed => if m == Pairing then Normal else m
    case ManualTakeGranted => if m == Normal then Manual else m
    case ManualReleaseGranted => if m == Manual then Normal else m
    case AliveStale => if m == Manual then Normal else m
  }

  /** What a tick reads of the pairing session. */
  datatype Session = Session(windowOpen: bool, paired: bool, take: bool, release: bool, alive: bool)

  /** The mode feeds of one tick, in the order the tick makes them. */
  function Fed(m: SysMode, s: Session): SysMode {
    var a := Apply(m, if s.windowOpen then PairWindowOpened else if s.paired then Paired else PairWindowClosed);
    var b := if s.take then Apply(a, ManualTakeGranted) else a;
    var c := if s.release then Apply(b, ManualReleaseGranted) else b;
    if !s.alive then Apply(c, AliveStale) else c
  }

  /** Everything that reaches the mode: ticks and the two OTA notifiers. */
  datatype Feed = Tick(session: Session) | Staged | Done

  function ModeAfter(h: seq<Feed>): SysMode {
    if h == [] then Normal
    else
      var m := ModeAfter(h[..|h| - 1]);
      match h[|h| - 1]
      case Tick(s) => Fed(m, s)
      case Staged => Apply(m, OtaStaged)
      case Done => Apply(m, OtaDone)
  }

  /** Is an OTA pull under way: staged, and not done since? */
  predicate InOta(h: seq<Feed>) {
    h != [] && (h[|h| - 1].Staged? || (h[|h| - 1].Tick? && InOta(h[..|h| - 1])))
  }

  predicate Undisturbed(s: Session) {
    s.alive && !s.windowOpen && !s.release
  }

  /** Feed j grants the manual session. */
  predicate Grants(h: seq<Feed>, j: nat)
    requires j < |h|
  {
    h[j].Tick? && h[j].session.take && Undisturbed(h[j].session) && !InOta(h[..j])
  }

  predicate Holds(h: seq<Feed>, from: nat) {
    forall i :: from <= i < |h| ==> !h[i].Staged? && (h[i].Tick? ==> Undisturbed(h[i].session))
  }

  lemma {:induction false} OtaMode(h: seq<Feed>)
    ensures ModeAfter(h) == Ota <==> InOta(h)
  {
    if h != [] {
      OtaMode(h[..|h| - 1]);
    }
  }

  lemma FedIsManual(m: SysMode, s: Session)
    ensures Fed(m, s) == Manual <==> (m == Manual || (s.take && m != Ota)) && Undisturbed(s)
  {
  }

  lemma {:induction false} PrefixAgrees(h: seq<Feed>, p: seq<Feed>, j: nat)
    requires h != [] && p == h[..|h| - 1] && j < |p|
    ensures Grants(h, j) == Grants(p, j)
    ensures Holds(h, j + 1) <==> Holds(p, j + 1) && Holds(h, |h| - 1)
  {
    assert h[..j] == p[..j];
    hide InOta, Undisturbed;
  }

  /** The last feed grants the session, or leaves it on. */
  lemma LastFeed(h: seq<Feed>)
    requires h != []
    ensures ModeAfter(h) == Manual <==>
            Grants(h, |h| - 1) || (ModeAfter(h[..|h| - 1]) == Manual && Holds(h, |h| - 1))
    ensures Holds(h, |h|)
  {
    var p, last := h[..|h| - 1], |h| - 1;
    OtaMode(p);
    if h[last].Tick? {
      FedIsManual(ModeAfter(p), h[last].session);
    }
    hide Fed, InOta, Undisturbed;
  }

  /** The manual session is on exactly when some tick granted it and at every feed since the
    * peer was alive, no window was open, nothing was released and no OTA was staged. */
  lemma {:induction false} ManualIff(h: seq<Feed>)
    ensures ModeAfter(h) == Manual <==> exists j :: 0 <= j < |h| && Grants(h, j) && Holds(h, j + 1)
  {
    if h == [] {
    } else {
      var p := h[..|h| - 1];
      var last := |h| - 1;
      ManualIff(p);
      LastFeed(h);
      hide ModeAfter, Grants, Holds;
      if ModeAfter(h) == Manual && !Grants(h, last) {
        var j :| 0 <= j < |p| && Grants(p, j) && Holds(p, j + 1);
        PrefixAgrees(h, p, j);
      }
      if j :| 0 <= j < |h| && Grants(h, j) && Holds(h, j + 1) {
        if j < last {
          PrefixAgrees(h, p, j);
        }
      }
    }
  }

  // ── Arbitration ───────────────────────────────────────────────────────────

  datatype RobotMode = Driven | Autonomous | LowPower | Emergency

  const NO_BEHAVIOR: u32 := 0
  const DRIVE_FORWARD: u32 := 1

  datatype Inputs = Inputs(mode: RobotMode, active: u32, latched: bool, groundEvent: bool, fwd: bool, rev: bool,
                           v: int, omega: int, hasCommand: bool, newCommand: bool, stale: bool, done: bool, doneId: u32)

  datatype Motion = Brake | Stop | Hold | Velocity(v: int, omega: int)

  datatype Outputs = Outputs(motion: Motion, mode: RobotMode, active: u32)

  /** The mailbox call for a pair of speeds. */
  function Drive(v: int, omega: int): Motion {
    if v == 0 && omega == 0 then Stop else Velocity(v, omega)
  }

  predicate Permitted(i: Inputs) {
    if i.v > 0 then i.fwd else if i.v < 0 then i.rev else i.omega != 0 && (i.fwd || i.rev)
  }

  predicate WantsDrive(i: Inputs) {
    i.newCommand && i.hasCommand && !i.stale && (i.v != 0 || i.omega != 0)
  }

  function Vetoed(i: Inputs): int {
    if i.v > 0 then (if i.fwd then i.v else 0)
    else if i.v < 0 then (if i.rev then i.v else 0)
    else 0
  }

  function Arbitrate(i: Inputs): Outputs {
    if i.groundEvent then Outputs(Brake, Emergency, NO_BEHAVIOR)
    else if i.latched || i.mode == Emergency then
      if WantsDrive(i) && Permitted(i) then Outputs(Drive(i.v, i.omega), RobotMode.Driven, DRIVE_FORWARD)
      else if i.stale || !i.hasCommand then Outputs(Stop, Emergency, NO_BEHAVIOR)
      else Outputs(Drive(Vetoed(i), i.omega), Emergency, NO_BEHAVIOR)
    else
      var active := if i.done && i.doneId != NO_BEHAVIOR && i.doneId == i.active then NO_BEHAVIOR else i.active;
      if i.stale || !i.hasCommand then Outputs(Stop, i.mode, NO_BEHAVIOR)
      else if i.v != 0 || i.omega != 0 then Outputs(Drive(i.v, i.omega), i.mode, DRIVE_FORWARD)
      else if active == DRIVE_FORWARD || active == NO_BEHAVIOR then Outputs(Stop, i.mode, NO_BEHAVIOR)
      else Outputs(Hold, i.mode, active)
  }

  // ── Events ────────────────────────────────────────────────────────────────

  datatype Kind = GroundChanged | CommandReceived | BehaviorDone | OtherKind

  /** A bus event; `at` is when it was published, counted without wrap-around. */
  datatype BusEvent = BusEvent(kind: Kind, payload: u32, at: nat)

  function PackGround(fwd: bool, rev: bool): u32 {
    (if fwd then 1 else 0) + (if rev then 2 else 0)
  }

  function FwdOf(payload: u32): bool {
    payload % 2 == 1
  }

  function RevOf(payload: u32): bool {
    payload / 2 % 2 == 1
  }

  /** Centre 128; both ends of the byte reach full scale. */
  function Unit(raw: int): int {
    if raw == 0 then -127 else raw - 128
  }

  function ThrottleOf(payload: u32): int {
    Unit(payload / 0x1_0000 % 0x100)
  }

  function SteerOf(payload: u32): int {
    Unit(payload / 0x100 % 0x100)
  }

  // ── The coordinator ───────────────────────────────────────────────────────

  const STALE_MS := 500

  datatype Coord = Coord(mode: RobotMode, active: u32, latched: bool, fwd: bool, rev: bool,
                         v: int, omega: int, hasCmd: bool, lastCmd: u32, sys: SysMode)

  const START := Coord(RobotMode.Driven, NO_BEHAVIOR, false, true, true, 0, 0, false, 0, Normal)

  /** Single-tick edges found while draining. */
  datatype Edges = Edges(ground: bool, command: bool, done: bool, doneId: u32)

  const NO_EDGES := Edges(false, false, false, NO_BEHAVIOR)

  function Taken(c: Coord, e: Edges, ev: BusEvent, now: u32): (Coord, Edges) {
    match ev.kind
    case GroundChanged =>
      var f, r := FwdOf(ev.payload), RevOf(ev.payload);
      (c.(fwd := f, rev := r), if (c.fwd && !f) || (c.rev && !r) then e.(ground := true) else e)
    case CommandReceived =>
      (c.(v := ThrottleOf(ev.payload), omega := SteerOf(ev.payload), hasCmd := true, lastCmd := now),
       e.(command := true))
    case BehaviorDone => (c, e.(done := true, doneId := ev.payload))
    case OtherKind => (c, e)
  }

  function Drained(c: Coord, e: Edges, queue: seq<BusEvent>, now: u32): (Coord, Edges)
    decreases |queue|
  {
    if queue == [] then (c, e)
    else
      var (c', e') := Taken(c, e, queue[0], now);
      Drained(c', e', queue[1..], now)
  }

  predicate Stale(c: Coord, now: u32) {
    !c.hasCmd || Since(c.lastCmd, now) > STALE_MS
  }

  predicate DriveAllowed(sys: SysMode, paired: bool) {
    sys == Manual && paired
  }

  /** The arbitrator's inputs for a drained coordinator and the mode after this tick's feeds. */
  function InputsOf(c: Coord, e: Edges, now: u32, s: Session): Inputs {
    var sys := Fed(c.sys, s);
    Inputs(c.mode, c.active, c.latched, e.ground, c.fwd, c.rev, c.v, c.omega,
           c.hasCmd && !Stale(c, now) && DriveAllowed(sys, s.paired), e.command, Stale(c, now), e.done, e.doneId)
  }

  function Ticked(c: Coord, queue: seq<BusEvent>, now: u32, s: Session): (Coord, Motion) {
    var (d, e) := Drained(c, NO_EDGES, queue, now);
    var out := Arbitrate(InputsOf(d, e, now, s));
    (d.(mode := out.mode, active := out.active, latched := out.mode == Emergency, sys := Fed(d.sys, s)), out.motion)
  }

  class Coordinator {
    var mode: RobotMode
    var active: u32
    var emergencyLatched: bool
    var gndFwd: bool
    var gndRev: bool
    var cmdV: int
    var cmdOmega: int
    var hasCmd: bool
    var lastCmdMs: u32
    var sysMode: SysMode
    var queue: seq<BusEvent>

    function View(): Coord
      reads this
    {
      Coord(mode, active, emergencyLatched, gndFwd, gndRev, cmdV, cmdOmega, hasCmd, lastCmdMs, sysMode)
    }

    constructor ()
      ensures View() == START && queue == []
    {
      mode, active, emergencyLatched, gndFwd, gndRev := RobotMode.Driven, NO_BEHAVIOR, false, true, true;
      cmdV, cmdOmega, hasCmd, lastCmdMs, sysMode, queue := 0, 0, false, 0, Normal, [];
    }

    method OnOtaStaged()
      modifies `sysMode
      ensures sysMode == Apply(old(sysMode), OtaStaged)
    {
      sysMode := Apply(sysMode, OtaStaged);
    }

    method OnOtaDone()
      modifies `sysMode
      ensures sysMode == Apply(old(sysMode), OtaDone)
    {
      sysMode := Apply(sysMode, OtaDone);
    }

    /** One pass of the coordinator loop. */
    method Loop(now: u32, s: Session) returns (motion: Motion)
      modifies this
      ensures (View(), motion) == Ticked(old(View()), old(queue), now, s)
      ensures queue == []
    {
      var e := Drain(now);
      var stale := !hasCmd || Since(lastCmdMs, now) > STALE_MS;
      FeedMode(s);
      var driveAllowed := DriveAllowed(sysMode, s.paired);
      var out := Arbitrate(Inputs(mode, active, emergencyLatched, e.ground, gndFwd, gndRev, cmdV, cmdOmega,
                                  hasCmd && !stale && driveAllowed, e.command, stale, e.done, e.doneId));
      motion := out.motion;
      mode := out.mode;
      active := out.active;
      emergencyLatched := mode == Emergency;
    }

    method Drain(now: u32) returns (e: Edges)
      modifies this
      ensures (View(), e) == Drained(old(View()), NO_EDGES, old(queue), now)
      ensures queue == []
    {
      e := NO_EDGES;
      while queue != []
        invariant Drained(View(), e, queue, now) == Drained(old(View()), NO_EDGES, old(queue), now)
        decreases |queue|
      {
        var ev := queue[0];
        queue := queue[1..];
        match ev.kind
        case GroundChanged =>
          var fwd, rev := FwdOf(ev.payload), RevOf(ev.payload);
          if (gndFwd && !fwd) || (gndRev && !rev) {
            e := e.(ground := true);
          }
          gndFwd, gndRev := fwd, rev;
        case CommandReceived =>
          cmdV, cmdOmega := ThrottleOf(ev.payload), SteerOf(ev.payload);
          hasCmd := true;
          lastCmdMs := now;
          e := e.(command := true);
        case BehaviorDone =>
          e := e.(done := true, doneId := ev.payload);
        case OtherKind =>
      }
    }

    method FeedMode(s: Session)
      modifies `sysMode
      ensures sysMode == Fed(old(sysMode), s)
    {
      if s.windowOpen {
        sysMode := Apply(sysMode, PairWindowOpened);
      } else if s.paired {
        sysMode := Apply(sysMode, Paired);
      } else {
        sysMode := Apply(sysMode, PairWindowClosed);
      }
      if s.take {
        sysMode := Apply(sysMode, ManualTakeGranted);
      }
      if s.release {
        sysMode := Apply(sysMode, ManualReleaseGranted);
      }
      if !s.alive {
        sysMode := Apply(sysMode, AliveStale);
      }
    }
  }

  // ── The other modes ───────────────────────────────────────────────────────

  /** Is the mode PAIRING: the latest tick, found outside OTA, had the window open, and since then
    * nothing but completions of an OTA came? */
  predicate InPairing(h: seq<Feed>) {
    h != [] &&
    match h[|h| - 1]
    case Tick(s) => s.windowOpen && !InOta(h[..|h| - 1])
    case Staged => false
    case Done => InPairing(h[..|h| - 1])
  }

  /** The mode after any history of feeds, each of the four exactly when it should be: OTA and
    * PAIRING as said here, MANUAL as `ManualIff` says, NORMAL otherwise. */
  lemma {:induction false} ModeIs(h: seq<Feed>)
    ensures ModeAfter(h) == Ota <==> InOta(h)
    ensures ModeAfter(h) == Pairing <==> InPairing(h)
  {
    OtaMode(h);
    if h != [] {
      OtaMode(h[..|h| - 1]);
      ModeIs(h[..|h| - 1]);
      hide InOta;
    }
  }
}
