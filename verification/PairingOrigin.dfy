/** Who made a frame the robot accepts: an app holding the key or, in one case, the robot
  * itself, whose farewell carries the label of the apps' own goodbye.
  */
module PairingOrigin {
  import opened PairingSession
  import opened PairingTags
  import opened Words
  import R = PairingRotation
  import P = PairingReplay

  /** Everything said, with its author: by an app, or as a farewell by the robot. */
  datatype World = World(sys: R.System, apps: set<R.Said>, farewells: set<R.Said>)

  function AppSays(s: R.System, m: R.Move): set<R.Said> {
    match m
    case Ask(id, counter) => if id in s.index then {R.Asked(s, id, counter)} else {}
    case Say(id, c) => if id in s.index then {R.Said(R.Chain(id, s.index[id]), c)} else {}
    case _ => {}
  }

  function RobotParts(s: R.System, m: R.Move): set<R.Said> {
    if !m.RobotMoves? then {}
    else
      var reply := Stepped(s.robot, m.step).1;
      if reply.Farewell? then {R.Said(reply.tag.key, Disconnect(reply.era, reply.counter))} else {}
  }

  function After(w: World, m: R.Move): World {
    World(R.After(w.sys, m), w.apps + AppSays(w.sys, m), w.farewells + RobotParts(w.sys, m))
  }

  function Start(): World {
    World(R.Factory(), {}, {})
  }

  function Run(w: World, moves: seq<R.Move>): World
    decreases |moves|
  {
    if moves == [] then w else Run(After(w, moves[0]), moves[1..])
  }

  // ── Everything said has an author ─────────────────────────────────────────

  predicate Authored(w: World) {
    && (forall x :: x in w.sys.said ==> x in w.apps || x in w.farewells || x.claim.RefreshAck?)
    && (forall x :: x in w.farewells ==> x.claim.Disconnect? && x.key in w.sys.stored)
  }

  predicate Inv(w: World) {
    R.Inv(w.sys) && Authored(w)
  }

  lemma FarewellIsStored(s: R.System, m: R.Move)
    requires R.Inv(s)
    ensures s.stored <= R.After(s, m).stored
    ensures forall x :: x in RobotParts(s, m) ==> x.claim.Disconnect? && x.key in s.stored
  {
    if m.RobotMoves? {
      R.RepliesNameFlash(s.robot, m.step);
      hide Stepped, TagMessage;
    }
  }

  lemma MoveKeepsInv(w: World, m: R.Move)
    requires Inv(w) && R.Possible(w.sys, m)
    ensures Inv(After(w, m))
  {
    R.MoveKeepsInv(w.sys, m);
    FarewellIsStored(w.sys, m);
    hide R.Inv, Stepped, R.Asked, R.Chain, R.AppTakes;
  }

  lemma {:induction false} RunKeepsInv(w: World, moves: seq<R.Move>)
    requires Inv(w) && R.PossibleRun(w.sys, moves)
    ensures Inv(Run(w, moves)) && Run(w, moves).sys == R.Run(w.sys, moves)
    decreases |moves|
  {
    if moves != [] {
      MoveKeepsInv(w, moves[0]);
      hide Inv, R.Possible, R.After;
      RunKeepsInv(After(w, moves[0]), moves[1..]);
    }
  }

  lemma StartIsGood()
    ensures Inv(Start())
  {
  }

  // ── Origin of what is accepted ────────────────────────────────────────────

  predicate Tagged(e: Event) {
    e.Frame? || e.Goodbye? || e.RefreshReq?
  }

  /** What the frame says it is. */
  function ClaimOf(e: Event): Claim
    requires Tagged(e)
  {
    match e
    case Frame(c, _, _) => c
    case Goodbye(counter, _, _) => Unpair(counter)
    case RefreshReq(era, counter, _, _) => Refresh(era, counter)
  }

  /** Said by an app, in these very terms and under the robot's key. */
  predicate FromApp(w: World, e: Event)
    requires Tagged(e)
  {
    R.Said(w.sys.robot.psk, ClaimOf(e)) in w.apps
  }

  /** A farewell of the robot, under a key flash still holds, coming back. */
  predicate Reflected(w: World, e: Event) {
    e.Frame? && e.claim.Disconnect? && R.Said(w.sys.robot.psk, e.claim) in w.farewells
  }

  lemma AcceptedHasAuthor(w: World, e: Event)
    requires Inv(w) && P.Admits(w.sys.robot, e) && R.Deliverable(w.sys, e.tag)
    ensures FromApp(w, e) || Reflected(w, e)
  {
    assert e.tag == Sign(w.sys.robot.psk, ClaimOf(e)) && w.sys.robot.paired && !ClaimOf(e).RefreshAck?;
    assert R.OnChain(w.sys, w.sys.robot.psk);
    hide P.Admits, R.Inv, R.OnChain, R.Deliverable, TagMessage;
    R.ValidTagWasSaid(w.sys, w.sys.robot.psk, ClaimOf(e));
  }

  /** Origin authenticity. In every reachable state, a frame the robot lets through was said by
    * an app, word for word and under the robot's present key, or it is a farewell of the robot
    * itself under that key, come back as the app's goodbye. */
  lemma AcceptedIsAppsOrFarewell(moves: seq<R.Move>, e: Event)
    requires R.PossibleRun(R.Factory(), moves)
    requires P.Admits(R.Run(R.Factory(), moves).robot, e) && R.Deliverable(R.Run(R.Factory(), moves), e.tag)
    ensures FromApp(Run(Start(), moves), e) || Reflected(Run(Start(), moves), e)
  {
    StartIsGood();
    RunKeepsInv(Start(), moves);
    AcceptedHasAuthor(Run(Start(), moves), e);
  }

  // ── When a farewell comes back ────────────────────────────────────────────

  /** Whenever the robot says farewell its clear lands. */
  predicate Lands(s: R.System, m: R.Move) {
    RobotParts(s, m) != {} ==> R.After(s, m).robot.nvs.None?
  }

  predicate AllLand(s: R.System, moves: seq<R.Move>)
    decreases |moves|
  {
    moves != [] ==> Lands(s, moves[0]) && AllLand(R.After(s, moves[0]), moves[1..])
  }

  /** No key the robot said farewell under is in flash. */
  predicate Parted(w: World) {
    w.sys.robot.nvs.Some? ==> forall x :: x in w.farewells ==> x.key != w.sys.robot.nvs.value.psk
  }

  /** A pair that is new to flash has a key flash has never held. */
  lemma NewKeyIsUnseen(s: R.System, step: Step)
    requires R.Inv(s) && R.Possible(s, R.RobotMoves(step))
    ensures var nvs := R.RobotMoved(s, step).robot.nvs;
            nvs.Some? ==> R.SamePair(nvs, s.robot.nvs) || nvs.value.psk !in s.stored
  {
    var t := R.RobotMoved(s, step);
    R.RobotAdds(s, step);
    hide R.RobotMoved, R.Deliverable;
    if t.robot.nvs.Some? && !R.SamePair(t.robot.nvs, s.robot.nvs) {
      if step.event.PairReq? {
        assert RootOf(step.event.key) == Some(step.event.key.id);
      } else {
        assert Depth(t.robot.nvs.value.psk) == Depth(s.robot.psk) + 1;
      }
    }
  }

  lemma MoveKeepsParted(w: World, m: R.Move)
    requires Inv(w) && Parted(w) && R.Possible(w.sys, m) && Lands(w.sys, m)
    ensures Parted(After(w, m))
  {
    if m.RobotMoves? {
      NewKeyIsUnseen(w.sys, m.step);
      FarewellIsStored(w.sys, m);
      hide R.Inv, R.RobotMoved, R.Possible, Stepped;
    }
  }

  lemma {:induction false} RunKeepsParted(w: World, moves: seq<R.Move>)
    requires Inv(w) && Parted(w) && R.PossibleRun(w.sys, moves) && AllLand(w.sys, moves)
    ensures Parted(Run(w, moves))
    decreases |moves|
  {
    if moves != [] {
      MoveKeepsInv(w, moves[0]);
      MoveKeepsParted(w, moves[0]);
      hide Inv, Parted, Lands, R.Possible, R.After;
      RunKeepsParted(After(w, moves[0]), moves[1..]);
    }
  }

  /** While every farewell's clear lands, everything the robot lets through was said by an app. */
  lemma AcceptedIsApps(moves: seq<R.Move>, e: Event)
    requires R.PossibleRun(R.Factory(), moves) && AllLand(R.Factory(), moves)
    requires P.Admits(R.Run(R.Factory(), moves).robot, e) && R.Deliverable(R.Run(R.Factory(), moves), e.tag)
    ensures FromApp(Run(Start(), moves), e)
  {
    StartIsGood();
    RunKeepsInv(Start(), moves);
    RunKeepsParted(Start(), moves);
    AcceptedIsAppsOrFarewell(moves, e);
    var w := Run(Start(), moves);
    assert w.sys.robot.paired;
    hide Run, R.Run, R.PossibleRun, AllLand, P.Admits, R.Deliverable, R.FlashInStep;
  }

  /** The clear of the step's eviction landed. */
  predicate ClearLanded(s: Step)
    requires !s.PowerCycle? && s.event.Evict? && s.event.farewell.Some?
  {
    s.event.clears && (s.CutShort? ==> s.done >= 3)
  }

  /** Otherwise the exact condition: after a reboot the robot takes its own farewell for an app's
    * goodbye exactly when the clear did not land, because it failed or power did first, and the
    * farewell's counter is fresh to the one flash holds. */
  lemma FarewellReturnsIff(r: Robot, s: Step, saves: bool)
    requires InStep(r) && r.paired && !s.PowerCycle? && s.event.Evict? && s.event.farewell.Some?
    requires s.CutShort? ==> s.done > 0
    ensures var (t, reply) := Stepped(r, s);
            && reply.Farewell?
            && (P.Admits(Stepped(t, PowerCycle(true)).0,
                         Frame(Disconnect(reply.era, reply.counter), reply.tag, saves)) <==>
                !ClearLanded(s) && IsFresh(r.nvs.value.counter, reply.counter))
  {
    var e := s.event;
    var xs := Effects(r, e);
    var n := if s.CutShort? && s.done <= |xs| then s.done else |xs|;
    EffectsAddUp(r, e);
    PerformFew(r, xs[..n]);
    FarewellIsOut(r, e, n);
    assert xs[..|xs|] == xs;
    hide Perform, Emitted, TagMessage, IsFresh;
  }

  lemma FarewellIsOut(r: Robot, e: Event, n: nat)
    requires r.paired && e.Evict? && e.farewell.Some? && 0 < n <= |Effects(r, e)|
    ensures Emitted(Effects(r, e)[..n]) == FarewellOf(r, e.farewell.value)
    decreases n
  {
    var xs := Effects(r, e);
    if n > 1 {
      assert xs[..n][..n - 1] == xs[..n - 1];
      FarewellIsOut(r, e, n - 1);
    }
    hide TagMessage;
  }
}
