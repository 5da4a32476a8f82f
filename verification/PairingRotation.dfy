/** Key rotation between one robot and the apps it has paired with, over a network that
  * loses, repeats, reorders and invents frames, with power failing anywhere.
  */
module PairingRotation {
  import opened PairingSession
  import opened PairingTags
  import opened Words

  /** A claim signed and sent by someone who holds the key. */
  datatype Said = Said(key: Key, claim: Claim)

  /** The robot; for each root an app has adopted, how many rotations the app has made; the
    * roots ever drawn; everything ever signed and sent; the roots ever offered in a pairing
    * answer; and every key flash has ever held. */
  datatype System = System(robot: Robot, index: map<nat, nat>, issued: set<nat>, said: set<Said>,
                           offers: set<nat>, stored: set<Key>)

  function EraOf(k: nat): u16 {
    k % 0x1_0000
  }

  /** Key k of the chain that starts at a root. */
  function Chain(id: nat, k: nat): Key {
    if k == 0 then Root(id) else Next(Chain(id, k - 1), EraOf(k))
  }

  lemma {:induction false} ChainPlace(id: nat, k: nat)
    ensures RootOf(Chain(id, k)) == Some(id) && Depth(Chain(id, k)) == k
  {
    if k > 0 {
      ChainPlace(id, k - 1);
    }
  }

  lemma NextEraOf(k: nat)
    ensures NextEra(EraOf(k)) == EraOf(k + 1) && EraOf(k + 1) != EraOf(k)
  {
  }

  // ── The network ───────────────────────────────────────────────────────────

  /** A tag under a drawn key must have been sent by a holder of that key; any other tag can
    * be made by anyone. The frame around the tag is free. */
  ghost predicate Deliverable(s: System, tag: Mac) {
    (RootOf(tag.key).Some? && RootOf(tag.key).value in s.issued) ==>
      exists x :: x in s.said && tag == Sign(x.key, x.claim)
  }

  lemma ValidTagWasSaid(s: System, key: Key, c: Claim)
    requires Deliverable(s, Sign(key, c)) && RootOf(key).Some? && RootOf(key).value in s.issued
    ensures Said(key, c) in s.said
  {
    var x :| x in s.said && Sign(key, c) == Sign(x.key, x.claim);
    MessagesAreDistinct(c, x.claim);
  }

  // ── Steps ─────────────────────────────────────────────────────────────────

  datatype Move =
    | RobotMoves(step: Step)
    | Adopt(id: nat)
    | Ask(id: nat, counter: u32)
    | Say(id: nat, claim: Claim)
    | Hear(id: nat, era: u16, tag: Mac)

  function EventOf(s: Step): Option<Event> {
    if s.PowerCycle? then None else Some(s.event)
  }

  /** What the network and the key generator can make happen next. */
  ghost predicate Possible(s: System, m: Move) {
    match m
    case RobotMoves(step) =>
      (match EventOf(step)
       case None => true
       case Some(Evict(_, _)) => true
       case Some(PairReq(_, _, _, key, _, _, _)) => key.Root? && key.id !in s.issued
       case Some(e) => Deliverable(s, e.tag))
    case Adopt(id) => id in s.offers && id !in s.index
    case Ask(id, _) => id in s.index
    case Say(id, c) => id in s.index && !c.Refresh? && !c.RefreshAck?
    case Hear(id, _, tag) => id in s.index && Deliverable(s, tag)
  }

  /** The app's request for its next era, and the acknowledgement it waits for. */
  function Asked(s: System, id: nat, counter: u32): Said
    requires id in s.index
  {
    Said(Chain(id, s.index[id]), Refresh(EraOf(s.index[id] + 1), counter))
  }

  predicate AppTakes(s: System, id: nat, era: u16, tag: Mac)
    requires id in s.index
  {
    era == EraOf(s.index[id] + 1) && tag == Sign(Chain(id, s.index[id] + 1), RefreshAck(era))
  }

  function RobotMoved(s: System, step: Step): System {
    var (r, reply) := Stepped(s.robot, step);
    var draws := if !step.PowerCycle? && step.event.PairReq? && step.event.key.Root? then {step.event.key.id} else {};
    var bye := if reply.Farewell? then {Said(reply.tag.key, Disconnect(reply.era, reply.counter))} else {};
    var acks := if reply.Ack? then {Said(reply.tag.key, RefreshAck(reply.era))} else {};
    var offered := if reply.PairOk? && reply.key.Root? then {reply.key.id} else {};
    s.(robot := r, issued := s.issued + draws, said := s.said + bye + acks, offers := s.offers + offered,
       stored := if r.nvs.Some? then s.stored + {r.nvs.value.psk} else s.stored)
  }

  function After(s: System, m: Move): System {
    match m
    case RobotMoves(step) => RobotMoved(s, step)
    case Adopt(id) => s.(index := s.index[id := 0])
    case Ask(id, counter) => if id in s.index then s.(said := s.said + {Asked(s, id, counter)}) else s
    case Say(id, c) => if id in s.index then s.(said := s.said + {Said(Chain(id, s.index[id]), c)}) else s
    case Hear(id, era, tag) =>
      if id in s.index && AppTakes(s, id, era, tag) then s.(index := s.index[id := s.index[id] + 1]) else s
  }

  // ── The invariant ─────────────────────────────────────────────────────────

  /** Key, era and place on the chain belong together. */
  predicate OnChain(s: System, key: Key) {
    RootOf(key).Some? && RootOf(key).value in s.issued && key == Chain(RootOf(key).value, Depth(key))
  }

  /** The stored pair is on its chain: with its app, or one rotation ahead of it. */
  predicate FlashInStep(s: System) {
    s.robot.nvs.Some? ==>
      var p := s.robot.nvs.value;
      && OnChain(s, p.psk) && p.era == EraOf(Depth(p.psk)) && p.psk in s.stored
      && (var id := RootOf(p.psk).value;
          if id in s.index then s.index[id] <= Depth(p.psk) <= s.index[id] + 1 else Depth(p.psk) == 0)
      && (forall k :: k in s.stored && RootOf(k) == RootOf(p.psk) ==> Depth(k) <= Depth(p.psk))
  }

  /** Requests are made by apps for their next era; acknowledgements name stored keys. */
  predicate Honest(s: System, x: Said) {
    && OnChain(s, x.key)
    && (x.claim.Refresh? ==>
          && RootOf(x.key).value in s.index && Depth(x.key) <= s.index[RootOf(x.key).value]
          && x.claim.era == EraOf(Depth(x.key) + 1))
    && (x.claim.RefreshAck? ==> x.key in s.stored && x.claim.era == EraOf(Depth(x.key)))
  }

  predicate Inv(s: System) {
    && InStep(s.robot)
    && FlashInStep(s)
    && (forall x :: x in s.said ==> Honest(s, x))
    && (forall k :: k in s.stored ==> OnChain(s, k))
    && (forall id :: id in s.offers ==> id in s.issued && Root(id) in s.stored)
    && (forall id :: id in s.index ==> id in s.offers)
  }

  // ── Robot steps ───────────────────────────────────────────────────────────

  predicate SamePair(a: Option<Stored>, b: Option<Stored>) {
    a.Some? == b.Some? && (a.Some? ==> a.value.psk == b.value.psk && a.value.era == b.value.era)
  }

  predicate FlashCase(r: Robot, e: Event, nvs: Option<Stored>) {
    || SamePair(nvs, r.nvs)
    || nvs.None?
    || (e.PairReq? && nvs == Some(Stored(e.key, 0, 0)))
    || (e.RefreshReq? && AdmitsRefresh(r, e.era, e.counter, e.tag) && nvs == Some(Stored(Next(r.psk, e.era), 0, e.era)))
  }

  lemma FlashCases(r: Robot, e: Event)
    requires InStep(r)
    ensures FlashCase(r, e, Handled(r, e).0.nvs)
  {
    hide TagMessage, IsFresh;
  }

  /** What a robot step adds to the world, whatever step it was. */
  predicate Adds(s: System, t: System, step: Step) {
    && t.index == s.index && s.issued <= t.issued && s.offers <= t.offers && s.said <= t.said
    && t.stored == (if t.robot.nvs.Some? then s.stored + {t.robot.nvs.value.psk} else s.stored)
    && (forall id :: id in t.issued - s.issued ==>
            !step.PowerCycle? && step.event.PairReq? && step.event.key == Root(id))
    && (!step.PowerCycle? && step.event.PairReq? && step.event.key.Root? ==> step.event.key.id in t.issued)
    && (forall id :: id in t.offers - s.offers ==> t.robot.nvs.Some? && t.robot.nvs.value.psk == Root(id))
    && (forall x :: x in t.said - s.said ==>
          || (s.robot.nvs.Some? && x.key == s.robot.nvs.value.psk && x.claim.Disconnect?)
          || (t.robot.nvs.Some? && x == Said(t.robot.nvs.value.psk, RefreshAck(t.robot.nvs.value.era))))
  }

  /** What is out after a step was signed with the key flash holds: after it for answers,
    * before it for a goodbye. */
  lemma RepliesNameFlash(r: Robot, step: Step)
    requires InStep(r)
    ensures var (t, reply) := Stepped(r, step);
            && (IsAnswer(reply) ==> NamesStoredKey(t.nvs, reply))
            && (reply.Farewell? ==> NamesStoredKey(r.nvs, reply))
  {
    if step.CutShort? {
      PrefixFlash(r, step.event, step.done);
      HandledNamesFlash(r, step.event);
      hide Handled, NamesStoredKey, Perform, Prefix, Emitted;
    } else if step.Whole? {
      HandledNamesFlash(r, step.event);
    }
  }

  lemma HandledNamesFlash(r: Robot, e: Event)
    requires InStep(r)
    ensures var (t, reply) := Handled(r, e);
            && (IsAnswer(reply) ==> NamesStoredKey(t.nvs, reply))
            && (reply.Farewell? ==> NamesStoredKey(r.nvs, reply))
  {
    hide TagMessage, IsFresh;
  }

  lemma FlashOfStep(r: Robot, step: Step)
    ensures step.PowerCycle? ==> Stepped(r, step).0.nvs == r.nvs
    ensures !step.PowerCycle? ==>
            Stepped(r, step).0.nvs == r.nvs || Stepped(r, step).0.nvs == Handled(r, step.event).0.nvs
  {
    if step.CutShort? {
      PrefixFlash(r, step.event, step.done);
    }
    hide Handled, Perform, Prefix, Emitted;
  }

  lemma RobotAdds(s: System, step: Step)
    requires InStep(s.robot)
    ensures Adds(s, RobotMoved(s, step), step)
    ensures InStep(RobotMoved(s, step).robot)
    ensures step.PowerCycle? ==> RobotMoved(s, step).robot.nvs == s.robot.nvs
    ensures !step.PowerCycle? ==> FlashCase(s.robot, step.event, RobotMoved(s, step).robot.nvs)
  {
    StepKeepsInStep(s.robot, step);
    RepliesNameFlash(s.robot, step);
    FlashOfStep(s.robot, step);
    if !step.PowerCycle? {
      FlashCases(s.robot, step.event);
    }
    hide Stepped, Handled, TagMessage, AdmitsRefresh;
  }

  /** An admitted request was made by an app that has not fallen behind the robot. */
  lemma RotationIsExpected(s: System, e: Event)
    requires Inv(s) && s.robot.paired && e.RefreshReq? && Deliverable(s, e.tag)
    requires AdmitsRefresh(s.robot, e.era, e.counter, e.tag)
    ensures var id := RootOf(s.robot.psk).value;
            id in s.index && Depth(s.robot.psk) == s.index[id] && e.era == EraOf(Depth(s.robot.psk) + 1)
  {
    ValidTagWasSaid(s, s.robot.psk, Refresh(e.era, e.counter));
  }

  lemma NewFlashInStep(s: System, t: System, step: Step)
    requires Inv(s) && Possible(s, RobotMoves(step)) && Adds(s, t, step)
    requires if step.PowerCycle? then t.robot.nvs == s.robot.nvs else FlashCase(s.robot, step.event, t.robot.nvs)
    ensures FlashInStep(t)
    ensures t.robot.nvs.Some? ==> OnChain(t, t.robot.nvs.value.psk)
  {
    if t.robot.nvs.Some? && !SamePair(t.robot.nvs, s.robot.nvs) {
      var e := step.event;
      if e.PairReq? {
        assert e.key == Chain(e.key.id, 0);
        assert e.key.id !in s.issued && e.key.id in t.issued;
      } else {
        RotationIsExpected(s, e);
        ChainPlace(RootOf(s.robot.psk).value, Depth(s.robot.psk) + 1);
      }
    }
  }

  lemma RobotKeepsInv(s: System, step: Step)
    requires Inv(s) && Possible(s, RobotMoves(step))
    ensures Inv(RobotMoved(s, step))
  {
    var t := RobotMoved(s, step);
    RobotAdds(s, step);
    NewFlashInStep(s, t, step);
    hide RobotMoved, FlashCase, Deliverable, Chain, RootOf, Depth;
    forall k | k in t.stored ensures OnChain(t, k) {
      assert k in s.stored || k == t.robot.nvs.value.psk;
    }
    forall x | x in t.said ensures Honest(t, x) {
      if x in s.said {
        assert Honest(s, x);
      } else {
        assert x in t.said - s.said;
      }
    }
    forall id | id in t.offers ensures id in t.issued && Root(id) in t.stored {
      if id !in s.offers {
        assert id in t.offers - s.offers;
        RootPlace(id);
      }
    }
  }

  lemma RootPlace(id: nat)
    ensures RootOf(Root(id)) == Some(id)
  {
  }

  // ── App steps ─────────────────────────────────────────────────────────────

  lemma AdoptKeepsInv(s: System, id: nat)
    requires Inv(s) && id in s.offers && id !in s.index
    ensures Inv(After(s, Adopt(id)))
  {
    hide InStep;
    var t := After(s, Adopt(id));
    forall x | x in t.said ensures Honest(t, x) {
      assert Honest(s, x);
    }
  }

  lemma SayKeepsInv(s: System, id: nat, c: Claim)
    requires Inv(s) && id in s.index && !c.RefreshAck?
    requires c.Refresh? ==> c.era == EraOf(s.index[id] + 1)
    ensures Inv(s.(said := s.said + {Said(Chain(id, s.index[id]), c)}))
  {
    hide InStep;
    ChainPlace(id, s.index[id]);
    var y := Said(Chain(id, s.index[id]), c);
    var t := s.(said := s.said + {y});
    hide Chain, RootOf, Depth;
    assert Honest(t, y);
    forall x | x in t.said ensures Honest(t, x) {
      assert x == y || Honest(s, x);
    }
  }

  /** An acknowledgement the app takes was made by a robot that had stored the next key. */
  lemma AckWasStored(s: System, id: nat, era: u16, tag: Mac)
    requires Inv(s) && id in s.index && Deliverable(s, tag) && AppTakes(s, id, era, tag)
    ensures Chain(id, s.index[id] + 1) in s.stored
  {
    ChainPlace(id, s.index[id] + 1);
    ValidTagWasSaid(s, Chain(id, s.index[id] + 1), RefreshAck(era));
  }

  lemma HearKeepsInv(s: System, id: nat, era: u16, tag: Mac)
    requires Inv(s) && id in s.index && Deliverable(s, tag)
    ensures Inv(After(s, Hear(id, era, tag)))
  {
    var t := After(s, Hear(id, era, tag));
    if AppTakes(s, id, era, tag) {
      var next := Chain(id, s.index[id] + 1);
      AckWasStored(s, id, era, tag);
      ChainPlace(id, s.index[id] + 1);
      hide InStep, AppTakes, Deliverable, Chain;
      forall x | x in t.said ensures Honest(t, x) {
        assert Honest(s, x);
      }
      if t.robot.nvs.Some? {
        var p := t.robot.nvs.value;
        if RootOf(p.psk) == Some(id) {
          assert Depth(next) <= Depth(p.psk);
        }
      }
    }
  }

  lemma MoveKeepsInv(s: System, m: Move)
    requires Inv(s) && Possible(s, m)
    ensures Inv(After(s, m))
  {
    match m
    case RobotMoves(step) => RobotKeepsInv(s, step);
    case Adopt(id) => AdoptKeepsInv(s, id);
    case Ask(id, counter) => SayKeepsInv(s, id, Refresh(EraOf(s.index[id] + 1), counter));
    case Say(id, c) => SayKeepsInv(s, id, c);
    case Hear(id, era, tag) => HearKeepsInv(s, id, era, tag);
  }

  // ── Runs ──────────────────────────────────────────────────────────────────

  function Factory(): System {
    System(Booted(None), map[], {}, {}, {}, {})
  }

  function Run(s: System, moves: seq<Move>): System
    decreases |moves|
  {
    if moves == [] then s else Run(After(s, moves[0]), moves[1..])
  }

  ghost predicate PossibleRun(s: System, moves: seq<Move>)
    decreases |moves|
  {
    moves != [] ==> Possible(s, moves[0]) && PossibleRun(After(s, moves[0]), moves[1..])
  }

  lemma {:induction false} RunKeepsInv(s: System, moves: seq<Move>)
    requires Inv(s) && PossibleRun(s, moves)
    ensures Inv(Run(s, moves))
    decreases |moves|
  {
    if moves == [] {
    } else {
      MoveKeepsInv(s, moves[0]);
      RunKeepsInv(After(s, moves[0]), moves[1..]);
    }
  }

  /** In every reachable state a paired robot holds, for the app that adopted its root, the
    * app's own key or the very next one, with the era that belongs to it; and every
    * acknowledgement ever sent, and every pairing answer, named a key flash had held. */
  lemma RobotIsAtMostOneAhead(moves: seq<Move>)
    requires PossibleRun(Factory(), moves)
    ensures var s := Run(Factory(), moves);
            && (s.robot.paired && RootOf(s.robot.psk).Some? && RootOf(s.robot.psk).value in s.index ==>
                  var id := RootOf(s.robot.psk).value;
                  exists k :: s.index[id] <= k <= s.index[id] + 1
                          && s.robot.psk == Chain(id, k) && s.robot.era == EraOf(k))
            && (forall x :: x in s.said && x.claim.RefreshAck? ==> x.key in s.stored)
            && (forall id :: id in s.offers ==> Root(id) in s.stored)
  {
    RunKeepsInv(Factory(), moves);
    var s := Run(Factory(), moves);
    hide PossibleRun, Run, Chain;
    assert forall x :: x in s.said && x.claim.RefreshAck? ==> Honest(s, x);
  }

  /** What the app is sent back when the robot handles its request. */
  function Answered(s: System, id: nat, counter: u32, saves: bool): Reply
    requires id in s.index
  {
    var x := Asked(s, id, counter);
    Refreshed(s.robot, x.claim.era, counter, Sign(x.key, x.claim), saves).1
  }

  /** A request is answered, with an acknowledgement the app takes and that brings both onto
    * the same key, exactly when the robot is already one ahead, or the counter is fresh and
    * the flash write lands. A lost acknowledgement is therefore healed by any retry. */
  lemma RequestIsAnsweredIff(s: System, id: nat, counter: u32, saves: bool)
    requires Inv(s) && s.robot.paired && RootOf(s.robot.psk) == Some(id) && id in s.index
    ensures var reply := Answered(s, id, counter, saves);
            var x := Asked(s, id, counter);
            var r := Refreshed(s.robot, x.claim.era, counter, Sign(x.key, x.claim), saves).0;
            && (reply.Ack? <==> Depth(s.robot.psk) == s.index[id] + 1 || (IsFresh(s.robot.counter, counter) && saves))
            && (reply.Ack? ==> AppTakes(s, id, reply.era, reply.tag) && r.psk == Chain(id, s.index[id] + 1))
            && (!reply.Ack? ==> reply == Silent && r == s.robot)
  {
    var n := s.index[id];
    var k := Depth(s.robot.psk);
    NextEraOf(n);
    assert s.robot.psk == Chain(id, k) && s.robot.era == EraOf(k);
    if k == n + 1 {
    } else {
      assert k == n;
      assert Chain(id, n + 1) == Next(Chain(id, n), EraOf(n + 1));
    }
    hide TagMessage, IsFresh, Inv, EraOf;
  }
}
