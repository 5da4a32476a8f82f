/** What the handlers beside pairing do to session and gate, in full: accepting, ending, rotating
  * and showing a code; that whoever holds the key gets through, and that nobody does after an end.
  */
module PairingHandlers {
  import opened PairingDesk
  import opened PairingSession
  import opened PairingTags
  import opened Words
  import W = PairWindow

  /** From 1 to 2^31 - 1 steps on. */
  predicate Newer(before: u32, now: u32) {
    0 < Elapsed(before, now) < 0x8000_0000
  }

  lemma NewerIsFresh(before: u32, now: u32)
    ensures Newer(before, now) <==> IsFresh(before, now)
  {
    ElapsedIsSince(before, now);
  }

  // ── Each handler ──────────────────────────────────────────────────────────

  /** A frame of an ordinary kind for this session: of the session's era, where it has one, with a
    * newer counter, and signed with the session's key. */
  predicate Genuine(r: Robot, c: Claim, tag: Mac) {
    && !c.Unpair? && !c.Refresh? && !c.RefreshAck?
    && r.paired && (!c.Drive? ==> c.era == r.era)
    && Newer(r.counter, c.counter) && tag == Mac(r.psk, TagMessage(c))
  }

  /** Exactly such frames are accepted; they spend the counter, and every 128th, if the write
    * lands, is noted in flash. */
  lemma AcceptsIff(d: Desk, e: Event)
    requires e.Frame?
    ensures var (t, reply) := Beside(d, e);
            var n := (d.robot.validCount + 1) % 0x1_0000_0000;
            if !Genuine(d.robot, e.claim, e.tag) then t == d && reply == Silent
            else
              && reply == Verified(e.claim) && t.gate == d.gate
              && t.robot.nvs == (if n % 128 == 0 && e.saves && d.robot.nvs.Some?
                                 then Some(Stored(d.robot.nvs.value.psk, e.claim.counter, d.robot.nvs.value.era))
                                 else d.robot.nvs)
              && t.robot == d.robot.(counter := e.claim.counter, validCount := n, nvs := t.robot.nvs)
  {
    if Consuming(e.claim) {
      NewerIsFresh(d.robot.counter, e.claim.counter);
    }
    hide TagMessage, IsFresh, Newer;
  }

  /** Nothing of a pair in RAM, and no code on show. */
  predicate Forgot(d: Desk) {
    && !d.robot.paired && d.robot.psk == Blank && d.robot.era == 0 && d.robot.counter == 0 && d.robot.lastPair.None?
    && !d.gate.paired && !d.gate.open && !d.gate.burned && d.gate.tries == 0
  }

  /** A goodbye ends the session exactly when it is signed with its key and newer. */
  lemma GoodbyeIs(d: Desk, e: Event)
    requires e.Goodbye?
    ensures var (t, reply) := Beside(d, e);
            if d.robot.paired && Newer(d.robot.counter, e.counter)
               && e.tag == Mac(d.robot.psk, TagMessage(Unpair(e.counter)))
            then reply == Verified(Unpair(e.counter)) && Forgot(t)
                 && t.robot.nvs == if e.clears then None else d.robot.nvs
            else t == d && reply == Silent
  {
    NewerIsFresh(d.robot.counter, e.counter);
    hide TagMessage, IsFresh, Newer;
  }

  /** The pair button ends it always, and tells the peer, if there is one, under the key it still
    * has. */
  lemma EvictIs(d: Desk, e: Event)
    requires e.Evict?
    ensures var (t, reply) := Beside(d, e);
            var r, to := d.robot, e.farewell;
            && Forgot(t) && t.robot.validCount == 0 && t.robot.nvs == (if e.clears then None else r.nvs)
            && reply == if r.paired && to.Some?
                        then Farewell(r.era, to.value, Mac(r.psk, TagMessage(Disconnect(r.era, to.value))))
                        else Silent
  {
    hide TagMessage;
  }

  /** A request for the session's own era is acknowledged again. One for the next, newer and
    * signed with the old key, rotates exactly when the new pair is stored: counters start again,
    * and the acknowledgement is signed with the new key. No other changes anything. */
  lemma RotatesIff(d: Desk, e: Event)
    requires e.RefreshReq?
    ensures var (t, reply) := Beside(d, e);
            var r := d.robot;
            var key := Next(r.psk, e.era);
            if r.paired && e.era == r.era then
              t == d && reply == Ack(r.era, Mac(r.psk, TagMessage(RefreshAck(r.era))))
            else if r.paired && e.era == (r.era + 1) % 0x1_0000 && Newer(r.counter, e.counter)
                 && e.tag == Mac(r.psk, TagMessage(Refresh(e.era, e.counter))) && e.saves then
              && t.robot == Robot(true, key, e.era, 0, 0, r.lastPair, Some(Stored(key, 0, e.era)))
              && t.gate == d.gate.(era := e.era)
              && reply == Ack(e.era, Mac(key, TagMessage(RefreshAck(e.era))))
            else t == d && reply == Silent
  {
    NewerIsFresh(d.robot.counter, e.counter);
    hide TagMessage, IsFresh, Newer;
  }

  /** Exactly six decimal digits can be put on show; they are then asked for during the next five
    * minutes, whatever was wrong before, unless the gate takes itself for paired. */
  lemma ShowIs(g: W.Gate, at: u32, code: seq<u8>, now: u32)
    ensures var shown := W.Opened(g, at, code);
            if |code| == 6 && (forall i :: 0 <= i < 6 ==> '0' as int <= code[i] <= '9' as int) then
              && shown == W.Gate(code, true, g.paired, false, 0, at, g.lockoutStart, g.era, g.pairMs)
              && (OnShow(shown, now) && !Waiting(shown, now) <==> !g.paired && Elapsed(at, now) < 300_000)
            else shown == g
  {
    hide Elapsed;
  }

  /** A robot that starts again has the pair flash holds, or none, and no answer to repeat. */
  lemma RebootIs(r: Robot, readable: bool)
    ensures Rebooted(r, readable) ==
            if readable && r.nvs.Some?
            then Robot(true, r.nvs.value.psk, r.nvs.value.era, r.nvs.value.counter, 0, None, r.nvs)
            else Robot(false, Blank, 0, 0, 0, None, r.nvs)
  {
  }

  // ── Over runs ─────────────────────────────────────────────────────────────

  function Replies(d: Desk, es: seq<Event>): (rs: seq<Reply>)
    ensures |rs| == |es|
    decreases |es|
  {
    if es == [] then [] else [Beside(d, es[0]).1] + Replies(Beside(d, es[0]).0, es[1..])
  }

  /** A frame as the holder of a key sends it with this counter. */
  predicate Sends(key: Key, era: u16, counter: u32, e: Event) {
    && e.Frame? && Consuming(e.claim) && (!e.claim.Drive? ==> e.claim.era == era)
    && e.claim.counter == counter && e.tag == Sign(key, e.claim)
  }

  function Up(counter: u32, n: nat): u32 {
    (counter + n) % 0x1_0000_0000
  }

  /** Its frames, counted on by one each. */
  predicate InSequence(key: Key, era: u16, counter: u32, es: seq<Event>) {
    forall i :: 0 <= i < |es| ==> Sends(key, era, Up(counter, i + 1), es[i])
  }

  lemma NextIsNewer(before: u32)
    ensures Newer(before, Up(before, 1))
  {
  }

  lemma UpTwice(counter: u32, n: nat)
    ensures Up(Up(counter, 1), n) == Up(counter, n + 1)
  {
  }

  lemma SentIsGenuine(r: Robot, e: Event)
    requires r.paired && Sends(r.psk, r.era, Up(r.counter, 1), e)
    ensures Genuine(r, e.claim, e.tag)
  {
    NextIsNewer(r.counter);
    hide Newer, TagMessage, Up;
  }

  lemma OneGoesThrough(d: Desk, e: Event)
    requires d.robot.paired && Sends(d.robot.psk, d.robot.era, Up(d.robot.counter, 1), e)
    ensures var (t, reply) := Beside(d, e);
            && reply == Verified(e.claim) && t.robot.paired
            && (t.robot.psk, t.robot.era, t.robot.counter) == (d.robot.psk, d.robot.era, Up(d.robot.counter, 1))
  {
    SentIsGenuine(d.robot, e);
    AcceptsIff(d, e);
    hide Beside, Genuine, Newer, TagMessage, Up;
  }

  lemma RestInSequence(key: Key, era: u16, counter: u32, es: seq<Event>)
    requires es != [] && InSequence(key, era, counter, es)
    ensures InSequence(key, era, Up(counter, 1), es[1..])
  {
    hide Sends, Up;
    forall i | 0 <= i < |es| - 1
      ensures Sends(key, era, Up(Up(counter, 1), i + 1), es[1..][i])
    {
      UpTwice(counter, i + 1);
      assert es[1..][i] == es[i + 1] && Sends(key, era, Up(counter, (i + 1) + 1), es[i + 1]);
    }
  }

  /** Whoever holds the session's key gets every frame through, however many. */
  lemma {:induction false} FramesGoThrough(d: Desk, es: seq<Event>)
    requires d.robot.paired && InSequence(d.robot.psk, d.robot.era, d.robot.counter, es)
    ensures forall i :: 0 <= i < |es| ==> Replies(d, es)[i] == Verified(es[i].claim)
    decreases |es|
  {
    if es != [] {
      assert Sends(d.robot.psk, d.robot.era, Up(d.robot.counter, 1), es[0]);
      hide Beside, Sends, Up;
      OneGoesThrough(d, es[0]);
      RestInSequence(d.robot.psk, d.robot.era, d.robot.counter, es);
      hide InSequence;
      FramesGoThrough(Beside(d, es[0]).0, es[1..]);
    }
  }

  /** So the phone that was just sent PAIR_OK, or the acknowledgement of a rotation, gets through
    * with frames 1, 2, 3, ... under the new key. */
  lemma NewSessionWorks(d: Desk, e: Event, key: Key, era: u16, es: seq<Event>)
    requires (Beside(d, e).1 == PairOk(key) && era == 0)
             || (e.RefreshReq? && Beside(d, e).1.Ack? && e.era == era != d.robot.era && key == Next(d.robot.psk, era))
    requires InSequence(key, era, 0, es)
    ensures forall i :: 0 <= i < |es| ==> Replies(Beside(d, e).0, es)[i] == Verified(es[i].claim)
  {
    PairsIff(d, e);
    if e.RefreshReq? {
      RotatesIff(d, e);
    }
    hide Beside, RightCode, Newer, TagMessage;
    FramesGoThrough(Beside(d, e).0, es);
  }

  /** And after an end nobody gets anything through, whatever tags and codes they have, until a
    * code is shown or the robot starts again. */
  lemma {:induction false} EndedIsSilent(d: Desk, es: seq<Event>)
    requires Forgot(d) && forall i :: 0 <= i < |es| ==> !es[i].Evict?
    ensures forall i :: 0 <= i < |es| ==> Replies(d, es)[i] == if es[i].PairReq? then PairErr(2, 0) else Silent
    decreases |es|
  {
    if es != [] {
      var e := es[0];
      assert Beside(d, e) == (d, if e.PairReq? then PairErr(2, 0) else Silent) by {
        hide TagMessage, IsFresh;
      }
      hide Beside, Forgot;
      EndedIsSilent(d, es[1..]);
    }
  }
}
