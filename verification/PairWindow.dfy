/** The pairing-code window: six digits shown for five minutes, five tries a batch, and a
  * lockout of thirty seconds between batches.
  */
module PairWindow {
  import opened Words

  const WINDOW_MS := 300_000
  const LOCKOUT_MS := 30_000
  const MAX_TRIES := 5
  const CODE_LEN := 6

  datatype Result = Accepted | BadCode | Locked | NotInWindow | AlreadyPaired | Internal

  datatype Gate = Gate(code: seq<u8>, open: bool, paired: bool, burned: bool, tries: nat,
                       windowStart: u32, lockoutStart: u32, era: u16, pairMs: u32)

  predicate IsCode(code: seq<u8>) {
    |code| == CODE_LEN && forall i :: 0 <= i < CODE_LEN ==> 48 <= code[i] <= 57
  }

  predicate InWindow(g: Gate, now: u32) {
    g.open && !g.burned && Since(g.windowStart, now) < WINDOW_MS
  }

  predicate LockedOut(g: Gate, now: u32) {
    g.tries >= MAX_TRIES && Since(g.lockoutStart, now) < LOCKOUT_MS
  }

  /** Does an attempt at this time get as far as comparing the code? */
  predicate Compares(g: Gate, now: u32) {
    !g.paired && InWindow(g, now) && !LockedOut(g, now)
  }

  function Opened(g: Gate, now: u32, code: seq<u8>): Gate {
    if IsCode(code)
    then g.(code := code, open := true, burned := false, tries := 0, windowStart := now)
    else g
  }

  function Joined(g: Gate, now: u32): Gate {
    g.(paired := true, burned := true, open := false, era := 0, pairMs := now)
  }

  function Forgotten(g: Gate): Gate {
    g.(paired := false, burned := false, open := false, tries := 0, era := 0, pairMs := 0)
  }

  function Attempted(g: Gate, input: seq<u8>, now: u32): (Gate, Result) {
    if g.paired then (g, AlreadyPaired)
    else if !InWindow(g, now) then (g.(open := false), NotInWindow)
    else if LockedOut(g, now) then (g, Locked)
    else
      var left := if g.tries >= MAX_TRIES then 0 else g.tries;
      if input == g.code && |input| == CODE_LEN then (Joined(g.(tries := left), now), Accepted)
      else if left + 1 >= MAX_TRIES then (g.(tries := left + 1, lockoutStart := now), Locked)
      else (g.(tries := left + 1), BadCode)
  }

  /** The six-byte comparison, which looks at every byte whatever it has found. */
  method ConstantTimeEqual6(a: seq<u8>, b: seq<u8>) returns (same: bool)
    requires |a| == |b| == CODE_LEN
    ensures same <==> a == b
  {
    hide BitXor;
    same := true;
    for i := 0 to CODE_LEN
      invariant same <==> forall k :: 0 <= k < i ==> a[k] == b[k]
    {
      BitXorIsZero(a[i], b[i]);
      if BitXor(a[i], b[i]) != 0 {
        same := false;
      }
    }
  }

  class Core {
    var code: seq<u8>
    var windowOpen: bool
    var paired: bool
    var burned: bool
    var tries: nat
    var windowStartMs: u32
    var lockoutStartMs: u32
    var era: u16
    var pairMs: u32

    function View(): Gate
      reads this
    {
      Gate(code, windowOpen, paired, burned, tries, windowStartMs, lockoutStartMs, era, pairMs)
    }

    predicate Valid()
      reads this
    {
      IsCode(code) && tries <= MAX_TRIES
    }

    constructor ()
      ensures Valid()
      ensures View() == Gate([48, 48, 48, 48, 48, 48], false, false, false, 0, 0, 0, 0, 0)
    {
      code := [48, 48, 48, 48, 48, 48];
      windowOpen, paired, burned := false, false, false;
      tries, windowStartMs, lockoutStartMs, era, pairMs := 0, 0, 0, 0, 0;
    }

    method OpenWindow(now: u32, shown: seq<u8>) returns (shows: bool)
      requires Valid()
      modifies this
      ensures Valid()
      ensures shows <==> IsCode(shown)
      ensures View() == Opened(old(View()), now, shown)
    {
      if !IsCode(shown) {
        return false;
      }
      code, windowOpen, burned, tries, windowStartMs := shown, true, false, 0, now;
      return true;
    }

    method TryCode(input: seq<u8>, now: u32) returns (result: Result)
      requires Valid()
      modifies this
      ensures Valid()
      ensures (View(), result) == Attempted(old(View()), input, now)
    {
      if paired {
        return AlreadyPaired;
      }
      if !windowOpen || burned || Since(windowStartMs, now) >= WINDOW_MS {
        windowOpen := false;
        return NotInWindow;
      }
      if tries >= MAX_TRIES && Since(lockoutStartMs, now) < LOCKOUT_MS {
        return Locked;
      }
      if tries >= MAX_TRIES {
        tries := 0;
      }
      var equal := false;
      if |input| == CODE_LEN {
        equal := ConstantTimeEqual6(code, input);
      }
      if equal {
        OnPaired(now);
        return Accepted;
      }
      tries := tries + 1;
      if tries >= MAX_TRIES {
        lockoutStartMs := now;
        return Locked;
      }
      return BadCode;
    }

    method OnPaired(now: u32)
      modifies this
      ensures View() == Joined(old(View()), now)
    {
      paired, burned, windowOpen, era, pairMs := true, true, false, 0, now;
    }

    method OnPairRefreshApplied(next: u16)
      modifies `era
      ensures View() == old(View()).(era := next)
    {
      era := next;
    }

    method ClearPair()
      modifies this
      ensures View() == Forgotten(old(View()))
    {
      paired, burned, windowOpen, tries, era, pairMs := false, false, false, 0, 0, 0;
    }
  }

  // ── One window, from opening to expiry ────────────────────────────────────

  /** What can reach the gate between two openings, at times counted without wrap-around. */
  datatype Event =
    | Try(input: seq<u8>, at: nat)
    | Join(at: nat)
    | Forget(at: nat)
    | Refresh(next: u16, at: nat)

  function Clock(t: nat): u32 {
    t % 0x1_0000_0000
  }

  /** A gate together with the comparisons made and the codes accepted so far. */
  datatype Tally = Tally(gate: Gate, compared: nat, accepted: nat)

  function After(s: Tally, e: Event): Tally {
    match e
    case Try(input, t) =>
      var (g, result) := Attempted(s.gate, input, Clock(t));
      Tally(g, s.compared + (if Compares(s.gate, Clock(t)) then 1 else 0),
            s.accepted + (if result.Accepted? then 1 else 0))
    case Join(t) => s.(gate := Joined(s.gate, Clock(t)))
    case Forget(t) => s.(gate := Forgotten(s.gate))
    case Refresh(next, t) => s.(gate := s.gate.(era := next))
  }

  function Run(s: Tally, events: seq<Event>): Tally
    decreases |events|
  {
    if events == [] then s else Run(After(s, events[0]), events[1..])
  }

  /** Times never go back, from the time of opening to less than 2^32 ms after it. */
  predicate InOrder(events: seq<Event>, from: nat, start: nat) {
    events != [] ==> from <= events[0].at < start + 0x1_0000_0000 && InOrder(events[1..], events[0].at, start)
  }

  lemma SinceIsElapsed(from: nat, to: nat)
    requires from <= to < from + 0x1_0000_0000
    ensures Since(Clock(from), Clock(to)) == to - from
  {
    var a, b := from / 0x1_0000_0000, to / 0x1_0000_0000;
    assert to - from == 0x1_0000_0000 * (b - a) + (Clock(to) - Clock(from));
  }

  /** Batch `done` follows that many expired lockouts; `locked` is when a full batch closed. */
  ghost predicate Batch(s: Tally, start: nat, now: nat, done: nat, locked: nat) {
    && s.accepted == 0
    && s.compared == 5 * done + s.gate.tries
    && s.gate.tries <= MAX_TRIES
    && s.gate.windowStart == Clock(start)
    && start + 30_000 * done <= now < start + 0x1_0000_0000
    && (s.gate.tries == MAX_TRIES ==>
          s.gate.lockoutStart == Clock(locked) && start + 30_000 * done <= locked <= now)
  }

  /** Once the window is shut for good, nothing is compared until the next opening. */
  predicate Shut(s: Tally) {
    !s.gate.open && s.compared <= 50 && s.accepted <= 1
  }

  ghost predicate Live(s: Tally, start: nat, now: nat) {
    s.compared <= 50 && exists done: nat, locked: nat :: Batch(s, start, now, done, locked)
  }

  lemma TryInBatch(s: Tally, start: nat, now: nat, done: nat, locked: nat, input: seq<u8>, at: nat)
    requires Batch(s, start, now, done, locked) && s.compared <= 50
    requires now <= at < start + 0x1_0000_0000
    ensures Shut(After(s, Try(input, at))) || Live(After(s, Try(input, at)), start, at)
  {
    var s' := After(s, Try(input, at));
    SinceIsElapsed(start, at);
    if s.gate.paired || !InWindow(s.gate, Clock(at)) {
      if s.gate.paired {
        assert Batch(s', start, at, done, locked);
      }
    } else if s.gate.tries == MAX_TRIES {
      SinceIsElapsed(locked, at);
      if LockedOut(s.gate, Clock(at)) {
        assert Batch(s', start, at, done, locked);
      } else if s'.accepted == 0 {
        assert Batch(s', start, at, done + 1, at);
      }
    } else if s'.accepted == 0 {
      assert Batch(s', start, at, done, at);
    }
  }

  lemma EventKeepsBound(s: Tally, start: nat, now: nat, e: Event)
    requires Shut(s) || Live(s, start, now)
    requires now <= e.at < start + 0x1_0000_0000
    ensures Shut(After(s, e)) || Live(After(s, e), start, e.at)
  {
    if !Shut(s) {
      var done: nat, locked: nat :| Batch(s, start, now, done, locked);
      match e
      case Try(input, at) => TryInBatch(s, start, now, done, locked, input, at);
      case Join(_) =>
      case Forget(_) =>
      case Refresh(_, at) => assert Batch(After(s, e), start, at, done, locked);
    }
  }

  lemma {:induction false} RunKeepsBound(s: Tally, start: nat, now: nat, events: seq<Event>)
    requires Shut(s) || Live(s, start, now)
    requires InOrder(events, now, start)
    ensures Run(s, events).compared <= 50 && Run(s, events).accepted <= 1
    decreases |events|
  {
    if events == [] {
    } else {
      EventKeepsBound(s, start, now, events[0]);
      RunKeepsBound(After(s, events[0]), start, events[0].at, events[1..]);
    }
  }

  /** One window compares at most fifty codes and accepts at most one, whatever is tried
    * and whenever, for all of the 2^32 ms the clock can tell apart. */
  lemma WindowIsBounded(g: Gate, code: seq<u8>, start: nat, events: seq<Event>)
    requires IsCode(code)
    requires InOrder(events, start, start)
    ensures Run(Tally(Opened(g, Clock(start), code), 0, 0), events).compared <= 50
    ensures Run(Tally(Opened(g, Clock(start), code), 0, 0), events).accepted <= 1
  {
    var s := Tally(Opened(g, Clock(start), code), 0, 0);
    assert Batch(s, start, start, 0, 0);
    RunKeepsBound(s, start, start, events);
  }

  /** Five wrong codes at the start of each half minute. */
  function Assault(wrong: seq<u8>, start: nat, batches: nat): (events: seq<Event>)
    ensures |events| == 5 * batches
  {
    if batches == 0 then []
    else
      var t := start + 30_000 * (batches - 1);
      Assault(wrong, start, batches - 1) + [Try(wrong, t), Try(wrong, t), Try(wrong, t), Try(wrong, t), Try(wrong, t)]
  }

  lemma {:induction false} RunAppend(s: Tally, a: seq<Event>, b: seq<Event>)
    ensures Run(s, a + b) == Run(Run(s, a), b)
    decreases |a|
  {
    if a == [] {
      assert a + b == b;
    } else {
      assert (a + b)[1..] == a[1..] + b;
      RunAppend(After(s, a[0]), a[1..], b);
    }
  }

  lemma FiveTries(s: Tally, wrong: seq<u8>, t: nat)
    requires Compares(s.gate, Clock(t)) && wrong != s.gate.code
    requires s.gate.tries == 0 || s.gate.tries >= MAX_TRIES
    ensures var e := Try(wrong, t);
            Run(s, [e, e, e, e, e]) == Tally(s.gate.(tries := 5, lockoutStart := Clock(t)), s.compared + 5, s.accepted)
  {
    var e := Try(wrong, t);
    var one := After(s, e);
    var two := After(one, e);
    var three := After(two, e);
    var four := After(three, e);
    assert [e, e, e, e, e][1..] == [e, e, e, e] && [e, e, e, e][1..] == [e, e, e];
    assert [e, e, e][1..] == [e, e] && [e, e][1..] == [e] && [e][1..] == [];
    assert Run(s, [e, e, e, e, e]) == Run(one, [e, e, e, e]) == Run(two, [e, e, e]);
    assert Run(two, [e, e, e]) == Run(three, [e, e]) == Run(four, [e]) == Run(After(four, e), []);
  }

  /** The gate after that many full batches of wrong codes. */
  predicate Reached(h: Gate, g: Gate, code: seq<u8>, start: nat, batches: nat) {
    && h == Opened(g, Clock(start), code).(tries := h.tries, lockoutStart := h.lockoutStart)
    && (batches == 0 ==> h.tries == 0)
    && (batches > 0 ==> h.tries == 5 && h.lockoutStart == Clock(start + 30_000 * (batches - 1)))
  }

  /** Half a minute after the last batch the gate compares again. */
  lemma ReachedCompares(h: Gate, g: Gate, code: seq<u8>, start: nat, batches: nat)
    requires IsCode(code) && !g.paired && batches < 10 && Reached(h, g, code, start, batches)
    ensures Compares(h, Clock(start + 30_000 * batches))
  {
    hide Clock, Since;
    SinceIsElapsed(start, start + 30_000 * batches);
    if batches > 0 {
      SinceIsElapsed(start + 30_000 * (batches - 1), start + 30_000 * batches);
    }
  }

  /** Fifty is reached: five wrong codes at the start of each half minute are all compared. */
  lemma {:induction false} BoundIsReached(g: Gate, code: seq<u8>, wrong: seq<u8>, start: nat, batches: nat)
    requires IsCode(code) && wrong != code && !g.paired && batches <= 10
    ensures var s := Run(Tally(Opened(g, Clock(start), code), 0, 0), Assault(wrong, start, batches));
            s.compared == 5 * batches && Reached(s.gate, g, code, start, batches)
  {
    hide Clock, Run, Compares, IsCode;
    var s0 := Tally(Opened(g, Clock(start), code), 0, 0);
    if batches == 0 {
      NothingRuns(s0);
    } else {
      BoundIsReached(g, code, wrong, start, batches - 1);
      var s := Run(s0, Assault(wrong, start, batches - 1));
      var e := Try(wrong, start + 30_000 * (batches - 1));
      ReachedCompares(s.gate, g, code, start, batches - 1);
      FiveTries(s, wrong, e.at);
      RunAppend(s0, Assault(wrong, start, batches - 1), [e, e, e, e, e]);
    }
  }

  lemma NothingRuns(s: Tally)
    ensures Run(s, []) == s
  {
  }
}
