/** What each signed pairing-session frame authenticates, and why no tag of one frame can
  * pass for another.
  */
module PairingTags {
  import opened Words

  /** The statements a session key signs, with the fields their tag messages carry. */
  datatype Claim =
    | Drive(counter: u32, mode: u8, throttle: u8, steer: u8, flags: u8)
    | Unpair(counter: u32)
    | Alive(era: u16, counter: u32)
    | Trigger(id: u8, era: u16, counter: u32)
    | Disconnect(era: u16, counter: u32)
    | Take(era: u16, counter: u32)
    | RefreshAck(era: u16)
    | Refresh(era: u16, counter: u32)
    | Release(era: u16, counter: u32)

  function Text(s: string): (t: seq<u8>)
    requires forall i :: 0 <= i < |s| ==> s[i] < 128 as char
    ensures |t| == |s|
  {
    seq(|s|, i requires 0 <= i < |s| => s[i] as int)
  }

  function Label(c: Claim): (t: seq<u8>) {
    match c
    case Drive(_, _, _, _, _) => []
    case Unpair(_) => Text("UNPAIR")
    case Alive(_, _) => Text("ALIVE")
    case Trigger(_, _, _) => Text("EXPRTRIG")
    case Disconnect(_, _) => Text("DISCONNECT")
    case Take(_, _) => Text("MANUALTAKE")
    case RefreshAck(_) => Text("PAIRREFRESHACK")
    case Refresh(_, _) => Text("PAIRREFRESH")
    case Release(_, _) => Text("MANUALRELEASE")
  }

  function Fields(c: Claim): (t: seq<u8>) {
    match c
    case Drive(counter, mode, throttle, steer, flags) => Be4(counter) + [mode, throttle, steer, flags]
    case Unpair(counter) => Be4(counter)
    case Trigger(id, era, counter) => [id] + Be2(era) + Be4(counter)
    case RefreshAck(era) => Be2(era)
    case Alive(era, counter) => Be2(era) + Be4(counter)
    case Disconnect(era, counter) => Be2(era) + Be4(counter)
    case Take(era, counter) => Be2(era) + Be4(counter)
    case Refresh(era, counter) => Be2(era) + Be4(counter)
    case Release(era, counter) => Be2(era) + Be4(counter)
  }

  /** The bytes the tag is computed over. */
  function TagMessage(c: Claim): (t: seq<u8>)
    ensures |t| == |Label(c)| + |Fields(c)|
  {
    Label(c) + Fields(c)
  }

  /** Which frame a message of this length and first letter belongs to. */
  function KindOf(length: nat, first: u8): nat {
    match length
    case 8 => 1
    case 10 => 2
    case 11 => 3
    case 15 => 4
    case 16 => if first == 'D' as int then 5 else if first == 'M' as int then 6 else 7
    case 17 => 8
    case _ => 9
  }

  function Kind(c: Claim): nat {
    match c
    case Drive(_, _, _, _, _) => 1
    case Unpair(_) => 2
    case Alive(_, _) => 3
    case Trigger(_, _, _) => 4
    case Disconnect(_, _) => 5
    case Take(_, _) => 6
    case RefreshAck(_) => 7
    case Refresh(_, _) => 8
    case Release(_, _) => 9
  }

  lemma MessageShowsKind(c: Claim)
    ensures |TagMessage(c)| >= 8
    ensures KindOf(|TagMessage(c)|, TagMessage(c)[0]) == Kind(c)
  {
  }

  lemma SameFields(a: Claim, b: Claim)
    requires Kind(a) == Kind(b) && Fields(a) == Fields(b)
    ensures a == b
  {
    hide FromBe4, Be4, Text;
    match a
    case Drive(counter, mode, throttle, steer, flags) =>
      assert Fields(a)[..4] == Be4(counter) && Fields(b)[..4] == Be4(b.counter);
      assert Fields(a)[4..] == [mode, throttle, steer, flags] &&
           Fields(b)[4..] == [b.mode, b.throttle, b.steer, b.flags];
      assert [mode, throttle, steer, flags] == [b.mode, b.throttle, b.steer, b.flags];
      Be4ReadsBack(counter);
      Be4ReadsBack(b.counter);
    case Unpair(counter) =>
      Be4ReadsBack(counter);
      Be4ReadsBack(b.counter);
    case Trigger(id, era, counter) =>
      SplitTrigger(id, era, counter);
      SplitTrigger(b.id, b.era, b.counter);
    case RefreshAck(era) =>
      assert FromBe2(Be2(era)) == era && FromBe2(Be2(b.era)) == b.era;
    case Alive(era, counter) => SplitPair(era, counter); SplitPair(b.era, b.counter);
    case Disconnect(era, counter) => SplitPair(era, counter); SplitPair(b.era, b.counter);
    case Take(era, counter) => SplitPair(era, counter); SplitPair(b.era, b.counter);
    case Refresh(era, counter) => SplitPair(era, counter); SplitPair(b.era, b.counter);
    case Release(era, counter) => SplitPair(era, counter); SplitPair(b.era, b.counter);
  }

  lemma SplitPair(era: u16, counter: u32)
    ensures FromBe2((Be2(era) + Be4(counter))[..2]) == era
    ensures FromBe4((Be2(era) + Be4(counter))[2..]) == counter
  {
    assert (Be2(era) + Be4(counter))[..2] == Be2(era) && (Be2(era) + Be4(counter))[2..] == Be4(counter);
    Be4ReadsBack(counter);
  }

  lemma SplitTrigger(id: u8, era: u16, counter: u32)
    ensures ([id] + Be2(era) + Be4(counter))[0] == id
    ensures FromBe2(([id] + Be2(era) + Be4(counter))[1..3]) == era
    ensures FromBe4(([id] + Be2(era) + Be4(counter))[3..]) == counter
  {
    assert ([id] + Be2(era) + Be4(counter))[1..3] == Be2(era) && ([id] + Be2(era) + Be4(counter))[3..] == Be4(counter);
    Be4ReadsBack(counter);
  }

  lemma SameKindSameLabel(a: Claim, b: Claim)
    requires Kind(a) == Kind(b)
    ensures Label(a) == Label(b)
  {
  }

  /** No message signs two different claims: neither the frame type nor any field is open. */
  lemma MessagesAreDistinct(a: Claim, b: Claim)
    requires TagMessage(a) == TagMessage(b)
    ensures a == b
  {
    MessageShowsKind(a);
    MessageShowsKind(b);
    SameKindSameLabel(a, b);
    hide Fields, Label;
    assert Fields(a) == TagMessage(a)[|Label(a)|..];
    assert Fields(b) == TagMessage(b)[|Label(b)|..];
    SameFields(a, b);
  }

  method PutBytes(out: array<u8>, at: nat, bytes: seq<u8>)
    requires at + |bytes| <= out.Length
    modifies out
    ensures out[..] == old(out[..at]) + bytes + old(out[at + |bytes|..])
  {
    for i := 0 to |bytes|
      invariant out[..at] == old(out[..at])
      invariant out[at..at + i] == bytes[..i]
      invariant out[at + i..] == old(out[at + i..])
    {
      out[at + i] := bytes[i];
    }
    assert bytes[..|bytes|] == bytes;
    assert out[..] == out[..at] + out[at..at + |bytes|] + out[at + |bytes|..];
  }

  /** Fills the caller's buffer with the message for one claim. */
  method BuildTagMessage(c: Claim, out: array<u8>)
    requires out.Length >= |TagMessage(c)|
    modifies out
    ensures out[..] == TagMessage(c) + old(out[|TagMessage(c)|..])
  {
    hide Label, Fields, Text;
    ghost var before := out[..];
    PutBytes(out, 0, Label(c));
    ghost var half := out[..];
    PutBytes(out, |Label(c)|, Fields(c));
    assert half == Label(c) + before[|Label(c)|..];
    assert half[..|Label(c)|] == Label(c);
    assert half[|Label(c)| + |Fields(c)|..] == before[|TagMessage(c)|..];
  }

  // ── The layout ────────────────────────────────────────────────────────────

  predicate Spells(t: seq<u8>, s: string) {
    |t| == |s| && forall i :: 0 <= i < |s| ==> t[i] == s[i] as int
  }

  /** A name, an era and a counter, numbers most significant byte first. */
  predicate LaidOut(t: seq<u8>, name: string, era: u16, counter: u32) {
    var n := |name|;
    |t| == n + 6 && Spells(t[..n], name) && FromBe2(t[n..n + 2]) == era && FromBe4(t[n + 2..]) == counter
  }

  /** Every message is a label in plain letters and big-endian fields; a drive's has no label and
    * goes on with the stick bytes as sent. */
  lemma MessageLayout(c: Claim)
    ensures var t := TagMessage(c);
            match c
            case Drive(counter, mode, throttle, steer, flags) =>
              |t| == 8 && FromBe4(t[..4]) == counter && t[4..] == [mode, throttle, steer, flags]
            case Unpair(counter) => |t| == 10 && Spells(t[..6], "UNPAIR") && FromBe4(t[6..]) == counter
            case Trigger(id, era, counter) =>
              && |t| == 15 && Spells(t[..8], "EXPRTRIG") && t[8] == id
              && FromBe2(t[9..11]) == era && FromBe4(t[11..]) == counter
            case RefreshAck(era) => |t| == 16 && Spells(t[..14], "PAIRREFRESHACK") && FromBe2(t[14..]) == era
            case Alive(era, counter) => LaidOut(t, "ALIVE", era, counter)
            case Disconnect(era, counter) => LaidOut(t, "DISCONNECT", era, counter)
            case Take(era, counter) => LaidOut(t, "MANUALTAKE", era, counter)
            case Refresh(era, counter) => LaidOut(t, "PAIRREFRESH", era, counter)
            case Release(era, counter) => LaidOut(t, "MANUALRELEASE", era, counter)
  {
    hide FromBe4, FromBe2, Be4, Be2, LaidOut;
    match c
    case Drive(counter, mode, throttle, steer, flags) =>
      assert TagMessage(c) == Be4(counter) + [mode, throttle, steer, flags];
      Be4ReadsBack(counter);
    case Unpair(counter) =>
      Be4ReadsBack(counter);
      assert TagMessage(c)[6..] == Be4(counter) && TagMessage(c)[..6] == Text("UNPAIR");
    case Trigger(id, era, counter) => TriggerLayout(id, era, counter);
    case RefreshAck(era) => AckLayout(era);
    case Alive(era, counter) => PairLayout("ALIVE", era, counter);
    case Disconnect(era, counter) => PairLayout("DISCONNECT", era, counter);
    case Take(era, counter) => PairLayout("MANUALTAKE", era, counter);
    case Refresh(era, counter) => PairLayout("PAIRREFRESH", era, counter);
    case Release(era, counter) => PairLayout("MANUALRELEASE", era, counter);
  }

  lemma TriggerLayout(id: u8, era: u16, counter: u32)
    ensures var t := TagMessage(Trigger(id, era, counter));
            && |t| == 15 && Spells(t[..8], "EXPRTRIG") && t[8] == id
            && FromBe2(t[9..11]) == era && FromBe4(t[11..]) == counter
  {
    var t := TagMessage(Trigger(id, era, counter));
    var f := [id] + Be2(era) + Be4(counter);
    assert t[..8] == Text("EXPRTRIG") && t[8..] == f;
    assert t[9..11] == f[1..3] && t[11..] == f[3..];
    SplitTrigger(id, era, counter);
  }

  lemma AckLayout(era: u16)
    ensures var t := TagMessage(RefreshAck(era));
            |t| == 16 && Spells(t[..14], "PAIRREFRESHACK") && FromBe2(t[14..]) == era
  {
    var t := TagMessage(RefreshAck(era));
    assert t[..14] == Text("PAIRREFRESHACK") && t[14..] == Be2(era);
  }

  lemma PairLayout(name: string, era: u16, counter: u32)
    requires forall i :: 0 <= i < |name| ==> name[i] < 128 as char
    ensures LaidOut(Text(name) + (Be2(era) + Be4(counter)), name, era, counter)
  {
    var f := Be2(era) + Be4(counter);
    var t, n := Text(name) + f, |name|;
    assert t[..n] == Text(name) && t[n..] == f;
    assert t[n..n + 2] == f[..2] && t[n + 2..] == f[2..];
    hide FromBe2, FromBe4, Be2, Be4;
    SplitPair(era, counter);
  }
}
