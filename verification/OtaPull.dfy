/** The head's pull of an image: fetch, verify, commit; and the whole path from an upload at
  * the core to the bytes the head boots.
  */
module OtaPull {
  import opened OtaHex
  import opened OtaLedger
  import opened OtaManifest
  import opened OtaStaging
  import opened Sha256
  import opened Words

  const SLOT_BYTES := 0x1F_0000
  const CHUNK := 1460
  const TIMEOUT_MS := 15_000
  const IMAGE_MAGIC: u8 := 0xE9

  datatype State = Idle | Fetch | Verify | Committing
  datatype Signal = Start | Chunk | StreamEnd | VerifyOk | VerifyFail | CommitOk | CommitFail | Abort

  /** Anything the table does not name leaves the state as it is. */
  function Next(s: State, e: Signal): State {
    match (s, e)
    case (Idle, Start) => Fetch
    case (Fetch, StreamEnd) => Verify
    case (Fetch, Abort) => Idle
    case (Verify, VerifyOk) => Committing
    case (Verify, VerifyFail) => Idle
    case (Verify, Abort) => Idle
    case (Committing, CommitOk) => Idle
    case (Committing, CommitFail) => Idle
    case (Committing, Abort) => Idle
    case _ => s
  }

  /** An image made bootable, and whether a manifest digest was set for it. */
  datatype Image = Image(bytes: seq<u8>, checked: bool)

  /** The updater, the slot being written, the bytes its digest has absorbed, and the image
    * the slot table boots. */
  datatype Pull = Pull(state: State, total: nat, received: nat, manifestSet: bool, manifest: string,
                       slot: seq<u8>, fed: seq<u8>, lastRx: u32, booted: Option<Image>)

  datatype Header = ContentLength(length: u32) | FirmwareSha(value: string) | OtherHeader

  /** What the web server sends back before the body, and whether the flash slot opens. */
  datatype Response = Response(urlOk: bool, connects: bool, statusOk: bool, headers: seq<Header>, begins: bool)

  function LengthIn(headers: seq<Header>): nat {
    if headers == [] then 0
    else
      var h := headers[|headers| - 1];
      if h.ContentLength? then h.length else LengthIn(headers[..|headers| - 1])
  }

  /** The last well-formed digest header. */
  function ShaIn(headers: seq<Header>): Option<string> {
    if headers == [] then None
    else
      var h := headers[|headers| - 1];
      if h.FirmwareSha? && IsHex64(h.value) then Some(h.value) else ShaIn(headers[..|headers| - 1])
  }

  function Failed(p: Pull): Pull {
    p.(state := Next(p.state, Abort), slot := [])
  }

  function Launched(p: Pull, r: Response, now: u32): Pull {
    if p.state != Idle || !r.urlOk then p
    else
      var q := p.(manifestSet := false, manifest := "", total := 0, received := 0);
      if !r.connects then q
      else if !r.statusOk then Failed(q)
      else
        var sha := ShaIn(r.headers);
        var m := if sha.Some? then q.(manifestSet := true, manifest := sha.value) else q;
        if LengthIn(r.headers) == 0 || LengthIn(r.headers) > SLOT_BYTES then Failed(m)
        else
          var t := m.(total := LengthIn(r.headers));
          if !r.begins then Failed(t)
          else t.(slot := [], fed := [], lastRx := now, state := Next(t.state, Start))
  }

  /** One read of the body, and whether the flash takes it. */
  datatype Read = Read(bytes: seq<u8>, taken: bool)

  predicate IsRead(r: Read) {
    1 <= |r.bytes| <= CHUNK
  }

  predicate Bad(p: Pull, r: Read)
    requires IsRead(r)
  {
    (p.received == 0 && r.bytes[0] != IMAGE_MAGIC) || !r.taken
  }

  function Absorbed(p: Pull, r: Read, now: u32): Pull {
    p.(slot := p.slot + r.bytes, fed := p.fed + r.bytes, received := p.received + |r.bytes|, lastRx := now,
       state := Next(p.state, Chunk))
  }

  predicate AllReads(chunks: seq<Read>) {
    forall i :: 0 <= i < |chunks| ==> IsRead(chunks[i])
  }

  /** Take chunks until the announced length is reached or one is bad. */
  function Pumped(p: Pull, chunks: seq<Read>, now: u32): Pull
    requires AllReads(chunks)
    decreases |chunks|
  {
    if chunks == [] || p.received >= p.total then p
    else if Bad(p, chunks[0]) then Failed(p)
    else Pumped(Absorbed(p, chunks[0], now), chunks[1..], now)
  }

  function Concluded(p: Pull, endOk: bool): Pull {
    var v := p.(state := Next(p.state, StreamEnd));
    if v.manifestSet && !Matches(Hex(Digest(v.fed)), v.manifest) then
      v.(state := Next(v.state, VerifyFail), slot := [])
    else
      var c := v.(state := Next(v.state, VerifyOk));
      if endOk then c.(state := Next(c.state, CommitOk), booted := Some(Image(c.slot, c.manifestSet)))
      else c.(state := Next(c.state, CommitFail))
  }

  predicate StreamComplete(p: Pull) {
    p.total != 0 && p.received >= p.total
  }

  /** What one poll finds: chunks, then whether more is waiting and the peer still there. */
  datatype Poll = Poll(chunks: seq<Read>, now: u32, available: bool, connected: bool, endOk: bool)

  function Polled(p: Pull, e: Poll): Pull
    requires AllReads(e.chunks)
  {
    if p.state != Fetch then p
    else
      var q := Pumped(p, e.chunks, e.now);
      if q.state != Fetch then q
      else if StreamComplete(q) then Concluded(q, e.endOk)
      else if !e.available && !e.connected then Failed(q)
      else if Since(q.lastRx, e.now) >= TIMEOUT_MS then Failed(q)
      else q
  }

  class OtaUpdater {
    var state: State
    var total: nat
    var received: nat
    var manifestSet: bool
    var manifest: string
    var slot: seq<u8>
    var fed: seq<u8>
    var lastRxMs: u32
    var booted: Option<Image>

    function View(): Pull
      reads this
    {
      Pull(state, total, received, manifestSet, manifest, slot, fed, lastRxMs, booted)
    }

    constructor ()
      ensures View() == Pull(Idle, 0, 0, false, "", [], [], 0, None)
    {
      state, total, received, manifestSet, manifest := Idle, 0, 0, false, "";
      slot, fed, lastRxMs, booted := [], [], 0, None;
    }

    method Fail()
      modifies this
      ensures View() == Failed(old(View()))
    {
      slot := [];
      state := Next(state, Abort);
    }

    method StartPull(r: Response, now: u32) returns (ok: bool)
      modifies this
      ensures View() == Launched(old(View()), r, now)
      ensures ok <==> old(state) == Idle && state == Fetch
    {
      if state != Idle || !r.urlOk {
        return false;
      }
      manifestSet, manifest, total, received := false, "", 0, 0;
      if !r.connects {
        return false;
      }
      if !r.statusOk {
        Fail();
        return false;
      }
      var length: nat := 0;
      ghost var before := View();
      for i := 0 to |r.headers|
        invariant length == LengthIn(r.headers[..i])
        invariant var sha := ShaIn(r.headers[..i]);
                  View() == if sha.Some? then before.(manifestSet := true, manifest := sha.value) else before
      {
        assert r.headers[..i + 1][..i] == r.headers[..i];
        match r.headers[i]
        case ContentLength(n) => length := n;
        case FirmwareSha(v) =>
          if IsHex64(v) {
            manifest, manifestSet := v, true;
          }
        case OtherHeader =>
      }
      assert r.headers[..|r.headers|] == r.headers;
      if length == 0 || length > SLOT_BYTES {
        Fail();
        return false;
      }
      total := length;
      if !r.begins {
        Fail();
        return false;
      }
      slot, fed, lastRxMs := [], [], now;
      state := Next(state, Start);
      return true;
    }

    /** The body pump. */
    method PollBody(e: Poll)
      requires AllReads(e.chunks)
      modifies this
      ensures View() == Polled(old(View()), e)
    {
      if state != Fetch {
        return;
      }
      var failed := PumpBody(e);
      if failed {
        return;
      }
      hide Pumped, Failed, Concluded;
      if total != 0 && received >= total {
        Finish(e.endOk);
        return;
      }
      if !e.available && !e.connected {
        Fail();
        return;
      }
      if Since(lastRxMs, e.now) >= TIMEOUT_MS {
        Fail();
      }
    }

    lemma PumpedOut(p: Pull, chunks: seq<Read>, i: nat, now: u32)
      requires AllReads(chunks) && i <= |chunks| && (i == |chunks| || p.received >= p.total)
      ensures Pumped(p, chunks[i..], now) == p
    {
    }

    /** One turn of the loop below. */
    lemma PumpedOnce(p: Pull, chunks: seq<Read>, i: nat, now: u32)
      requires AllReads(chunks) && i < |chunks| && p.received < p.total
      ensures Pumped(p, chunks[i..], now) ==
              if Bad(p, chunks[i]) then Failed(p) else Pumped(Absorbed(p, chunks[i], now), chunks[i + 1..], now)
    {
      assert chunks[i..][0] == chunks[i] && chunks[i..][1..] == chunks[i + 1..];
    }

    method PumpBody(e: Poll) returns (failed: bool)
      requires AllReads(e.chunks) && state == Fetch
      modifies this
      ensures View() == Pumped(old(View()), e.chunks, e.now)
      ensures failed <==> state != Fetch
    {
      hide Pumped;
      failed := false;
      var i := 0;
      assert e.chunks[0..] == e.chunks;
      while i < |e.chunks| && received < total
        invariant i <= |e.chunks| && state == Fetch
        invariant Pumped(old(View()), e.chunks, e.now) == Pumped(View(), e.chunks[i..], e.now)
      {
        var r := e.chunks[i];
        PumpedOnce(View(), e.chunks, i, e.now);
        if received == 0 && r.bytes[0] != IMAGE_MAGIC {
          Fail();
          return true;
        }
        if !r.taken {
          Fail();
          return true;
        }
        slot := slot + r.bytes;
        fed := fed + r.bytes;
        received := received + |r.bytes|;
        lastRxMs := e.now;
        state := Next(state, Chunk);
        i := i + 1;
      }
      PumpedOut(View(), e.chunks, i, e.now);
    }

    method Finish(endOk: bool)
      modifies this
      ensures View() == Concluded(old(View()), endOk)
    {
      hide Hex, Digest, Matches;
      state := Next(state, StreamEnd);
      var actual := Hex(Digest(fed));
      if manifestSet {
        var same := ManifestMatches(actual, manifest);
        if !same {
          slot := [];
          state := Next(state, VerifyFail);
          return;
        }
      }
      state := Next(state, VerifyOk);
      if endOk {
        booted := Some(Image(slot, manifestSet));
        state := Next(state, CommitOk);
      } else {
        state := Next(state, CommitFail);
      }
    }
  }

  // ── What may become bootable ──────────────────────────────────────────────

  /** Between calls the updater is idle or fetching; while fetching, flash and digest have
    * seen the same bytes, and they start with the image magic. */
  predicate Sound(p: Pull) {
    && (p.state == Idle || p.state == Fetch)
    && (p.state == Fetch ==>
          && p.fed == p.slot && p.received == |p.slot| && 0 < p.total <= SLOT_BYTES
          && (p.slot != [] ==> p.slot[0] == IMAGE_MAGIC))
    && (p.manifestSet ==> IsHex64(p.manifest))
  }

  /** A whole image: announced length reached, magic right, digest right when one is set. */
  predicate Worthy(p: Pull, image: Image) {
    && p.total <= |image.bytes| && 0 < |image.bytes| && image.bytes[0] == IMAGE_MAGIC
    && (image.checked <==> p.manifestSet)
    && (p.manifestSet ==> Matches(Hex(Digest(image.bytes)), p.manifest))
  }

  lemma {:induction false} ShaIsHex(headers: seq<Header>)
    ensures ShaIn(headers).Some? ==>
              IsHex64(ShaIn(headers).value)
              && exists i :: 0 <= i < |headers| && headers[i] == FirmwareSha(ShaIn(headers).value)
  {
    if headers == [] {
    } else {
      var h := headers[|headers| - 1];
      if !(h.FirmwareSha? && IsHex64(h.value)) {
        ShaIsHex(headers[..|headers| - 1]);
      }
    }
  }

  lemma StartIsSound(p: Pull, r: Response, now: u32)
    requires Sound(p)
    ensures Sound(Launched(p, r, now)) && Launched(p, r, now).booted == p.booted
  {
    ShaIsHex(r.headers);
    hide ShaIn, LengthIn, IsHex64;
  }

  lemma {:induction false} PumpIsSound(p: Pull, chunks: seq<Read>, now: u32)
    requires Sound(p) && p.state == Fetch && AllReads(chunks)
    ensures var q := Pumped(p, chunks, now);
            && Sound(q) && q.booted == p.booted
            && q.manifestSet == p.manifestSet && q.manifest == p.manifest && q.total == p.total
    decreases |chunks|
  {
    hide IsHex64;
    if chunks == [] || p.received >= p.total || Bad(p, chunks[0]) {
    } else {
      assert AllReads(chunks[1..]);
      PumpIsSound(Absorbed(p, chunks[0], now), chunks[1..], now);
    }
  }

  lemma ConcludedIsWorthy(p: Pull, endOk: bool)
    requires Sound(p) && p.state == Fetch && StreamComplete(p)
    ensures var q := Concluded(p, endOk);
            && Sound(q) && q.manifestSet == p.manifestSet && q.manifest == p.manifest
            && (q.booted == p.booted || (q.booted.Some? && Worthy(p, q.booted.value)))
  {
    hide IsHex64, Hex, Digest, Matches;
  }

  /** The only way an image becomes bootable. */
  lemma BootsOnlyWorthy(p: Pull, e: Poll)
    requires Sound(p) && AllReads(e.chunks)
    ensures var q := Polled(p, e);
            && Sound(q) && q.manifestSet == p.manifestSet && q.manifest == p.manifest
            && (q.booted == p.booted || (q.booted.Some? && Worthy(p, q.booted.value)))
  {
    if p.state == Fetch {
      PumpIsSound(p, e.chunks, e.now);
      var q := Pumped(p, e.chunks, e.now);
      if q.state == Fetch && StreamComplete(q) {
        ConcludedIsWorthy(q, e.endOk);
      }
      hide Pumped, Concluded, IsHex64, Hex, Digest, Matches;
    }
  }

  // ── From upload to boot ───────────────────────────────────────────────────

  /** Core and head, and the digest headers the core has sent with an image. */
  datatype System = System(core: Task, ledger: Ledger, head: Pull, served: set<string>)

  datatype Event =
    | Upload(piece: Piece)
    | Get
    | HeadStarts(response: Response, now: u32)
    | HeadPolls(poll: Poll)

  /** The network may garble, truncate or invent the body, and anything in the headers except
    * a digest value, which must be one the core has sent. */
  predicate Possible(s: System, e: Event) {
    match e
    case Upload(p) => Fits(s.core, p)
    case Get => true
    case HeadStarts(r, _) =>
      forall i :: 0 <= i < |r.headers| && r.headers[i].FirmwareSha? ==>
      r.headers[i].value in s.served
    case HeadPolls(p) => AllReads(p.chunks)
  }

  function After(s: System, e: Event): System
    requires Possible(s, e)
  {
    match e
    case Upload(p) => s.(core := Uploaded(s.core, p), ledger := Recorded(s.ledger, p))
    case Get =>
      if !s.core.stage.uploading && s.core.stage.image.Some? && s.core.stage.imgLen > 0
      then s.(served := s.served + {s.core.stage.shaHex})
      else s
    case HeadStarts(r, now) => s.(head := Launched(s.head, r, now))
    case HeadPolls(p) => s.(head := Polled(s.head, p))
  }

  /** This digest text is that of a commit. */
  predicate IsCommitted(commits: seq<Commit>, sha: string) {
    exists i :: 0 <= i < |commits| && sha == Hex(Digest(commits[i].bytes))
  }

  /** A commit with the same SHA-256. */
  predicate HasTwin(commits: seq<Commit>, bytes: seq<u8>) {
    exists i :: 0 <= i < |commits| && Digest(bytes) == Digest(commits[i].bytes)
  }

  predicate Inv(s: System) {
    && Follows(s.core, s.ledger) && Digested(s.ledger.commits) && TellsAll(s.ledger)
    && Sound(s.head)
    && (forall h :: h in s.served ==> h == "" || IsCommitted(s.ledger.commits, h))
    && (s.head.manifestSet ==> s.head.manifest in s.served)
    && (s.head.booted.Some? && s.head.booted.value.checked ==> HasTwin(s.ledger.commits, s.head.booted.value.bytes))
  }

  lemma CommitsOnlyGrow(l: Ledger, p: Piece)
    ensures l.commits <= Recorded(l, p).commits
  {
    hide Hex, Digest;
  }

  lemma GrowthKeeps(a: seq<Commit>, b: seq<Commit>)
    requires a <= b
    ensures forall h :: IsCommitted(a, h) ==> IsCommitted(b, h)
    ensures forall w :: HasTwin(a, w) ==> HasTwin(b, w)
  {
    hide Hex, Digest;
    forall h | IsCommitted(a, h) ensures IsCommitted(b, h) {
      var i :| 0 <= i < |a| && h == Hex(Digest(a[i].bytes));
      assert b[i] == a[i];
    }
    forall w | HasTwin(a, w) ensures HasTwin(b, w) {
      var i :| 0 <= i < |a| && Digest(w) == Digest(a[i].bytes);
      assert b[i] == a[i];
    }
  }

  lemma UploadKeepsInv(s: System, p: Piece)
    requires Inv(s) && Fits(s.core, p)
    ensures Inv(After(s, Upload(p)))
  {
    PieceFollows(s.core, s.ledger, p);
    PieceTells(s.ledger, p);
    CommitsOnlyGrow(s.ledger, p);
    GrowthKeeps(s.ledger.commits, Recorded(s.ledger, p).commits);
    hide Follows, Digested, TellsAll, Sound, IsCommitted, HasTwin, Uploaded, Recorded;
  }

  lemma LastIsCommitted(commits: seq<Commit>)
    requires Digested(commits)
    ensures LastSha(commits) == "" || IsCommitted(commits, LastSha(commits))
  {
    hide Hex, Digest;
    if commits != [] && LastSha(commits) != "" {
      assert LastSha(commits) == Hex(Digest(commits[|commits| - 1].bytes));
    }
  }

  lemma GetKeepsInv(s: System)
    requires Inv(s)
    ensures Inv(After(s, Get))
  {
    LastIsCommitted(s.ledger.commits);
    assert s.core.stage.shaHex == LastSha(s.ledger.commits)
      by { hide InFlight, Holds, Digested, TellsAll, Sound, IsCommitted, HasTwin; }
    hide Follows, Digested, TellsAll, Sound, IsCommitted, HasTwin, LastSha;
  }

  lemma StartKeepsInv(s: System, r: Response, now: u32)
    requires Inv(s) && Possible(s, HeadStarts(r, now))
    ensures Inv(After(s, HeadStarts(r, now)))
  {
    StartIsSound(s.head, r, now);
    ShaIsHex(r.headers);
    hide Follows, Digested, TellsAll, Sound, IsCommitted, HasTwin, ShaIn, LengthIn;
  }

  lemma PollKeepsInv(s: System, p: Poll)
    requires Inv(s) && AllReads(p.chunks)
    ensures Inv(After(s, HeadPolls(p)))
  {
    BootsOnlyWorthy(s.head, p);
    var q := Polled(s.head, p);
    if q.booted != s.head.booted && q.booted.value.checked {
      WorthyHasTwin(s, q.booted.value);
    }
    hide Follows, Digested, TellsAll, Sound, IsCommitted, HasTwin, Polled, Worthy;
  }

  lemma WorthyHasTwin(s: System, image: Image)
    requires Inv(s) && Worthy(s.head, image) && image.checked
    ensures HasTwin(s.ledger.commits, image.bytes)
  {
    var commits := s.ledger.commits;
    var w := image.bytes;
    assert s.head.manifest != "";
    hide Hex, Digest, Follows, Digested, TellsAll;
    var i :| 0 <= i < |commits| && s.head.manifest == Hex(Digest(commits[i].bytes));
    MatchesIsEquality(Digest(w), Digest(commits[i].bytes));
  }

  lemma StepKeepsInv(s: System, e: Event)
    requires Inv(s) && Possible(s, e)
    ensures Inv(After(s, e))
  {
    match e
    case Upload(p) => UploadKeepsInv(s, p);
    case Get => GetKeepsInv(s);
    case HeadStarts(r, now) => StartKeepsInv(s, r, now);
    case HeadPolls(p) => PollKeepsInv(s, p);
  }

  function RunOf(s: System, events: seq<Event>): System
    requires AllPossible(s, events)
    decreases |events|
  {
    if events == [] then s else RunOf(After(s, events[0]), events[1..])
  }

  predicate AllPossible(s: System, events: seq<Event>)
    decreases |events|
  {
    events != [] ==> Possible(s, events[0]) && AllPossible(After(s, events[0]), events[1..])
  }

  lemma {:induction false} RunKeepsInv(s: System, events: seq<Event>)
    requires Inv(s) && AllPossible(s, events)
    ensures Inv(RunOf(s, events))
    decreases |events|
  {
    if events == [] {
    } else {
      StepKeepsInv(s, events[0]);
      RunKeepsInv(After(s, events[0]), events[1..]);
    }
  }

  /** A pair of different messages with one SHA-256. */
  predicate Collision(a: seq<u8>, b: seq<u8>) {
    a != b && Digest(a) == Digest(b)
  }

  const START_SYSTEM := System(FRESH, EMPTY, Pull(Idle, 0, 0, false, "", [], [], 0, None), {})

  /** The pieces uploaded, in order. */
  function Uploads(events: seq<Event>): seq<Piece> {
    if events == [] then []
    else (if events[0].Upload? then [events[0].piece] else []) + Uploads(events[1..])
  }

  lemma HistoryGrows(s: System, e: Event)
    requires Inv(s) && Possible(s, e)
    ensures After(s, e).ledger.history == if e.Upload? then s.ledger.history + [e.piece] else s.ledger.history
  {
    if e.Upload? {
      assert TellsAll(s.ledger) by { hide Follows, Digested, TellsAll, Sound, IsCommitted, HasTwin; }
      hide Inv, Possible, TellsAll, Uploaded, Recorded;
      PieceTells(s.ledger, e.piece);
    }
  }

  lemma {:induction false} HistoryIsUploads(s: System, events: seq<Event>)
    requires Inv(s) && AllPossible(s, events)
    ensures RunOf(s, events).ledger.history == s.ledger.history + Uploads(events)
    decreases |events|
  {
    if events == [] {
      assert s.ledger.history + [] == s.ledger.history;
    } else {
      hide Inv, Possible, After;
      var t := After(s, events[0]);
      StepKeepsInv(s, events[0]);
      HistoryGrows(s, events[0]);
      HistoryIsUploads(t, events[1..]);
      hide *;
      HistoriesJoin(s.ledger.history, events, t.ledger.history);
    }
  }

  lemma HistoriesJoin(h: seq<Piece>, events: seq<Event>, next: seq<Piece>)
    requires events != [] && next == if events[0].Upload? then h + [events[0].piece] else h
    ensures next + Uploads(events[1..]) == h + Uploads(events)
  {
  }

  lemma StartIsGood()
    ensures Inv(START_SYSTEM)
  {
    FreshFollows();
  }

  /** The commit an image is a copy of, or a collision with. */
  predicate CopyOf(bytes: seq<u8>, c: Commit) {
    bytes == c.bytes || Collision(bytes, c.bytes)
  }

  /** The bytes are a copy of some commit, and that commit is accounted for. */
  predicate Traced(h: seq<Piece>, commits: seq<Commit>, bytes: seq<u8>) {
    exists i :: 0 <= i < |commits| && CopyOf(bytes, commits[i]) && Accounted(h, commits[i])
  }

  /** End to end, for web servers that deliver each upload's pieces in order: an image booted with
    * a manifest digest set is, byte for byte, what one last piece committed at the core, or it
    * exhibits a SHA-256 collision with it; whatever the network did to the body and whatever
    * later uploads did to the buffer. What was committed is one whole upload, labelled as it
    * was, exactly when no piece of another upload was stored in it or closed it. */
  lemma BootedWasUploaded(events: seq<Event>)
    requires AllPossible(START_SYSTEM, events) && Proper(Uploads(events))
    ensures var s := RunOf(START_SYSTEM, events);
            s.head.booted.Some? && s.head.booted.value.checked ==>
              Traced(Uploads(events), s.ledger.commits, s.head.booted.value.bytes)
  {
    StartIsGood();
    assert START_SYSTEM.ledger.history == [];
    hide *;
    RunKeepsInv(START_SYSTEM, events);
    HistoryIsUploads(START_SYSTEM, events);
    var s := RunOf(START_SYSTEM, events);
    NothingAround(Uploads(events));
    if s.head.booted.Some? && s.head.booted.value.checked {
      BootedIsTraced(s);
    }
  }

  lemma BootedIsTraced(s: System)
    requires Inv(s) && Proper(s.ledger.history) && s.head.booted.Some? && s.head.booted.value.checked
    ensures Traced(s.ledger.history, s.ledger.commits, s.head.booted.value.bytes)
  {
    hide Inv, Proper, CopyOf, Told, Accounted;
    var i := TwinOf(s);
    ToldIsAccounted(s.ledger.history, s.ledger.commits[i]);
  }

  lemma TwinOf(s: System) returns (i: nat)
    requires Inv(s) && s.head.booted.Some? && s.head.booted.value.checked
    ensures i < |s.ledger.commits| && CopyOf(s.head.booted.value.bytes, s.ledger.commits[i])
    ensures Told(s.ledger.history, s.ledger.commits[i])
  {
    hide Digest, Follows, Digested, Sound, IsCommitted, Told;
    i :| 0 <= i < |s.ledger.commits| && Digest(s.head.booted.value.bytes) == Digest(s.ledger.commits[i].bytes);
  }

  /** With one upload at a time, the image is one accepted upload, whole, or a collision. */
  lemma SerialBootIsOneUpload(events: seq<Event>)
    requires AllPossible(START_SYSTEM, events) && Proper(Uploads(events)) && Serial(Uploads(events))
    requires var s := RunOf(START_SYSTEM, events);
             s.head.booted.Some? && s.head.booted.value.checked
    ensures WholeUpload(Uploads(events), RunOf(START_SYSTEM, events).head.booted.value.bytes)
  {
    BootedWasUploaded(events);
    hide *;
    var s := RunOf(START_SYSTEM, events);
    TracedIsWhole(Uploads(events), s.ledger.commits, s.head.booted.value.bytes);
  }

  /** The bytes of an upload that opened with a well-formed label or none, or a collision. */
  predicate WholeUpload(h: seq<Piece>, bytes: seq<u8>) {
    exists k :: 0 <= k < |h| && h[k].index == 0 && (h[k].pending.present ==> h[k].pending.valid)
      && (bytes == Whole(h, h[k].upload) || Collision(bytes, Whole(h, h[k].upload)))
  }

  lemma TracedIsWhole(h: seq<Piece>, commits: seq<Commit>, bytes: seq<u8>)
    requires Serial(h) && Traced(h, commits, bytes)
    ensures WholeUpload(h, bytes)
  {
    hide Digest, Undisturbed, IsOneUpload, Whole, Serial, Data;
    var i :| 0 <= i < |commits| && CopyOf(bytes, commits[i]) && Accounted(h, commits[i]);
    assert h[commits[i].first].index == 0;
  }
}
