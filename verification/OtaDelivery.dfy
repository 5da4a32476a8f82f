/** That updates get through: an upload nobody disturbs is committed whole, and an image fetched
  * in time, intact and with the right digest is made bootable.
  */
module OtaDelivery {
  import opened OtaHex
  import opened OtaLedger
  import opened OtaManifest
  import opened OtaPull
  import opened OtaStaging
  import opened Sha256
  import opened Words

  // ── Committing ────────────────────────────────────────────────────────────

  /** The pieces of one upload, from index 0 to the last, delivered without a failure of digest or
    * memory and with no label or a well-formed one. */
  predicate Clean(pieces: seq<Piece>, hasBuffer: bool) {
    && pieces != []
    && pieces[0].index == 0 && (pieces[0].pending.present ==> pieces[0].pending.valid)
    && pieces[0].startOk && (hasBuffer || pieces[0].heap.Some?)
    && (forall i :: 0 < i < |pieces| ==> pieces[i].index != 0)
    && (forall i :: 0 <= i < |pieces| ==> pieces[i].updateOk && (pieces[i].last <==> i == |pieces| - 1))
    && pieces[|pieces| - 1].finishOk
  }

  /** Half-way through: open, hashed, and everything so far gathered. */
  predicate Gathering(l: Ledger, bytes: seq<u8>, pending: Label, commits: seq<Commit>) {
    l.open && l.hashed && l.bytes == bytes && l.pending == pending && l.commits == commits
  }

  lemma FirstPiece(l: Ledger, p: Piece)
    requires p.index == 0 && (p.pending.present ==> p.pending.valid) && p.startOk && (l.hasBuffer || p.heap.Some?)
    ensures var o := Opens(Heard(l, p), p);
            Gathering(o, [], p.pending, l.commits) && o.history == l.history + [p] && o.start == |l.history|
  {
  }

  lemma GatherMore(l: Ledger, p: Piece, bytes: seq<u8>, pending: Label, commits: seq<Commit>)
    requires Gathering(l, bytes, pending, commits) && p.updateOk && |bytes| + |p.data| <= MAX_IMAGE
    ensures var o := Grows(l, p);
            Gathering(o, bytes + p.data, pending, commits) && o.history == l.history && o.start == l.start
  {
    assert p.data == [] ==> bytes + p.data == bytes;
  }

  /** All bytes of some pieces, front first. */
  function Bytes(pieces: seq<Piece>): seq<u8> {
    if pieces == [] then [] else pieces[0].data + Bytes(pieces[1..])
  }

  predicate Rest(pieces: seq<Piece>) {
    && pieces != []
    && (forall i :: 0 <= i < |pieces| ==>
          pieces[i].index != 0 && pieces[i].updateOk && (pieces[i].last <==> i == |pieces| - 1))
    && pieces[|pieces| - 1].finishOk
  }

  lemma LastPiece(l: Ledger, p: Piece, bytes: seq<u8>, pending: Label, commits: seq<Commit>)
    requires Gathering(l, bytes, pending, commits) && l.history != [] && p.last && p.finishOk
    ensures var v := if pending.present then pending.value else LastVersion(commits);
            Completes(l, p).commits == commits + [Commit(bytes, v, Hex(Digest(bytes)), l.start, |l.history| - 1)]
  {
    hide Hex, Digest;
  }

  lemma MiddlePiece(l: Ledger, p: Piece, bytes: seq<u8>, pending: Label, commits: seq<Commit>)
    requires Gathering(l, bytes, pending, commits) && p.index != 0 && p.updateOk && |bytes| + |p.data| <= MAX_IMAGE
    ensures var g := Grows(Opens(Heard(l, p), p), p);
            Gathering(g, bytes + p.data, pending, commits) && g.history == l.history + [p] && g.start == l.start
  {
    assert Opens(Heard(l, p), p) == Heard(l, p);
    GatherMore(Heard(l, p), p, bytes, pending, commits);
  }

  /** A piece opened and stored, before it may complete. */
  function Grown(l: Ledger, p: Piece): (g: Ledger)
    ensures g.history == l.history + [p]
  {
    Grows(Opens(Heard(l, p), p), p)
  }

  function CommitOf(bytes: seq<u8>, pending: Label, commits: seq<Commit>, first: nat, end: nat): Commit {
    Commit(bytes, if pending.present then pending.value else LastVersion(commits), Hex(Digest(bytes)), first, end)
  }

  lemma RunFirst(l: Ledger, p: Piece, rest: seq<Piece>)
    ensures RunLedger(l, [p] + rest) == RunLedger(Completes(Grown(l, p), p), rest)
  {
    assert ([p] + rest)[1..] == rest;
    hide Completes, Grown;
    assert Recorded(l, p) == Completes(Grown(l, p), p) by { RecordedIs(l, p); }
  }

  lemma RecordedIs(l: Ledger, p: Piece)
    ensures Recorded(l, p) == Completes(Grown(l, p), p)
  {
  }

  lemma NoMore(l: Ledger, bytes: seq<u8>)
    ensures RunLedger(l, []) == l && bytes + Bytes([]) == bytes
  {
  }

  /** From one piece on, when it and all that follow are gathered. */
  lemma {:induction false} Onward(l: Ledger, p: Piece, rest: seq<Piece>, bytes: seq<u8>, pending: Label,
                                  commits: seq<Commit>)
    requires Gathering(Grown(l, p), bytes, pending, commits) && (p.last <==> rest == [])
    requires if rest == [] then p.finishOk else Rest(rest)
    requires |bytes| + |Bytes(rest)| <= MAX_IMAGE
    ensures RunLedger(l, [p] + rest).commits ==
            commits + [CommitOf(bytes + Bytes(rest), pending, commits, Grown(l, p).start, |l.history| + |rest|)]
    decreases |rest|
  {
    var g := Grown(l, p);
    RunFirst(l, p, rest);
    hide Grown, Hex, Digest, Recorded;
    if rest == [] {
      LastPiece(g, p, bytes, pending, commits);
      NoMore(Completes(g, p), bytes);
    } else {
      var q := rest[0];
      assert Completes(g, p) == g && rest == [q] + rest[1..];
      BytesFirst(rest);
      MiddleGrown(g, q, bytes, pending, commits);
      RestShrinks(rest);
      hide Gathering, Rest, Completes, Bytes;
      Onward(g, q, rest[1..], bytes + q.data, pending, commits);
      assert bytes + q.data + Bytes(rest[1..]) == bytes + (q.data + Bytes(rest[1..]));
    }
  }

  lemma BytesFirst(pieces: seq<Piece>)
    requires pieces != []
    ensures Bytes(pieces) == pieces[0].data + Bytes(pieces[1..])
  {
  }

  lemma RestShrinks(rest: seq<Piece>)
    requires Rest(rest)
    ensures (rest[0].last <==> rest[1..] == []) && (if rest[1..] == [] then rest[0].finishOk else Rest(rest[1..]))
  {
  }

  lemma MiddleGrown(l: Ledger, p: Piece, bytes: seq<u8>, pending: Label, commits: seq<Commit>)
    requires Gathering(l, bytes, pending, commits) && p.index != 0 && p.updateOk && |bytes| + |p.data| <= MAX_IMAGE
    ensures Gathering(Grown(l, p), bytes + p.data, pending, commits) && Grown(l, p).start == l.start
  {
    MiddlePiece(l, p, bytes, pending, commits);
  }

  lemma FirstGrown(l: Ledger, p: Piece)
    requires p.index == 0 && (p.pending.present ==> p.pending.valid) && p.startOk && (l.hasBuffer || p.heap.Some?)
    requires p.updateOk && |p.data| <= MAX_IMAGE
    ensures Gathering(Grown(l, p), p.data, p.pending, l.commits) && Grown(l, p).start == |l.history|
  {
    FirstPiece(l, p);
    var o := Opens(Heard(l, p), p);
    hide Opens, Heard;
    GatherMore(o, p, [], p.pending, l.commits);
    assert [] + p.data == p.data;
  }

  lemma CleanParts(pieces: seq<Piece>, hasBuffer: bool)
    requires Clean(pieces, hasBuffer)
    ensures var p, rest := pieces[0], pieces[1..];
            && pieces == [p] + rest && p.index == 0 && (p.pending.present ==> p.pending.valid)
            && p.startOk && p.updateOk && (hasBuffer || p.heap.Some?)
            && (p.last <==> rest == []) && (if rest == [] then p.finishOk else Rest(rest))
  {
  }

  lemma CleanFrom(l: Ledger, p: Piece, rest: seq<Piece>)
    requires p.index == 0 && (p.pending.present ==> p.pending.valid) && p.startOk && p.updateOk
    requires (l.hasBuffer || p.heap.Some?) && (p.last <==> rest == [])
    requires (if rest == [] then p.finishOk else Rest(rest)) && |p.data| + |Bytes(rest)| <= MAX_IMAGE
    ensures RunLedger(l, [p] + rest).commits ==
            l.commits + [CommitOf(p.data + Bytes(rest), p.pending, l.commits, |l.history|, |l.history| + |rest|)]
  {
    hide Rest, Gathering, Bytes, Grown, RunLedger, CommitOf;
    FirstGrown(l, p);
    Onward(l, p, rest, p.data, p.pending, l.commits);
  }

  lemma CommitIs(bytes: seq<u8>, p: Label, commits: seq<Commit>, first: nat, end: nat)
    ensures CommitOf(bytes, p, commits, first, end) ==
            Commit(bytes, if p.present then p.value else LastVersion(commits), Hex(Digest(bytes)), first, end)
  {
  }

  /** A clean upload of at most the buffer's size is committed, whole, under its label or the one
    * before, and with its digest; from whatever state, an upload left half-way included. */
  lemma CleanUploadCommits(l: Ledger, pieces: seq<Piece>)
    requires Clean(pieces, l.hasBuffer) && |Bytes(pieces)| <= MAX_IMAGE
    ensures var p := pieces[0].pending;
            RunLedger(l, pieces).commits ==
            l.commits + [Commit(Bytes(pieces), if p.present then p.value else LastVersion(l.commits),
                                Hex(Digest(Bytes(pieces))), |l.history|, |l.history| + |pieces| - 1)]
  {
    hide *;
    CleanParts(pieces, l.hasBuffer);
    BytesFirst(pieces);
    var p, rest := pieces[0], pieces[1..];
    CleanFrom(l, p, rest);
    CommitIs(Bytes(pieces), p.pending, l.commits, |l.history|, |l.history| + |rest|);
  }

  // ── What the uploader is told ─────────────────────────────────────────────

  /** Had the upload begun last a malformed label? */
  predicate LastBegunRejected(h: seq<Piece>) {
    h != [] &&
    var p := h[|h| - 1];
    if p.index == 0 then p.pending.present && !p.pending.valid else LastBegunRejected(h[..|h| - 1])
  }

  /** The rejection on record is that of the upload begun last. */
  predicate Records(t: Task, l: Ledger) {
    Follows(t, l) && Digested(l.commits) && (t.stage.rejected <==> LastBegunRejected(l.history))
  }

  lemma OpeningRejects(t: Task, p: Piece)
    ensures Opening(t, p).stage.rejected ==
            if p.index == 0 then p.pending.present && !p.pending.valid else t.stage.rejected
  {
  }

  lemma OpeningIsSized(t: Task, p: Piece)
    requires Fits(t, p)
    ensures Sized(Opening(t, p).stage)
  {
  }

  /** A piece opened and stored, before it may close. */
  function Stored(t: Task, p: Piece): Task
    requires Fits(t, p)
  {
    OpeningIsSized(t, p);
    Chunked(Opening(t, p), p)
  }

  lemma UploadedIs(t: Task, p: Piece)
    requires Fits(t, p)
    ensures Uploaded(t, p) == Closing(Stored(t, p), p)
  {
    hide Opening, Chunked, Closing;
  }

  lemma ChunkKeepsRejection(t: Task, p: Piece)
    requires Sized(t.stage)
    ensures Chunked(t, p).stage.rejected == t.stage.rejected
  {
    hide Overwritten;
  }

  lemma ClosingOutcome(t: Task, p: Piece)
    ensures Closing(t, p).stage.rejected == t.stage.rejected
    ensures p.last ==> (Closing(t, p).stage.uploadOk <==> t.stage.uploading)
  {
    hide Hex, Digest;
  }

  lemma PieceOutcome(t: Task, p: Piece)
    requires Fits(t, p)
    ensures Uploaded(t, p).stage.rejected == Opening(t, p).stage.rejected
    ensures p.last ==> (Uploaded(t, p).stage.uploadOk <==> Stored(t, p).stage.uploading)
  {
    UploadedIs(t, p);
    OpeningIsSized(t, p);
    ChunkKeepsRejection(Opening(t, p), p);
    ClosingOutcome(Stored(t, p), p);
    hide Uploaded, Opening, Chunked, Closing;
  }

  lemma CommitsWhenOpen(t: Task, l: Ledger, p: Piece)
    requires Follows(t, l) && Fits(t, p) && p.last
    ensures Recorded(l, p).commits == l.commits <==> !Stored(t, p).stage.uploading
  {
    var l0 := Heard(l, p);
    OpeningFollows(t, l0, p);
    OpeningKeeps(l0, p);
    OpeningIsSized(t, p);
    var t1, l1 := Opening(t, p), Opens(l0, p);
    hide Opening, Opens;
    ChunkFollows(t1, l1, p);
    hide Chunked, Hex, Digest, Holds;
  }

  lemma RecordedIsHeard(l: Ledger, p: Piece)
    ensures Recorded(l, p).history == l.history + [p]
  {
    hide Hex, Digest;
  }

  lemma PieceRecords(t: Task, l: Ledger, p: Piece)
    requires Records(t, l) && Fits(t, p)
    ensures Records(Uploaded(t, p), Recorded(l, p))
  {
    PieceFollows(t, l, p);
    OpeningRejects(t, p);
    hide Uploaded, Opening, Follows, Digested, Recorded, Chunked, Fits;
    PieceOutcome(t, p);
    RecordedIsHeard(l, p);
    assert (l.history + [p])[..|l.history|] == l.history;
  }

  lemma {:induction false} RunRecords(t: Task, l: Ledger, pieces: seq<Piece>)
    requires Records(t, l) && AllFit(pieces)
    ensures Records(RunTask(t, pieces), RunLedger(l, pieces))
    decreases |pieces|
  {
    if pieces != [] {
      PieceRecords(t, l, pieces[0]);
      StaysSized(t, pieces[0]);
      assert AllFit(pieces[1..]);
      hide Records, Uploaded, Recorded;
      RunRecords(Uploaded(t, pieces[0]), Recorded(l, pieces[0]), pieces[1..]);
    }
  }

  /** After any pieces from any uploads: a request answered right after its last piece is told its
    * image is staged exactly when that piece committed and the upload begun last was not one with a
    * malformed label; it is then told the commit's length and version. */
  lemma AnswerIs(pieces: seq<Piece>, p: Piece)
    requires AllFit(pieces) && Fits(RunTask(FRESH, pieces), p) && p.last
    ensures var t, l := RunTask(FRESH, pieces), RunLedger(EMPTY, pieces);
            var m := Recorded(l, p);
            AnswerOf(Uploaded(t, p).stage) ==
            if LastBegunRejected(m.history) then BadVersion
            else if m.commits == l.commits then UploadFailed
            else StagedAs(|LastBytes(m.commits)|, LastVersion(m.commits))
  {
    FreshFollows();
    RunRecords(FRESH, EMPTY, pieces);
    var t, l := RunTask(FRESH, pieces), RunLedger(EMPTY, pieces);
    PieceRecords(t, l, p);
    PieceOutcome(t, p);
    CommitsWhenOpen(t, l, p);
    hide RunTask, RunLedger, Uploaded, Recorded, Chunked, Opening, LastBegunRejected, InFlight, Digested, Holds;
  }

  // ── Fetching ──────────────────────────────────────────────────────────────

  /** Every way into each state of the updater, and every abort out. */
  lemma TableIs(s: State, e: Signal)
    ensures Next(s, e) == Fetch <==> (s == Idle && e == Start) || (s == Fetch && e != StreamEnd && e != Abort)
    ensures Next(s, e) == Verify <==>
              (s == Fetch && e == StreamEnd) || (s == Verify && e != VerifyOk && e != VerifyFail && e != Abort)
    ensures Next(s, e) == Committing <==>
              (s == Verify && e == VerifyOk) || (s == Committing && e != CommitOk && e != CommitFail && e != Abort)
    ensures Next(s, Abort) == Idle
  {
  }

  /** All bytes of some reads. */
  function Body(chunks: seq<Read>): seq<u8> {
    if chunks == [] then [] else chunks[0].bytes + Body(chunks[1..])
  }

  /** Reads the flash takes, not more than is still to come. */
  predicate Takes(chunks: seq<Read>, rest: seq<u8>) {
    AllReads(chunks) && Body(chunks) <= rest && forall i :: 0 <= i < |chunks| ==> chunks[i].taken
  }

  /** The fetch after all of them. */
  function Fetched(p: Pull, got: seq<u8>, now: u32): Pull {
    if got == [] then p
    else p.(slot := p.slot + got, fed := p.fed + got, received := p.received + |got|, lastRx := now)
  }

  lemma {:induction false} PumpTakesAll(p: Pull, chunks: seq<Read>, rest: seq<u8>, now: u32)
    requires p.state == Fetch && Takes(chunks, rest) && p.received + |rest| == p.total
    requires p.received == 0 && rest != [] ==> rest[0] == 0xE9
    ensures Pumped(p, chunks, now) == Fetched(p, Body(chunks), now)
    decreases |chunks|
  {
    if chunks != [] {
      var r := chunks[0];
      var got := r.bytes;
      assert got <= Body(chunks) <= rest && got != [];
      assert rest[..|got|] == got && r.bytes[0] == rest[0];
      var q := Absorbed(p, r, now);
      assert Body(chunks[1..]) <= rest[|got|..];
      PumpTakesAll(q, chunks[1..], rest[|got|..], now);
      Regrouped(p, got, Body(chunks[1..]));
    }
  }

  lemma Regrouped(p: Pull, a: seq<u8>, b: seq<u8>)
    ensures p.slot + a + b == p.slot + (a + b) && p.fed + a + b == p.fed + (a + b)
  {
  }

  /** What the end of a complete fetch comes to: the image is made bootable exactly when its digest
    * matches, if one is set, and the flash accepts the end. */
  lemma ConcludedIs(p: Pull, endOk: bool)
    requires p.state == Fetch
    ensures var q := Concluded(p, endOk);
            var good := endOk && (p.manifestSet ==> Matches(Hex(Digest(p.fed)), p.manifest));
            && q.state == Idle
            && q.booted == if good then Some(Image(p.slot, p.manifestSet)) else p.booted
  {
    hide Hex, Digest, Matches;
  }

  /** One poll of an undisturbed fetch: it goes on while something is missing, the peer is there or
    * has more, and less than 15 s passed since the last bytes; it ends with the last bytes. */
  lemma PollIs(p: Pull, e: Poll, rest: seq<u8>)
    requires p.state == Fetch && p.total > 0 && p.received + |rest| == p.total && Takes(e.chunks, rest)
    requires p.received == 0 && rest != [] ==> rest[0] == 0xE9
    ensures var q := Fetched(p, Body(e.chunks), e.now);
            && (Body(e.chunks) == rest ==> Polled(p, e) == Concluded(q, e.endOk))
            && (Body(e.chunks) != rest ==>
                  Polled(p, e) ==
                  if (e.available || e.connected) && (e.now as int - q.lastRx as int) % 0x1_0000_0000 < 15000 then q
                  else q.(state := Idle, slot := []))
  {
    PumpTakesAll(p, e.chunks, rest, e.now);
    hide Pumped, Concluded;
    var got := Body(e.chunks);
    assert |got| <= |rest| && (|got| == |rest| <==> got == rest) by { assert got <= rest; }
  }

  /** A read with the wrong first byte, or one the flash refuses, ends the fetch, whatever follows
    * it; nothing of the slot is kept and the boot image stays. */
  lemma BadReadEnds(p: Pull, e: Poll, k: nat, rest: seq<u8>)
    requires p.state == Fetch && AllReads(e.chunks) && k < |e.chunks|
    requires Takes(e.chunks[..k], rest) && p.received + |rest| == p.total && Body(e.chunks[..k]) != rest
    requires p.received == 0 && k > 0 ==> rest[0] == 0xE9
    requires (p.received == 0 && k == 0 && e.chunks[0].bytes[0] != 0xE9) || !e.chunks[k].taken
    ensures Polled(p, e) == Fetched(p, Body(e.chunks[..k]), e.now).(state := Idle, slot := [])
  {
    PumpUpToBad(p, e.chunks, k, rest, e.now);
    hide Pumped, Body, Takes;
  }

  lemma {:induction false} PumpUpToBad(p: Pull, chunks: seq<Read>, k: nat, rest: seq<u8>, now: u32)
    requires p.state == Fetch && AllReads(chunks) && k < |chunks|
    requires Takes(chunks[..k], rest) && p.received + |rest| == p.total && Body(chunks[..k]) != rest
    requires p.received == 0 && k > 0 ==> rest[0] == 0xE9
    requires (p.received == 0 && k == 0 && chunks[0].bytes[0] != 0xE9) || !chunks[k].taken
    ensures Pumped(p, chunks, now) == Fetched(p, Body(chunks[..k]), now).(state := Idle, slot := [])
    decreases k
  {
    if k > 0 {
      var r := chunks[0];
      var got := r.bytes;
      var front := chunks[..k];
      assert front[0] == r && front[1..] == chunks[1..][..k - 1];
      assert got <= Body(front) <= rest && got != [];
      assert rest[..|got|] == got && r.bytes[0] == rest[0];
      var q := Absorbed(p, r, now);
      assert Body(front[1..]) <= rest[|got|..];
      PumpUpToBad(q, chunks[1..], k - 1, rest[|got|..], now);
      Regrouped(p, got, Body(front[1..]));
    }
  }

  function PollAll(p: Pull, es: seq<Poll>): Pull
    requires forall i :: 0 <= i < |es| ==> AllReads(es[i].chunks)
    decreases |es|
  {
    if es == [] then p else PollAll(Polled(p, es[0]), es[1..])
  }

  /** Polls that bring the rest of an image in time and intact, the last one its end. */
  predicate Steady(lastRx: u32, es: seq<Poll>, rest: seq<u8>)
    decreases |es|
  {
    && es != [] && Takes(es[0].chunks, rest)
    && var got := Body(es[0].chunks);
       var rx := if got == [] then lastRx else es[0].now;
       if got == rest then |es| == 1 && es[0].endOk
       else
         && (es[0].available || es[0].connected) && (es[0].now as int - rx as int) % 0x1_0000_0000 < 15000
         && Steady(rx, es[1..], rest[|got|..])
  }

  lemma {:induction false} SteadyReads(lastRx: u32, es: seq<Poll>, rest: seq<u8>)
    requires Steady(lastRx, es, rest)
    ensures forall i :: 0 <= i < |es| ==> AllReads(es[i].chunks)
    decreases |es|
  {
    var got := Body(es[0].chunks);
    if got != rest {
      SteadyReads(if got == [] then lastRx else es[0].now, es[1..], rest[|got|..]);
      assert forall i :: 0 < i < |es| ==> es[i] == es[1..][i - 1];
    }
  }

  /** A fetch with `rest` still to come, of an image with the magic and with the digest set, if
    * one is. */
  predicate Midway(p: Pull, rest: seq<u8>) {
    && p.state == Fetch && rest != [] && p.received + |rest| == p.total && p.fed == p.slot
    && p.received == |p.slot| && (p.slot + rest)[0] == 0xE9
    && (p.manifestSet ==> Matches(Hex(Digest(p.slot + rest)), p.manifest))
  }

  lemma MidwayPoll(p: Pull, e: Poll, rest: seq<u8>)
    requires Midway(p, rest) && Takes(e.chunks, rest) && Body(e.chunks) != rest
    requires e.available || e.connected
    requires (e.now as int - Fetched(p, Body(e.chunks), e.now).lastRx as int) % 0x1_0000_0000 < 15000
    ensures var q := Polled(p, e);
            var left := (GotIsFront(e.chunks, rest); rest[|Body(e.chunks)|..]);
            && q == Fetched(p, Body(e.chunks), e.now)
            && Midway(q, left) && q.slot + left == p.slot + rest && q.manifestSet == p.manifestSet
  {
    assert p.received == 0 ==> p.slot + rest == rest;
    hide Polled, Hex, Digest, Matches, Takes, Body;
    PollIs(p, e, rest);
    GotIsFront(e.chunks, rest);
    var left := rest[|Body(e.chunks)|..];
    assert p.slot + Body(e.chunks) + left == p.slot + rest;
    assert rest == Body(e.chunks) + left;
  }

  lemma LastPoll(p: Pull, e: Poll, rest: seq<u8>)
    requires Midway(p, rest) && Takes(e.chunks, rest) && Body(e.chunks) == rest && e.endOk
    ensures Polled(p, e).state == Idle && Polled(p, e).booted == Some(Image(p.slot + rest, p.manifestSet))
  {
    assert p.received == 0 ==> p.slot + rest == rest;
    PollIs(p, e, rest);
    hide Polled, Concluded, Hex, Digest, Matches, Takes, Body;
    ConcludedIs(Fetched(p, rest, e.now), e.endOk);
  }

  /** An image fetched steadily becomes bootable, byte for byte. */
  lemma {:induction false} SteadyFetchBoots(p: Pull, es: seq<Poll>, rest: seq<u8>)
    requires Midway(p, rest) && Steady(p.lastRx, es, rest)
    ensures (SteadyReads(p.lastRx, es, rest); PollAll(p, es).state == Idle)
    ensures (SteadyReads(p.lastRx, es, rest); PollAll(p, es).booted == Some(Image(p.slot + rest, p.manifestSet)))
    decreases |es|
  {
    SteadyReads(p.lastRx, es, rest);
    hide Midway, PollAll, Polled, Takes, Body;
    var e := es[0];
    GotIsFront(e.chunks, rest);
    var left := rest[|Body(e.chunks)|..];
    if Body(e.chunks) == rest {
      LastPoll(p, e, rest);
      OnePoll(p, es);
    } else {
      MidwayPoll(p, e, rest);
      MorePolls(p, es);
      SteadyFetchBoots(Polled(p, e), es[1..], left);
    }
  }

  lemma OnePoll(p: Pull, es: seq<Poll>)
    requires |es| == 1 && AllReads(es[0].chunks)
    ensures PollAll(p, es) == Polled(p, es[0])
  {
    hide Polled;
  }

  lemma MorePolls(p: Pull, es: seq<Poll>)
    requires es != [] && forall i :: 0 <= i < |es| ==> AllReads(es[i].chunks)
    ensures PollAll(p, es) == PollAll(Polled(p, es[0]), es[1..])
  {
    hide Polled;
  }

  lemma GotIsFront(chunks: seq<Read>, rest: seq<u8>)
    requires Takes(chunks, rest)
    ensures Body(chunks) <= rest
  {
  }

  /** Of several lengths the last one counts. */
  lemma {:induction false} LengthInIs(hs: seq<Header>)
    ensures (forall i :: 0 <= i < |hs| ==> !hs[i].ContentLength?) ==> LengthIn(hs) == 0
    ensures forall j :: 0 <= j < |hs| && hs[j].ContentLength? ==>
              (forall i :: j < i < |hs| ==> !hs[i].ContentLength?) ==> LengthIn(hs) == hs[j].length
    decreases |hs|
  {
    if hs != [] {
      LengthInIs(hs[..|hs| - 1]);
    }
  }

  /** A digest header with 64 hexadecimal digits. */
  predicate Names(h: Header) {
    h.FirmwareSha? && IsHex64(h.value)
  }

  /** Of several digests the last well-formed one counts; malformed ones are passed over. */
  lemma {:induction false} ShaInIs(hs: seq<Header>, j: nat)
    requires j <= |hs| && forall i :: j <= i < |hs| ==> !Names(hs[i])
    ensures j == 0 ==> ShaIn(hs) == None
    ensures j > 0 && Names(hs[j - 1]) ==> ShaIn(hs) == Some(hs[j - 1].value)
    decreases |hs|
  {
    hide IsHex64;
    if j < |hs| {
      var p := hs[..|hs| - 1];
      assert forall i :: 0 <= i < |p| ==> p[i] == hs[i];
      ShaInIs(p, j);
    }
  }

  /** A fetch starts exactly from idle, with a request that opens, connects and succeeds, a length
    * that fits the slot and a slot that opens; with the last well-formed digest it was sent. */
  lemma LaunchIs(p: Pull, r: Response, now: u32)
    requires p.state == Idle
    ensures var q := Launched(p, r, now);
            var n := LengthIn(r.headers);
            && (q.state == Fetch <==> r.urlOk && r.connects && r.statusOk && 0 < n <= 0x1F_0000 && r.begins)
            && (q.state != Fetch ==> q.state == Idle)
            && (q.state == Fetch ==>
                  q == Pull(Fetch, n, 0, ShaIn(r.headers).Some?,
                            if ShaIn(r.headers).Some? then ShaIn(r.headers).value else "", [], [], now, p.booted))
  {
    hide ShaIn, LengthIn;
  }

  /** From idle to bootable: the right answer, then the image, steadily. */
  lemma DownloadBoots(p: Pull, r: Response, now: u32, es: seq<Poll>, image: seq<u8>)
    requires p.state == Idle && r.urlOk && r.connects && r.statusOk && r.begins
    requires LengthIn(r.headers) == |image| && 0 < |image| <= 0x1F_0000 && image[0] == 0xE9
    requires ShaIn(r.headers).Some? ==> Matches(Hex(Digest(image)), ShaIn(r.headers).value)
    requires Steady(now, es, image)
    ensures (SteadyReads(now, es, image);
             PollAll(Launched(p, r, now), es).booted == Some(Image(image, ShaIn(r.headers).Some?)))
  {
    LaunchIs(p, r, now);
    assert [] + image == image;
    hide Launched, ShaIn, LengthIn, Hex, Digest, Matches, Steady;
    SteadyFetchBoots(Launched(p, r, now), es, image);
  }
}
