/** The staging state against a plain list of commits, and when a commit is one upload. */
module OtaLedger {
  import opened OtaHex
  import opened OtaManifest
  import opened OtaStaging
  import opened Sha256
  import opened Words

  /** What a last piece committed, and where in the history it was opened and closed. */
  datatype Commit = Commit(bytes: seq<u8>, version: u32, sha: string, first: nat, end: nat)

  /** What has been uploaded, told without any buffer: every piece ever handled, the commits,
    * and the bytes gathered since piece `start` opened. `hashed` says the digest is still
    * alive, `touched` that a piece has been stored since the last commit. */
  datatype Ledger = Ledger(history: seq<Piece>, commits: seq<Commit>, open: bool, start: nat, bytes: seq<u8>,
                           pending: Label, hashed: bool, hasBuffer: bool, touched: bool)

  const EMPTY := Ledger([], [], false, 0, [], Label(false, false, 0), false, false, false)

  function LastVersion(commits: seq<Commit>): u32 {
    if commits == [] then 0 else commits[|commits| - 1].version
  }

  function LastBytes(commits: seq<Commit>): seq<u8> {
    if commits == [] then [] else commits[|commits| - 1].bytes
  }

  function LastSha(commits: seq<Commit>): string {
    if commits == [] then "" else commits[|commits| - 1].sha
  }

  function Heard(l: Ledger, p: Piece): Ledger {
    l.(history := l.history + [p])
  }

  /** A first piece opens, unless its label is malformed or there is no memory. */
  function Opens(l: Ledger, p: Piece): Ledger
    requires l.history != []
  {
    if p.index != 0 then l
    else if p.pending.present && !p.pending.valid then l.(open := false)
    else if !l.hasBuffer && p.heap.None? then l.(open := false)
    else Ledger(l.history, l.commits, true, |l.history| - 1, [], p.pending, p.startOk, true, l.touched)
  }

  /** A piece that would not fit closes without a commit. */
  function Grows(l: Ledger, p: Piece): Ledger {
    if !l.open || p.data == [] then l
    else if |l.bytes| + |p.data| > MAX_IMAGE then l.(open := false)
    else l.(bytes := l.bytes + p.data, hashed := l.hashed && p.updateOk, touched := true)
  }

  /** A last piece commits what is open: the opener's label if it has one, and the digest of
    * exactly the bytes if the digest survived. */
  function Completes(l: Ledger, p: Piece): Ledger
    requires l.history != []
  {
    if !p.last || !l.open then l
    else
      var c := Commit(l.bytes,
                      if l.pending.present then l.pending.value else LastVersion(l.commits),
                      if l.hashed && p.finishOk then Hex(Digest(l.bytes)) else "",
                      l.start, |l.history| - 1);
      l.(commits := l.commits + [c], open := false, touched := false)
  }

  function Recorded(l: Ledger, p: Piece): Ledger {
    Completes(Grows(Opens(Heard(l, p), p), p), p)
  }

  // ── The relation ──────────────────────────────────────────────────────────

  predicate Holds(image: Option<seq<u8>>, bytes: seq<u8>) {
    image.Some? && |bytes| <= |image.value| && image.value[..|bytes|] == bytes
  }

  /** Length, version and digest are those of the last commit. */
  predicate ReportsLast(s: Stage, l: Ledger) {
    && s.imgLen == |LastBytes(l.commits)|
    && s.version == LastVersion(l.commits)
    && s.shaHex == LastSha(l.commits)
  }

  /** The upload in flight is in the buffer, and a live digest has been fed exactly it. */
  predicate InFlight(t: Task, l: Ledger) {
    && t.stage.uploading == l.open
    && (l.open ==>
          && t.stage.uploadLen == |l.bytes|
          && Holds(t.stage.image, l.bytes) && t.stage.image.Some?
          && t.stage.pending == l.pending
          && (l.pending.present ==> l.pending.valid)
          && t.stage.shaValid == l.hashed
          && (l.hashed ==> t.sha == Some(l.bytes))
          && (!l.hashed ==> t.sha == None))
  }

  predicate Follows(t: Task, l: Ledger) {
    && Sized(t.stage)
    && t.stage.image.Some? == l.hasBuffer
    && ReportsLast(t.stage, l)
    && InFlight(t, l)
    && (l.commits != [] && !l.touched ==> t.stage.image.Some? && Holds(t.stage.image, LastBytes(l.commits)))
  }

  predicate Digested(commits: seq<Commit>) {
    forall i :: 0 <= i < |commits| ==> commits[i].sha == "" || commits[i].sha == Hex(Digest(commits[i].bytes))
  }

  lemma OpeningFollows(t: Task, l: Ledger, p: Piece)
    requires Follows(t, l) && Fits(t, p) && l.history != []
    ensures Follows(Opening(t, p), Opens(l, p))
  {
    assert forall image: seq<u8> :: Holds(Some(image), []);
    hide LastVersion, LastSha, LastBytes, Holds;
    if p.index == 0 {
      if p.pending.present && !p.pending.valid {
        assert Opening(t, p) == t.(stage := Begun(t.stage, p.pending));
      } else if t.stage.image.None? && p.heap.None? {
        assert Opening(t, p).stage == Armed(Begun(t.stage, p.pending), None, false);
      } else {
        assert Opening(t, p).stage == Armed(Begun(t.stage, p.pending), p.heap, p.startOk);
        assert l.commits != [] && !l.touched ==> t.stage.image.Some?;
      }
    }
  }

  lemma OverwriteHolds(image: seq<u8>, bytes: seq<u8>, data: seq<u8>)
    requires |bytes| + |data| <= |image| && image[..|bytes|] == bytes
    ensures Holds(Some(Overwritten(image, |bytes|, data)), bytes + data)
  {
  }

  lemma ChunkFollows(t: Task, l: Ledger, p: Piece)
    requires Follows(t, l)
    ensures Follows(Chunked(t, p), Grows(l, p))
  {
    if l.open && p.data != [] && |l.bytes| + |p.data| <= MAX_IMAGE {
      OverwriteHolds(t.stage.image.value, l.bytes, p.data);
      hide Overwritten, Holds;
    }
  }

  lemma ClosingFollows(t: Task, l: Ledger, p: Piece)
    requires Follows(t, l) && Digested(l.commits) && l.history != []
    ensures Follows(Closing(t, p), Completes(l, p))
    ensures Digested(Completes(l, p).commits)
  {
    hide Hex, Digest;
  }

  lemma PieceFollows(t: Task, l: Ledger, p: Piece)
    requires Follows(t, l) && Fits(t, p) && Digested(l.commits)
    ensures Follows(Uploaded(t, p), Recorded(l, p)) && Digested(Recorded(l, p).commits)
  {
    var l0 := Heard(l, p);
    OpeningFollows(t, l0, p);
    var t1, l1 := Opening(t, p), Opens(l0, p);
    OpeningKeeps(l0, p);
    hide Opening, Opens;
    ChunkFollows(t1, l1, p);
    var t2, l2 := Chunked(t1, p), Grows(l1, p);
    assert l2.commits == l1.commits && l2.history == l1.history;
    hide Chunked, Grows;
    ClosingFollows(t2, l2, p);
  }

  lemma OpeningKeeps(l: Ledger, p: Piece)
    requires l.history != []
    ensures Opens(l, p).commits == l.commits && Opens(l, p).history == l.history
  {
  }

  // ── Runs ──────────────────────────────────────────────────────────────────

  function RunTask(t: Task, pieces: seq<Piece>): Task
    requires Sized(t.stage) && AllFit(pieces)
    decreases |pieces|
  {
    if pieces == [] then t
    else
      StaysSized(t, pieces[0]);
      RunTask(Uploaded(t, pieces[0]), pieces[1..])
  }

  function RunLedger(l: Ledger, pieces: seq<Piece>): Ledger
    decreases |pieces|
  {
    if pieces == [] then l else RunLedger(Recorded(l, pieces[0]), pieces[1..])
  }

  predicate AllFit(pieces: seq<Piece>) {
    forall i :: 0 <= i < |pieces| && pieces[i].heap.Some? ==> |pieces[i].heap.value| == MAX_IMAGE
  }

  lemma StaysSized(t: Task, p: Piece)
    requires Fits(t, p)
    ensures Sized(Uploaded(t, p).stage)
  {
    var u := Opening(t, p);
    assert Sized(u.stage);
    hide Opening;
    var w := Chunked(u, p);
    hide Chunked, Hex, Digest;
  }

  /** Whatever pieces arrive, in whatever order, from whatever uploads: the reported length,
    * version and digest are those of the last commit, the digest is of exactly its bytes, and
    * until another piece is stored the buffer still holds them. Whose bytes those are is
    * another matter, below. */
  lemma {:induction false} StagingFollowsLedger(t: Task, l: Ledger, pieces: seq<Piece>)
    requires Follows(t, l) && Digested(l.commits) && AllFit(pieces)
    ensures Follows(RunTask(t, pieces), RunLedger(l, pieces)) && Digested(RunLedger(l, pieces).commits)
    decreases |pieces|
  {
    if pieces == [] {
    } else {
      PieceFollows(t, l, pieces[0]);
      assert AllFit(pieces[1..]);
      hide Follows, Uploaded, Recorded, Digested;
      StagingFollowsLedger(Uploaded(t, pieces[0]), Recorded(l, pieces[0]), pieces[1..]);
    }
  }

  const FRESH := Task(Stage(None, 0, 0, false, false, 0, Label(false, false, 0), false, "", false), None)

  lemma FreshFollows()
    ensures Follows(FRESH, EMPTY) && Digested(EMPTY.commits)
  {
  }

  // ── Where a commit's bytes come from ──────────────────────────────────────

  function Data(pieces: seq<Piece>): seq<u8> {
    if pieces == [] then [] else Data(pieces[..|pieces| - 1]) + pieces[|pieces| - 1].data
  }

  /** A span of the history that opens with its first piece and no later one. */
  predicate OpenedAt(h: seq<Piece>, first: nat, n: nat) {
    && first < n <= |h|
    && h[first].index == 0 && (h[first].pending.present ==> h[first].pending.valid)
    && (forall i :: first < i < n ==> h[i].index != 0)
  }

  predicate NoLast(h: seq<Piece>, first: nat, n: nat)
    requires n <= |h|
  {
    forall i :: first <= i < n ==> !h[i].last
  }

  /** The label is the opener's; the bytes are the data of every piece of the span, whoever
    * sent it. */
  predicate Told(h: seq<Piece>, c: Commit) {
    && OpenedAt(h, c.first, c.end + 1)
    && NoLast(h, c.first, c.end) && h[c.end].last
    && (h[c.first].pending.present ==> c.version == h[c.first].pending.value)
    && c.bytes == Data(h[c.first..c.end + 1])
  }

  predicate TellsAll(l: Ledger) {
    && (forall k :: 0 <= k < |l.commits| ==> Told(l.history, l.commits[k]))
    && (l.open ==>
          && OpenedAt(l.history, l.start, |l.history|) && NoLast(l.history, l.start, |l.history|)
          && l.pending == l.history[l.start].pending
          && l.bytes == Data(l.history[l.start..]))
  }

  lemma ToldLater(h: seq<Piece>, p: Piece, c: Commit)
    requires Told(h, c)
    ensures Told(h + [p], c)
  {
    assert (h + [p])[c.first..c.end + 1] == h[c.first..c.end + 1];
  }

  lemma DataOfMore(pieces: seq<Piece>, p: Piece)
    ensures Data(pieces + [p]) == Data(pieces) + p.data
  {
    assert (pieces + [p])[..|pieces|] == pieces;
  }

  lemma SpanGrows(h: seq<Piece>, p: Piece, start: nat)
    requires start <= |h|
    ensures (h + [p])[start..|h|] == h[start..]
    ensures Data((h + [p])[start..]) == Data((h + [p])[start..|h|]) + p.data
  {
    assert (h + [p])[start..] == h[start..] + [p];
    DataOfMore(h[start..], p);
  }

  /** Open over everything before the piece just heard. */
  predicate OpenBefore(l: Ledger) {
    l.open ==>
      && l.history != [] && l.start < |l.history|
      && OpenedAt(l.history, l.start, |l.history|) && NoLast(l.history, l.start, |l.history| - 1)
      && l.pending == l.history[l.start].pending
      && l.bytes == Data(l.history[l.start..|l.history| - 1])
  }

  lemma OpenedLater(h: seq<Piece>, p: Piece, start: nat)
    requires OpenedAt(h, start, |h|) && NoLast(h, start, |h|) && p.index != 0
    ensures OpenedAt(h + [p], start, |h| + 1) && NoLast(h + [p], start, |h|)
  {
  }

  lemma OpenedNow(h: seq<Piece>, p: Piece)
    requires p.index == 0 && (p.pending.present ==> p.pending.valid)
    ensures OpenedAt(h + [p], |h|, |h| + 1) && NoLast(h + [p], |h|, |h|)
    ensures Data((h + [p])[|h|..|h|]) == []
  {
  }

  lemma OpensOrNot(l: Ledger, p: Piece)
    ensures var l0 := Opens(Heard(l, p), p);
            && l0.history == l.history + [p]
            && (p.index != 0 ==> l0 == Heard(l, p))
            && (p.index == 0 && l0.open ==>
                  l0.start == |l.history| && l0.bytes == [] && l0.pending == p.pending
                  && (p.pending.present ==> p.pending.valid))
  {
  }

  lemma OpeningTells(l: Ledger, p: Piece)
    requires TellsAll(l)
    ensures OpenBefore(Opens(Heard(l, p), p))
  {
    var l0 := Opens(Heard(l, p), p);
    OpensOrNot(l, p);
    hide Data, OpenedAt, NoLast, Told, Opens;
    assert |l0.history| - 1 == |l.history|;
    if l0.open {
      if p.index == 0 {
        OpenedNow(l.history, p);
      } else {
        SpanGrows(l.history, p, l.start);
        OpenedLater(l.history, p, l.start);
      }
    }
  }

  predicate OpenAfter(l: Ledger) {
    l.open ==>
      && l.history != [] && l.start < |l.history|
      && OpenedAt(l.history, l.start, |l.history|) && NoLast(l.history, l.start, |l.history| - 1)
      && l.pending == l.history[l.start].pending
      && l.bytes == Data(l.history[l.start..])
  }

  lemma GrowingTells(l: Ledger, h: seq<Piece>, p: Piece)
    requires OpenBefore(l) && l.history == h + [p]
    ensures OpenAfter(Grows(l, p))
  {
    if l.open {
      SpanGrows(h, p, l.start);
      assert p.data == [] ==> l.bytes + p.data == l.bytes;
    }
    hide Data, OpenedAt, NoLast;
  }

  lemma CompletingTells(l: Ledger, p: Piece)
    requires OpenAfter(l) && l.history != [] && l.history[|l.history| - 1] == p
    requires forall k :: 0 <= k < |l.commits| ==> Told(l.history, l.commits[k])
    ensures TellsAll(Completes(l, p))
  {
    hide Data, OpenedAt, Hex, Digest;
    if l.open && p.last {
      assert l.history[l.start..] == l.history[l.start..|l.history| - 1 + 1];
      hide NoLast;
      assert Told(l.history, Completes(l, p).commits[|l.commits|]);
    }
  }

  lemma PieceTells(l: Ledger, p: Piece)
    requires TellsAll(l)
    ensures TellsAll(Recorded(l, p)) && Recorded(l, p).history == l.history + [p]
  {
    OpeningTells(l, p);
    var l1 := Opens(Heard(l, p), p);
    OpeningKeeps(Heard(l, p), p);
    GrowingTells(l1, l.history, p);
    var l2 := Grows(l1, p);
    assert l2.history == l1.history && l2.commits == l1.commits;
    forall k | 0 <= k < |l.commits| ensures Told(l.history + [p], l.commits[k]) {
      ToldLater(l.history, p, l.commits[k]);
    }
    CompletingTells(l2, p);
  }

  lemma {:induction false} LedgerTells(l: Ledger, pieces: seq<Piece>)
    requires TellsAll(l)
    ensures TellsAll(RunLedger(l, pieces)) && RunLedger(l, pieces).history == l.history + pieces
    decreases |pieces|
  {
    if pieces == [] {
      assert l.history + [] == l.history;
    } else {
      PieceTells(l, pieces[0]);
      hide TellsAll, Recorded;
      LedgerTells(Recorded(l, pieces[0]), pieces[1..]);
      assert l.history + [pieces[0]] + pieces[1..] == l.history + pieces;
    }
  }

  // ── One upload ────────────────────────────────────────────────────────────

  /** What the web server promises of the pieces of one upload: only its first has index 0, and
    * nothing follows its last. Pieces of different uploads may interleave. */
  predicate Proper(h: seq<Piece>) {
    forall i, k :: 0 <= i < k < |h| && h[i].upload == h[k].upload ==> h[k].index != 0 && !h[i].last
  }

  /** Pieces that leave a mark: with data to store, or closing. */
  predicate Counts(p: Piece) {
    p.data != [] || p.last
  }

  function Marks(pieces: seq<Piece>): seq<Piece> {
    if pieces == [] then []
    else
      var front, last := Marks(pieces[..|pieces| - 1]), pieces[|pieces| - 1];
      if Counts(last) then front + [last] else front
  }

  function Of(pieces: seq<Piece>, id: nat): seq<Piece> {
    if pieces == [] then []
    else
      var front, last := Of(pieces[..|pieces| - 1], id), pieces[|pieces| - 1];
      if last.upload == id then front + [last] else front
  }

  /** All bytes of one upload. */
  function Whole(h: seq<Piece>, id: nat): seq<u8> {
    Data(Of(h, id))
  }

  /** The pieces that made the commit are those of the upload that opened it, from its first to
    * its last, and no others. */
  predicate IsOneUpload(h: seq<Piece>, c: Commit)
    requires c.first <= c.end < |h|
  {
    Marks(h[c.first..c.end + 1]) == Marks(Of(h, h[c.first].upload))
  }

  /** No piece of another upload is stored in the commit or closes it. */
  predicate Undisturbed(h: seq<Piece>, c: Commit)
    requires c.first <= c.end < |h|
  {
    forall i :: c.first <= i <= c.end && Counts(h[i]) ==> h[i].upload == h[c.first].upload
  }

  lemma {:induction false} OfParts(a: seq<Piece>, b: seq<Piece>, id: nat)
    ensures Of(a + b, id) == Of(a, id) + Of(b, id)
    decreases |b|
  {
    if b == [] {
      assert a + b == a;
    } else {
      var front, last := b[..|b| - 1], b[|b| - 1];
      assert (a + b)[..|a + b| - 1] == a + front;
      OfParts(a, front, id);
      assert Of(a, id) + (Of(front, id) + [last]) == Of(a, id) + Of(front, id) + [last];
    }
  }

  lemma {:induction false} OfNone(pieces: seq<Piece>, id: nat)
    requires forall i :: 0 <= i < |pieces| ==> pieces[i].upload != id
    ensures Of(pieces, id) == []
  {
    if pieces != [] {
      OfNone(pieces[..|pieces| - 1], id);
    }
  }

  lemma {:induction false} OfIsOwn(pieces: seq<Piece>, id: nat, p: Piece)
    ensures p in Marks(Of(pieces, id)) ==> p.upload == id
  {
    if pieces != [] {
      var front, last := pieces[..|pieces| - 1], pieces[|pieces| - 1];
      OfIsOwn(front, id, p);
      if last.upload == id {
        MarksOfMore(Of(front, id), last);
      }
    }
  }

  lemma MarksOfMore(pieces: seq<Piece>, p: Piece)
    ensures Marks(pieces + [p]) == if Counts(p) then Marks(pieces) + [p] else Marks(pieces)
  {
    assert (pieces + [p])[..|pieces|] == pieces;
  }

  lemma {:induction false} MarksHave(pieces: seq<Piece>, i: nat)
    requires i < |pieces| && Counts(pieces[i])
    ensures pieces[i] in Marks(pieces)
  {
    if i < |pieces| - 1 {
      MarksHave(pieces[..|pieces| - 1], i);
    }
  }

  /** If everything that counts is the upload's own, leaving the rest out changes no mark. */
  lemma {:induction false} MarksAreOwn(pieces: seq<Piece>, id: nat)
    requires forall i :: 0 <= i < |pieces| && Counts(pieces[i]) ==> pieces[i].upload == id
    ensures Marks(Of(pieces, id)) == Marks(pieces)
  {
    if pieces != [] {
      var front, last := pieces[..|pieces| - 1], pieces[|pieces| - 1];
      MarksAreOwn(front, id);
      if last.upload == id {
        MarksOfMore(Of(front, id), last);
      }
    }
  }

  lemma {:induction false} DataOfMarks(pieces: seq<Piece>)
    ensures Data(Marks(pieces)) == Data(pieces)
  {
    if pieces != [] {
      var front, last := pieces[..|pieces| - 1], pieces[|pieces| - 1];
      DataOfMarks(front);
      if Counts(last) {
        DataOfMore(Marks(front), last);
      } else {
        assert Data(front) + last.data == Data(front);
      }
    }
  }

  lemma BeforeIsForeign(h: seq<Piece>, first: nat)
    requires Proper(h) && first < |h| && h[first].index == 0
    ensures Of(h[..first], h[first].upload) == []
  {
    OfNone(h[..first], h[first].upload);
  }

  lemma RestIsForeign(h: seq<Piece>, end: nat)
    requires Proper(h) && end < |h| && h[end].last
    ensures Of(h[end + 1..], h[end].upload) == []
  {
    OfNone(h[end + 1..], h[end].upload);
  }

  /** An undisturbed commit's span holds every piece of its upload. */
  lemma SpanHoldsUpload(h: seq<Piece>, first: nat, end: nat)
    requires Proper(h) && first <= end < |h|
    requires h[first].index == 0 && h[end].last && h[end].upload == h[first].upload
    ensures Of(h, h[first].upload) == Of(h[first..end + 1], h[first].upload)
  {
    BeforeIsForeign(h, first);
    RestIsForeign(h, end);
    hide *;
    OfThreeParts(h, first, end + 1, h[first].upload);
    NothingAround(Of(h[first..end + 1], h[first].upload));
  }

  lemma OfThreeParts(h: seq<Piece>, i: nat, k: nat, id: nat)
    requires i <= k <= |h|
    ensures Of(h, id) == Of(h[..i], id) + Of(h[i..k], id) + Of(h[k..], id)
  {
    hide *;
    assert h[..k] + h[k..] == h;
    assert h[..i] + h[i..k] == h[..k];
    OfParts(h[..k], h[k..], id);
    OfParts(h[..i], h[i..k], id);
  }

  lemma NothingAround(pieces: seq<Piece>)
    ensures [] + pieces == pieces == [] + pieces + []
  {
  }

  /** A commit is made of exactly the pieces of the upload that opened it, from its first to its
    * last, if and only if no piece of another upload is stored in between or closes it. */
  lemma CommitIsOneUploadIff(h: seq<Piece>, c: Commit)
    requires Proper(h) && Told(h, c)
    ensures IsOneUpload(h, c) <==> Undisturbed(h, c)
  {
    assert h[c.first].index == 0 && h[c.end].last;
    hide Told, Proper, IsOneUpload, Undisturbed;
    if Undisturbed(h, c) {
      UndisturbedIsOneUpload(h, c);
    }
    if IsOneUpload(h, c) {
      OneUploadIsUndisturbed(h, c);
    }
  }

  lemma UndisturbedIsOneUpload(h: seq<Piece>, c: Commit)
    requires Proper(h) && c.first <= c.end < |h| && h[c.first].index == 0 && h[c.end].last
    requires Undisturbed(h, c)
    ensures IsOneUpload(h, c)
  {
    assert Counts(h[c.end]);
    hide Proper, Of, Marks, Counts;
    var id, span := h[c.first].upload, h[c.first..c.end + 1];
    SpanHoldsUpload(h, c.first, c.end);
    forall i | 0 <= i < |span| && Counts(span[i]) ensures span[i].upload == id {
      assert span[i] == h[c.first + i];
    }
    MarksAreOwn(span, id);
  }

  lemma OneUploadIsUndisturbed(h: seq<Piece>, c: Commit)
    requires c.first <= c.end < |h| && IsOneUpload(h, c)
    ensures Undisturbed(h, c)
  {
    hide Of, Marks, Counts;
    var span := h[c.first..c.end + 1];
    forall i | c.first <= i <= c.end && Counts(h[i]) ensures h[i].upload == h[c.first].upload {
      assert span[i - c.first] == h[i];
      MarksHave(span, i - c.first);
      OfIsOwn(h, h[c.first].upload, h[i]);
    }
  }

  /** Then its bytes are that upload's, all of them and in order. */
  lemma UndisturbedIsWhole(h: seq<Piece>, c: Commit)
    requires Proper(h) && Told(h, c) && Undisturbed(h, c)
    ensures c.bytes == Whole(h, h[c.first].upload)
  {
    CommitIsOneUploadIff(h, c);
    DataOfMarks(h[c.first..c.end + 1]);
    DataOfMarks(Of(h, h[c.first].upload));
  }

  /** One upload at a time: every piece is a first one or follows a piece of its own upload. */
  predicate Serial(h: seq<Piece>) {
    forall i :: 0 <= i < |h| && h[i].index != 0 ==> i > 0 && h[i - 1].upload == h[i].upload
  }

  /** When uploads do not overlap every commit is undisturbed. */
  lemma SerialIsUndisturbed(h: seq<Piece>, c: Commit)
    requires Serial(h) && Told(h, c)
    ensures Undisturbed(h, c)
  {
    forall i | c.first <= i <= c.end ensures h[i].upload == h[c.first].upload {
      SameUpload(h, c, i);
    }
  }

  lemma {:induction false} SameUpload(h: seq<Piece>, c: Commit, i: nat)
    requires Serial(h) && Told(h, c) && c.first <= i <= c.end
    ensures h[i].upload == h[c.first].upload
    decreases i
  {
    if i > c.first {
      SameUpload(h, c, i - 1);
    }
  }

  /** Where the commit comes from: its label is its opener's; it is its opener's upload exactly
    * when nothing disturbed it, and then all of it; and with one upload at a time nothing does. */
  predicate Accounted(h: seq<Piece>, c: Commit) {
    && Told(h, c)
    && (IsOneUpload(h, c) <==> Undisturbed(h, c))
    && (Undisturbed(h, c) ==> c.bytes == Whole(h, h[c.first].upload))
    && (Serial(h) ==> Undisturbed(h, c))
  }

  lemma ToldIsAccounted(h: seq<Piece>, c: Commit)
    requires Proper(h) && Told(h, c)
    ensures Accounted(h, c)
  {
    CommitIsOneUploadIff(h, c);
    if Undisturbed(h, c) {
      UndisturbedIsWhole(h, c);
    }
    if Serial(h) {
      SerialIsUndisturbed(h, c);
    }
    hide Proper, Data, Undisturbed, IsOneUpload, Whole, Serial, NoLast;
  }

  predicate Reports(s: Stage, c: Commit) {
    && s.imgLen == |c.bytes| && s.version == c.version && s.shaHex == c.sha
    && (c.sha == "" || c.sha == Hex(Digest(c.bytes)))
  }

  lemma LastIsReported(t: Task, l: Ledger)
    requires Follows(t, l) && Digested(l.commits) && l.commits != []
    ensures Reports(t.stage, l.commits[|l.commits| - 1])
  {
    hide Hex, Digest, InFlight, Holds;
  }

  lemma LastIsAccounted(t: Task, l: Ledger)
    requires Follows(t, l) && Digested(l.commits) && TellsAll(l) && Proper(l.history) && l.commits != []
    ensures Reports(t.stage, l.commits[|l.commits| - 1])
    ensures Accounted(l.history, l.commits[|l.commits| - 1])
  {
    hide Follows, Digested, TellsAll, Proper, Told, Reports, Accounted;
    LastIsReported(t, l);
    LastIsTold(l);
    ToldIsAccounted(l.history, l.commits[|l.commits| - 1]);
  }

  lemma HistoryIsTold(l: Ledger, h: seq<Piece>)
    requires TellsAll(l) && l.history == []
    ensures TellsAll(RunLedger(l, h)) && RunLedger(l, h).history == h
  {
    hide *;
    LedgerTells(l, h);
    NothingAround(h);
  }

  /** Task and ledger after any history. */
  lemma FreshRun(h: seq<Piece>)
    requires AllFit(h)
    ensures var t, l := RunTask(FRESH, h), RunLedger(EMPTY, h);
            Follows(t, l) && Digested(l.commits) && TellsAll(l) && l.history == h
  {
    FreshFollows();
    assert TellsAll(EMPTY);
    hide RunTask, RunLedger, AllFit, Follows, Digested, TellsAll;
    HistoryIsTold(EMPTY, h);
    StagingFollowsLedger(FRESH, EMPTY, h);
  }

  /** What the core reports after any history, and when it is one upload: length, version and
    * digest are those of the last commit, and that commit is accounted for. */
  lemma ReportIsOneUploadIff(h: seq<Piece>)
    requires AllFit(h) && Proper(h) && RunLedger(EMPTY, h).commits != []
    ensures var commits := RunLedger(EMPTY, h).commits;
            && Reports(RunTask(FRESH, h).stage, commits[|commits| - 1])
            && Accounted(h, commits[|commits| - 1])
  {
    hide RunTask, RunLedger, AllFit, Follows, Digested, TellsAll, Proper, Reports, Accounted;
    FreshRun(h);
    LastIsAccounted(RunTask(FRESH, h), RunLedger(EMPTY, h));
  }

  lemma LastIsTold(l: Ledger)
    requires TellsAll(l) && l.commits != []
    ensures Told(l.history, l.commits[|l.commits| - 1])
  {
    hide Told, OpenedAt, NoLast, Data;
  }

  // ── When uploads overlap ──────────────────────────────────────────────────

  /** Upload 1 is rejected for its label; upload 2 opens; then the last piece of upload 1
    * arrives. */
  function Overlap(d: seq<u8>, b: seq<u8>, a: seq<u8>, heap: seq<u8>): seq<Piece> {
    [Piece(1, 0, Label(true, false, 0), Some(heap), true, d, true, false, true),
     Piece(2, 0, Label(true, true, 7), Some(heap), true, b, true, false, true),
     Piece(1, |d|, Label(true, false, 0), Some(heap), true, a, true, true, true)]
  }

  lemma OverlapSteps(d: seq<u8>, b: seq<u8>, a: seq<u8>, heap: seq<u8>)
    requires d != [] && b != [] && a != [] && |b| + |a| <= MAX_IMAGE && |heap| == MAX_IMAGE
    ensures RunLedger(EMPTY, Overlap(d, b, a, heap)).commits == [Commit(b + a, 7, Hex(Digest(b + a)), 1, 2)]
  {
    hide Hex, Digest;
    var p, q, r := Overlap(d, b, a, heap)[0], Overlap(d, b, a, heap)[1], Overlap(d, b, a, heap)[2];
    var l1 := Recorded(EMPTY, p);
    assert l1 == Heard(EMPTY, p).(open := false);
    var l2 := Recorded(l1, q);
    assert [] + b == b;
    assert l2 == Ledger([p] + [q], [], true, 1, b, q.pending, true, true, true);
    var l3 := Recorded(l2, r);
    assert l3.commits == [] + [Commit(b + a, 7, Hex(Digest(b + a)), 1, 2)];
    hide Recorded;
    var two, one, none: seq<Piece> := [q, r], [r], [];
    assert [p, q, r][1..] == two && two[1..] == one && one[1..] == none;
    assert RunLedger(EMPTY, [p, q, r]) == RunLedger(l1, two) == RunLedger(l2, one) == RunLedger(l3, none);
  }

  /** The rejected upload completes the other one: length, version and digest are of a mixture
    * nobody uploaded. */
  lemma OverlapMixes(d: seq<u8>, b: seq<u8>, a: seq<u8>, heap: seq<u8>)
    requires d != [] && b != [] && a != [] && |b| + |a| <= MAX_IMAGE && |heap| == MAX_IMAGE
    ensures var h := Overlap(d, b, a, heap);
            var c := Commit(b + a, 7, Hex(Digest(b + a)), 1, 2);
            && Proper(h) && AllFit(h)
            && RunLedger(EMPTY, h).commits == [c]
            && Told(h, c) && !Undisturbed(h, c)
            && RunTask(FRESH, h).stage.imgLen == |b + a|
            && RunTask(FRESH, h).stage.version == 7
            && RunTask(FRESH, h).stage.shaHex == Hex(Digest(b + a))
  {
    OverlapIsProper(d, b, a, heap);
    OverlapSteps(d, b, a, heap);
    hide *;
    LedgerToldOnce(Overlap(d, b, a, heap), Commit(b + a, 7, Hex(Digest(b + a)), 1, 2));
    OverlapIsDisturbed(d, b, a, heap, Commit(b + a, 7, Hex(Digest(b + a)), 1, 2));
  }

  lemma OverlapIsProper(d: seq<u8>, b: seq<u8>, a: seq<u8>, heap: seq<u8>)
    requires d != [] && |heap| == MAX_IMAGE
    ensures Proper(Overlap(d, b, a, heap)) && AllFit(Overlap(d, b, a, heap))
  {
  }

  lemma OverlapIsDisturbed(d: seq<u8>, b: seq<u8>, a: seq<u8>, heap: seq<u8>, c: Commit)
    requires Told(Overlap(d, b, a, heap), c) && c.first == 1 && c.end == 2
    ensures !Undisturbed(Overlap(d, b, a, heap), c)
  {
    var h := Overlap(d, b, a, heap);
    assert Counts(h[2]) && h[2].upload != h[1].upload;
    hide Told;
  }

  /** What the core reports when a history made one commit. */
  lemma LedgerToldOnce(h: seq<Piece>, c: Commit)
    requires AllFit(h) && RunLedger(EMPTY, h).commits == [c]
    ensures Told(h, c)
    ensures var s := RunTask(FRESH, h).stage;
            s.imgLen == |c.bytes| && s.version == c.version && s.shaHex == c.sha
  {
    FreshRun(h);
    hide RunTask, RunLedger, Hex, Digest, InFlight, Holds, Told;
    assert Told(h, RunLedger(EMPTY, h).commits[0]);
  }

  /** The pieces, not the bytes, are what the condition is about: a foreign last piece may happen
    * to carry the very bytes the upload's own would have brought. */
  lemma SameBytesByChance(p: Piece, q: Piece, r: Piece)
    requires p.upload == r.upload != q.upload && p.index == 0 && !p.pending.present && !p.last
    requires q.index != 0 && q.last && q.data == r.data && r.index != 0 && r.last
    ensures var h := [p] + [q] + [r];
            var c := Commit(p.data + q.data, 0, "", 0, 1);
            Proper(h) && Told(h, c) && !Undisturbed(h, c) && c.bytes == Whole(h, p.upload)
  {
    var id := p.upload;
    var h := [p] + [q] + [r];
    var c := Commit(p.data + q.data, 0, "", 0, 1);
    SinglePiece(p);
    SinglePiece(q);
    SinglePiece(r);
    DataOfMore([p], q);
    DataOfMore([p], r);
    OfParts([p] + [q], [r], id);
    OfParts([p], [q], id);
    assert h[0..2] == [p] + [q];
    hide Data, Of;
    assert Of(h, id) == [p] + [r];
    assert Counts(h[1]) && h[1].upload != h[0].upload;
  }

  lemma SinglePiece(p: Piece)
    ensures Data([p]) == p.data
    ensures forall id: nat :: Of([p], id) == if p.upload == id then [p] else []
  {
    var none: seq<Piece> := [];
    assert [p][..0] == none;
    assert [] + p.data == p.data;
    forall id: nat ensures Of([p], id) == if p.upload == id then [p] else [] {
      assert Of(none, id) == [];
    }
  }
}
