/** The core's staging of a head image: one permanent buffer, uploads in pieces, and a
  * committed length, version and digest that only a completed upload may change.
  *
  * The handler that drives it with the pieces is here too; whose pieces they are, and what that
  * makes of a commit, is left to OtaLedger.
  */
module OtaStaging {
  import opened OtaHex
  import opened OtaManifest
  import opened Sha256
  import opened Words

  const MAX_IMAGE := 0x20_0000

  /** The ?version= label of an upload. */
  datatype Label = Label(present: bool, valid: bool, value: u32)

  datatype StartResult = Started | NoStorage
  datatype WriteResult = Ignored | Wrote | TooBig

  datatype Stage = Stage(image: Option<seq<u8>>, imgLen: nat, uploadLen: nat, uploading: bool, uploadOk: bool,
                         version: u32, pending: Label, rejected: bool, shaHex: string, shaValid: bool)

  function Begun(s: Stage, pending: Label): Stage {
    if pending.present && !pending.valid
    then s.(pending := pending, rejected := true, uploading := false)
    else s.(pending := pending, rejected := false)
  }

  function Armed(s: Stage, heap: Option<seq<u8>>, digestOk: bool): Stage {
    var image := if s.image.None? then heap else s.image;
    if image.None? then s.(uploading := false, uploadOk := false, uploadLen := 0)
    else s.(image := image, uploading := true, uploadOk := false, uploadLen := 0, shaValid := digestOk)
  }

  function Overwritten(image: seq<u8>, at: nat, data: seq<u8>): seq<u8>
    requires at + |data| <= |image|
  {
    image[..at] + data + image[at + |data|..]
  }

  predicate Sized(s: Stage) {
    s.image.Some? ==> |s.image.value| == MAX_IMAGE
  }

  function Written(s: Stage, data: seq<u8>): (r: (Stage, WriteResult))
    requires Sized(s)
    ensures Sized(r.0)
  {
    if !s.uploading || s.image.None? || data == [] then (s, Ignored)
    else if s.uploadLen + |data| > MAX_IMAGE then (s.(uploading := false, uploadLen := 0, shaValid := false), TooBig)
    else (s.(image := Some(Overwritten(s.image.value, s.uploadLen, data)), uploadLen := s.uploadLen + |data|), Wrote)
  }

  function Finished(s: Stage, digest: Option<seq<u8>>): Stage {
    if !s.uploading then s.(uploadOk := false)
    else s.(uploading := false, imgLen := s.uploadLen,
            version := if s.pending.present && s.pending.valid then s.pending.value else s.version,
            shaHex := if s.shaValid && digest.Some? then Hex(digest.value) else "",
            shaValid := false, uploadOk := true)
  }

  /** What a finished request is told: a malformed label, a failed upload, or what is staged. */
  datatype Answer = BadVersion | UploadFailed | StagedAs(length: nat, version: u32)

  function AnswerOf(s: Stage): Answer {
    if s.rejected then BadVersion else if !s.uploadOk then UploadFailed else StagedAs(s.imgLen, s.version)
  }

  class StagingManager {
    var img: array?<u8>
    var imgLen: nat
    var uploadLen: nat
    var uploading: bool
    var uploadOk: bool
    var version: u32
    var pending: Label
    var uploadRejected: bool
    var shaHex: string
    var shaValid: bool

    ghost function Storage(): set<object>
      reads this
    {
      if img == null then {} else {img}
    }

    ghost function View(): Stage
      reads this, Storage()
    {
      Stage(if img == null then None else Some(img[..]), imgLen, uploadLen, uploading, uploadOk,
            version, pending, uploadRejected, shaHex, shaValid)
    }

    constructor ()
      ensures img == null
      ensures View() == Stage(None, 0, 0, false, false, 0, Label(false, false, 0), false, "", false)
    {
      img, imgLen, uploadLen, uploading, uploadOk := null, 0, 0, false, false;
      version, pending, uploadRejected, shaHex, shaValid := 0, Label(false, false, 0), false, "", false;
    }

    method BeginUpload(pending: Label) returns (rejected: bool)
      modifies this
      ensures img == old(img)
      ensures View() == Begun(old(View()), pending)
      ensures rejected <==> pending.present && !pending.valid
    {
      uploadRejected := false;
      this.pending := pending;
      if pending.present && !pending.valid {
        uploadRejected, uploading := true, false;
        return true;
      }
      return false;
    }

    method StorageReady(heap: array?<u8>, digestOk: bool) returns (r: StartResult)
      modifies this
      ensures img == if old(img) == null then heap else old(img)
      ensures View() == Armed(old(View()), if heap == null then None else Some(heap[..]), digestOk)
      ensures r.Started? <==> img != null
    {
      if img == null {
        img := heap;
      }
      uploading, uploadOk, uploadLen := true, false, 0;
      if img == null {
        uploading := false;
        return NoStorage;
      }
      shaValid := digestOk;
      return Started;
    }

    method WriteChunk(data: seq<u8>) returns (r: WriteResult)
      requires Sized(View())
      modifies this, Storage()
      ensures img == old(img)
      ensures (View(), r) == Written(old(View()), data)
    {
      if !uploading || img == null || data == [] {
        return Ignored;
      }
      if uploadLen + |data| > MAX_IMAGE {
        uploading, uploadLen, shaValid := false, 0, false;
        return TooBig;
      }
      CopyInto(img, uploadLen, data);
      uploadLen := uploadLen + |data|;
      return Wrote;
    }

    method NoteDigestFailed()
      modifies this
      ensures img == old(img)
      ensures View() == old(View()).(shaValid := false)
    {
      shaValid := false;
    }

    method FinishUpload(digest: Option<seq<u8>>) returns (committed: bool)
      modifies this
      ensures img == old(img)
      ensures View() == Finished(old(View()), digest)
      ensures committed == old(uploading)
    {
      if !uploading {
        uploadOk := false;
        return false;
      }
      uploading := false;
      imgLen := uploadLen;
      if pending.present && pending.valid {
        version := pending.value;
      }
      if shaValid && digest.Some? {
        shaHex := Hex(digest.value);
      } else {
        shaHex := "";
      }
      shaValid := false;
      uploadOk := true;
      return true;
    }

    /** The answer, which uses the outcome up. */
    method TakePostResult() returns (answer: Answer)
      modifies this
      ensures img == old(img)
      ensures View() == old(View()).(uploadOk := false) && answer == AnswerOf(old(View()))
    {
      answer := if uploadRejected then BadVersion else if !uploadOk then UploadFailed else StagedAs(imgLen, version);
      uploadOk := false;
    }
  }

  method CopyInto(image: array<u8>, at: nat, data: seq<u8>)
    requires at + |data| <= image.Length
    modifies image
    ensures image[..] == Overwritten(old(image[..]), at, data)
  {
    for i := 0 to |data|
      invariant image[..at] == old(image[..at])
      invariant image[at..at + i] == data[..i]
      invariant image[at + i..] == old(image[at + i..])
    {
      image[at + i] := data[i];
    }
    assert image[..] == image[..at] + image[at..at + |data|] + image[at + |data|..];
  }

  // ── The upload handler ────────────────────────────────────────────────────

  /** One piece of an upload, with what the allocator and the digest library answer. The
    * handler never looks at which upload a piece belongs to. */
  datatype Piece = Piece(upload: nat, index: nat, pending: Label, heap: Option<seq<u8>>, startOk: bool,
                         data: seq<u8>, updateOk: bool, last: bool, finishOk: bool)

  /** The manager and the digest in progress, which is the bytes it has been fed. */
  datatype Task = Task(stage: Stage, sha: Option<seq<u8>>)

  predicate Fits(t: Task, p: Piece) {
    Sized(t.stage) && (p.heap.Some? ==> |p.heap.value| == MAX_IMAGE)
  }

  function Opening(t: Task, p: Piece): Task {
    var s := Begun(t.stage, p.pending);
    if p.index != 0 then t
    else if p.pending.present && !p.pending.valid then t.(stage := s)
    else if s.image.None? && p.heap.None? then t.(stage := Armed(s, None, false))
    else Task(Armed(s, p.heap, p.startOk), if p.startOk then Some([]) else None)
  }

  function Chunked(t: Task, p: Piece): Task
    requires Sized(t.stage)
  {
    if !t.stage.uploading then t
    else
      var (s, r) := Written(t.stage, p.data);
      if r.TooBig? then Task(s.(shaValid := false), None)
      else if r.Ignored? || t.sha.None? then t.(stage := s)
      else if p.updateOk then Task(s, Some(t.sha.value + p.data))
      else Task(s.(shaValid := false), None)
  }

  function Closing(t: Task, p: Piece): Task {
    if !p.last then t
    else if !t.stage.uploading then t.(stage := Finished(t.stage, None))
    else Task(Finished(t.stage, if t.sha.Some? && p.finishOk then Some(Digest(t.sha.value)) else None), None)
  }

  function Uploaded(t: Task, p: Piece): Task
    requires Fits(t, p)
  {
    Closing(Chunked(Opening(t, p), p), p)
  }

  class OtaTask {
    const mgr: StagingManager
    var sha: Option<seq<u8>>

    ghost function View(): Task
      reads this, mgr, mgr.Storage()
    {
      Task(mgr.View(), sha)
    }

    constructor (mgr: StagingManager)
      ensures this.mgr == mgr && sha == None
    {
      this.mgr := mgr;
      sha := None;
    }

    /** The order in which one piece drives the manager and the digest. */
    method HandleUpload(p: Piece, heap: array?<u8>)
      requires Fits(View(), p)
      requires p.heap == if heap == null then None else Some(heap[..])
      requires heap == null || heap != mgr.img
      modifies this, mgr, mgr.Storage(), heap
      ensures View() == Uploaded(old(View()), p)
    {
      if p.index == 0 {
        Open(p, heap);
      }
      Chunk(p);
      if p.last {
        Close(p);
      }
    }

    method Open(p: Piece, heap: array?<u8>)
      requires p.index == 0
      requires p.heap == if heap == null then None else Some(heap[..])
      modifies this, mgr
      ensures mgr.img == old(mgr.img) || mgr.img == heap
      ensures View() == Opening(old(View()), p)
    {
      var rejected := mgr.BeginUpload(p.pending);
      if !rejected {
        if mgr.img == null && heap == null {
          var _ := mgr.StorageReady(null, false);
        } else {
          sha := if p.startOk then Some([]) else None;
          var _ := mgr.StorageReady(heap, p.startOk);
        }
      }
    }

    method Chunk(p: Piece)
      requires Sized(mgr.View())
      modifies this, mgr, mgr.Storage()
      ensures mgr.img == old(mgr.img)
      ensures View() == Chunked(old(View()), p)
    {
      if mgr.uploading {
        var r := mgr.WriteChunk(p.data);
        if r.TooBig? {
          sha := None;
          mgr.NoteDigestFailed();
        } else if r.Wrote? && sha.Some? {
          if p.updateOk {
            sha := Some(sha.value + p.data);
          } else {
            sha := None;
            mgr.NoteDigestFailed();
          }
        }
      }
    }

    method Close(p: Piece)
      requires p.last
      modifies this, mgr
      ensures mgr.img == old(mgr.img)
      ensures View() == Closing(old(View()), p)
    {
      if mgr.uploading {
        var digest: Option<seq<u8>> := None;
        if sha.Some? && p.finishOk {
          digest := Some(Digest(sha.value));
        }
        sha := None;
        var _ := mgr.FinishUpload(digest);
      } else {
        var _ := mgr.FinishUpload(None);
      }
    }
  }
}
