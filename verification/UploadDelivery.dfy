/** What a run of the upload operations delivers: exactly the uploaded bytes, once. */
module UploadDelivery {
  import opened Wrappers
  import opened Bits
  import opened Text
  import opened UploadPaths
  import opened Upload
  import opened UploadSafety

  // ---------------------------------------------------------------------------
  // Where the bytes come from
  // ---------------------------------------------------------------------------

  /** The body of some chunk write of the run; all of it below the reader's limit. */
  ghost predicate Uploaded(steps: seq<Step>, id: string, i: nat, bytes: seq<byte>) {
    exists k :: 0 <= k < |steps| && IsUpload(steps[k], id, i, bytes)
  }

  predicate IsUpload(step: Step, id: string, i: nat, bytes: seq<byte>) {
    && step.WriteStep? && step.id == id && step.index == i
    && bytes <= step.body.bytes
    && (|bytes| < MAX_INT64 ==> bytes == step.body.bytes && !step.body.broken)
  }

  lemma ReadLimitedFacts(body: Body, size: uint64)
    ensures var r := ReadLimited(body, SafeChunkLimit(size));
            r.Some? && |r.value| == size ==>
              r.value <= body.bytes && (size < MAX_INT64 ==> r.value == body.bytes && !body.broken)
  {
  }

  /** A chunk is taken exactly when its body has the chunk's size and ends there. At the
      largest 64-bit size a longer body is cut, and above it nothing is taken. */
  lemma ChunkTaken(w: World, id: string, user: nat, index: nat, body: Body, now: int)
    ensures
      WriteChunk(w, id, user, index, body, now).1 == None <==>
      && ChunkRefused(w.files, id, user, index, now) == None
      && var size := Load(w.files, id).value.SizeOf(index);
         if size < MAX_INT64 then |body.bytes| == size && !body.broken
         else size == MAX_INT64 && |body.bytes| >= size
  {
    hide ChunkSizeFor, Denied, ChunkPath, MetadataPath, DonePath;
  }

  lemma WriteOrigin(w: World, id: string, user: nat, index: nat, body: Body, now: int, i: nat)
    requires ChunkPath(id, i) in WriteChunk(w, id, user, index, body, now).0.files
    ensures var f, g := w.files, WriteChunk(w, id, user, index, body, now).0.files;
            || (ChunkPath(id, i) in f && f[ChunkPath(id, i)] == g[ChunkPath(id, i)])
            || (g[ChunkPath(id, i)].Raw? &&
                IsUpload(WriteStep(id, user, index, body, now), id, i, g[ChunkPath(id, i)].bytes))
  {
    hide ChunkSizeFor, Denied, ChunkPath, ReadLimited, SafeChunkLimit, MetadataPath, DonePath;
    ChunkPathInjective(id, i, index);
    if ChunkRefused(w.files, id, user, index, now) == None {
      ReadLimitedFacts(body, Load(w.files, id).value.SizeOf(index));
    }
  }

  lemma ChunkOrigin(cfg: Config, w: World, step: Step, id: string, i: nat)
    requires Inv(cfg, w) && Enabled(w, step) && SlashFree(id)
    requires ChunkPath(id, i) in Apply(cfg, w, step).files
    ensures var f, g := w.files, Apply(cfg, w, step).files;
            || (ChunkPath(id, i) in f && f[ChunkPath(id, i)] == g[ChunkPath(id, i)])
            || (g[ChunkPath(id, i)].Raw? && IsUpload(step, id, i, g[ChunkPath(id, i)].bytes))
  {
    hide Inv, Create, WriteChunk, Abort, Cleanup, Sweep, Complete, IsUpload, SameUnder, ChunkPath;
    ChunkPathFacts(id, i);
    if !step.SweepStep? && step.id != id {
      Isolated(cfg, w, step, id);
      SameAt(w.files, Apply(cfg, w, step).files, id, ChunkPath(id, i));
    } else if step.WriteStep? {
      WriteOrigin(w, id, step.user, step.index, step.body, step.now, i);
    } else {
      OtherOrigin(cfg, w, step, i, if step.SweepStep? then id else step.id);
    }
  }

  lemma SameAt(f: Files, g: Files, id: string, p: string)
    requires SameUnder(f, g, id) && HasPrefix(p, TransferRoot(id))
    ensures p in f <==> p in g
    ensures p in f ==> f[p] == g[p]
  {
  }

  /** Only chunk writes make chunk files. */
  lemma OtherOrigin(cfg: Config, w: World, step: Step, i: nat, id: string)
    requires !step.WriteStep? && (step.SweepStep? || step.id == id)
    requires ChunkPath(id, i) in Apply(cfg, w, step).files
    ensures ChunkPath(id, i) in w.files && w.files[ChunkPath(id, i)] == Apply(cfg, w, step).files[ChunkPath(id, i)]
  {
    hide Received, AllReceived, Assembled, Load, Denied, NewSession, Swept, ChunkPath, MetadataPath, DataPath, DonePath;
    ChunkPathFacts(id, i);
    UnderRoot(id);
  }

  lemma UploadedLonger(steps: seq<Step>, id: string, i: nat, bytes: seq<byte>)
    requires steps != [] && Uploaded(steps[..|steps| - 1], id, i, bytes)
    ensures Uploaded(steps, id, i, bytes)
  {
    var k :| 0 <= k < |steps| - 1 && IsUpload(steps[..|steps| - 1][k], id, i, bytes);
    assert IsUpload(steps[k], id, i, bytes);
  }

  /** Every stored chunk holds the body of a write to that chunk. */
  lemma {:induction false} ChunkUploaded(cfg: Config, steps: seq<Step>, id: string, i: nat)
    requires Run(cfg, steps).Some? && SlashFree(id) && ChunkPath(id, i) in Run(cfg, steps).value.files
    ensures var c := Run(cfg, steps).value.files[ChunkPath(id, i)];
            c.Raw? && Uploaded(steps, id, i, c.bytes)
  {
    hide Apply, Enabled, Inv, Uploaded, IsUpload, ChunkPath;
    if steps == [] {
      assert false;
    } else {
      var before, step := Run(cfg, steps[..|steps| - 1]).value, steps[|steps| - 1];
      var c := Run(cfg, steps).value.files[ChunkPath(id, i)];
      RunInv(cfg, steps[..|steps| - 1]);
      ChunkOrigin(cfg, before, step, id, i);
      if ChunkPath(id, i) in before.files && before.files[ChunkPath(id, i)] == c {
        ChunkUploaded(cfg, steps[..|steps| - 1], id, i);
        UploadedLonger(steps, id, i, c.bytes);
      } else {
        UploadedNow(steps, id, i, c.bytes);
      }
    }
  }

  lemma UploadedNow(steps: seq<Step>, id: string, i: nat, bytes: seq<byte>)
    requires steps != [] && IsUpload(steps[|steps| - 1], id, i, bytes)
    ensures Uploaded(steps, id, i, bytes)
  {
  }

  // ---------------------------------------------------------------------------
  // Where the sessions come from
  // ---------------------------------------------------------------------------

  /** The step that made this session. */
  predicate Creates(cfg: Config, step: Step, s: Session) {
    step.CreateStep? && NewSession(cfg, step.params, step.id, step.now) == Success(s)
  }

  lemma SessionFields(cfg: Config, step: Step, s: Session)
    requires Creates(cfg, step, s)
    ensures && s.uploadID == step.id && s.chunkSize == cfg.chunkSize
            && s.nodeID == step.params.nodeID && s.userID == step.params.userID && s.fullPath == step.params.fullPath
            && s.suUser == step.params.suUser && s.totalSize == step.params.totalSize
            && s.expectedChecksum == ToLower(step.params.expectedChecksum)
  {
    hide IsHexSHA256, ToLower, TotalChunks;
  }

  lemma NewlyCreated(cfg: Config, w: World, step: Step)
    requires step.CreateStep? && Load(Apply(cfg, w, step).files, step.id).Success? && MetadataPath(step.id) !in w.files
    ensures Creates(cfg, step, Load(Apply(cfg, w, step).files, step.id).value)
  {
    hide NewSession;
  }

  /** Every session that stands was made by a creation of that upload in the run. */
  lemma {:induction false} SessionCreated(cfg: Config, steps: seq<Step>, id: string) returns (t: nat)
    requires Run(cfg, steps).Some? && Load(Run(cfg, steps).value.files, id).Success?
    ensures t < |steps| && Creates(cfg, steps[t], Load(Run(cfg, steps).value.files, id).value)
  {
    hide Apply, Enabled, Inv, Creates;
    if steps == [] {
      assert false;
    } else {
      var n := |steps| - 1;
      var before, step := Run(cfg, steps[..n]).value, steps[n];
      RunInv(cfg, steps[..n]);
      if step.CreateStep? && step.id == id {
        t := n;
        NotThere(cfg, before, step);
        NewlyCreated(cfg, before, step);
      } else {
        SessionKept(cfg, before, step, id);
        t := SessionCreated(cfg, steps[..n], id);
      }
    }
  }

  lemma NotThere(cfg: Config, w: World, step: Step)
    requires Inv(cfg, w) && Enabled(w, step) && step.CreateStep?
    ensures MetadataPath(step.id) !in w.files
  {
    hide MetadataPath, UploadsOk, LogOk, AnnouncedOk;
  }

  // ---------------------------------------------------------------------------
  // What the daemon is asked to fetch
  // ---------------------------------------------------------------------------

  /** A dispatch tells the daemon what the request that created the upload announced, and the
      bytes stored for it have that size and that checksum. */
  predicate AsAnnounced(cfg: Config, step: Step, d: Dispatch) {
    && step.CreateStep? && step.id == d.uploadID
    && step.params.nodeID == d.nodeID && step.params.fullPath == d.fullPath && step.params.suUser == d.user
    && step.params.totalSize == d.totalSize == |d.data|
    && ToLower(step.params.expectedChecksum) == d.checksum == cfg.sha(d.data)
  }

  /** In every run, each dispatch is as some creation of that upload announced it. */
  lemma {:induction false} DispatchAnnounced(cfg: Config, steps: seq<Step>, k: nat) returns (t: nat)
    requires Run(cfg, steps).Some? && k < |Run(cfg, steps).value.log|
    ensures t < |steps| && AsAnnounced(cfg, steps[t], Run(cfg, steps).value.log[k])
  {
    hide Apply, Enabled, Inv, AsAnnounced, Creates;
    if steps == [] {
      assert false;
    } else {
      var n := |steps| - 1;
      var before, step := Run(cfg, steps[..n]).value, steps[n];
      RunInv(cfg, steps[..n]);
      RunInv(cfg, steps);
      LogStep(cfg, before, step);
      if k < |before.log| {
        t := DispatchAnnounced(cfg, steps[..n], k);
      } else {
        var d := Run(cfg, steps).value.log[k];
        assert d.uploadID == step.id;
        MetadataInOrder(cfg, before, step.id);
        CompleteAnnounces(cfg, before, step);
        t := SessionCreated(cfg, steps[..n], step.id);
        GoodInLog(cfg, Run(cfg, steps).value, k);
        CreatedAnnounces(cfg, steps[t], Load(before.files, step.id).value, d);
      }
    }
  }

  lemma MetadataInOrder(cfg: Config, w: World, id: string)
    requires Inv(cfg, w) && id in w.used
    ensures MetaOk(w.files, id)
  {
    hide MetaOk, ChunksOk, DoneOk, LogOk, AnnouncedOk;
    Known(w, id);
    InOrder(w, id);
  }

  lemma GoodInLog(cfg: Config, w: World, k: nat)
    requires Inv(cfg, w) && k < |w.log|
    ensures GoodDispatch(cfg, w.log[k])
  {
    hide UploadsOk, KnownOk, AnnouncedOk;
  }

  lemma CreatedAnnounces(cfg: Config, step: Step, s: Session, d: Dispatch)
    requires Creates(cfg, step, s) && Announced(s, d) && GoodDispatch(cfg, d)
    ensures AsAnnounced(cfg, step, d)
  {
    hide NewSession, ToLower;
    SessionFields(cfg, step, s);
  }

  /** The parts of an upload of this size, each as some client wrote it. */
  ghost predicate PartsUploaded(steps: seq<Step>, id: string, total: uint64, chunk: uint64, parts: seq<seq<byte>>) {
    && total > 0 && chunk > 0
    && |parts| == TotalChunks(total, chunk)
    && forall i: nat :: i < |parts| ==>
         |parts[i]| == ChunkSizeFor(total, chunk, |parts|, i) && Uploaded(steps, id, i, parts[i])
  }

  function StoredParts(f: Files, id: string, n: nat): (parts: seq<seq<byte>>)
    requires forall i: nat :: i < n ==> ChunkOk(f, id, i)
    ensures |parts| == n
    ensures forall i: nat :: i < n ==> ChunkOk(f, id, i) && parts[i] == f[ChunkPath(id, i)].bytes
  {
    seq(n, i requires 0 <= i < n => assert ChunkOk(f, id, i); f[ChunkPath(id, i)].bytes)
  }

  lemma {:induction false} AssembledParts(f: Files, id: string, n: nat)
    requires forall i: nat :: i < n ==> ChunkOk(f, id, i)
    ensures Assembled(f, id, n) == Some(Concat(StoredParts(f, id, n)))
  {
    hide Load, ChunkSizeFor, ChunkPath;
    if n > 0 {
      AssembledParts(f, id, n - 1);
      assert StoredParts(f, id, n)[..n - 1] == StoredParts(f, id, n - 1);
      assert ChunkOk(f, id, n - 1);
    }
  }

  /** A completion that asks the daemon sends the stored chunks in order. */
  lemma SentParts(cfg: Config, w: World, step: Step) returns (s: Session, parts: seq<seq<byte>>)
    requires Inv(cfg, w) && step.CompleteStep? && step.id in w.used && Apply(cfg, w, step).log != w.log
    ensures SlashFree(step.id) && Load(w.files, step.id) == Success(s) && SessionOk(s, step.id)
    ensures |parts| == s.totalChunks
    ensures forall i: nat :: i < |parts| ==>
              ChunkOk(w.files, step.id, i) && parts[i] == w.files[ChunkPath(step.id, i)].bytes
    ensures var log := Apply(cfg, w, step).log;
            |log| == |w.log| + 1 && log[|w.log|].data == Concat(parts) && log[|w.log|].totalSize == s.totalSize
  {
    hide UploadsOk, KnownOk, LogOk, ChunkOk, Received, AllReceived, Assembled, Denied, MetadataPath, DataPath, DonePath,
      ChunkPath, TotalChunks, Concat, ChunksOk, DoneOk;
    var id := step.id;
    Known(w, id);
    InOrder(w, id);
    s := Load(w.files, id).value;
    AllStored(w.files, id, s.totalChunks);
    parts := StoredParts(w.files, id, s.totalChunks);
    AssembledParts(w.files, id, s.totalChunks);
    LoadedOk(w.files, id);
  }

  lemma LoadedOk(f: Files, id: string)
    requires MetaOk(f, id) && Load(f, id).Success?
    ensures SessionOk(Load(f, id).value, id)
  {
  }

  lemma Known(w: World, id: string)
    requires KnownOk(w) && id in w.used
    ensures SlashFree(id)
  {
  }

  lemma InOrder(w: World, id: string)
    requires UploadsOk(w) && SlashFree(id)
    ensures UploadOk(w, id)
  {
  }

  lemma PartsLonger(steps: seq<Step>, id: string, total: uint64, chunk: uint64, parts: seq<seq<byte>>)
    requires steps != [] && PartsUploaded(steps[..|steps| - 1], id, total, chunk, parts)
    ensures PartsUploaded(steps, id, total, chunk, parts)
  {
    hide Uploaded, ChunkSizeFor, TotalChunks;
    forall i: nat | i < |parts| ensures Uploaded(steps, id, i, parts[i]) {
      UploadedLonger(steps, id, i, parts[i]);
    }
  }

  /** Whatever the daemon is asked to fetch is the in-order concatenation of one uploaded
      body per chunk, each of exactly that chunk's size. */
  lemma {:induction false} DeliversUploadedBytes(cfg: Config, steps: seq<Step>, k: nat)
    returns (parts: seq<seq<byte>>)
    requires Run(cfg, steps).Some? && k < |Run(cfg, steps).value.log|
    ensures var d := Run(cfg, steps).value.log[k];
            d.data == Concat(parts) && PartsUploaded(steps, d.uploadID, d.totalSize, cfg.chunkSize, parts)
  {
    hide Apply, Enabled, Inv, PartsUploaded, Concat;
    if steps == [] {
      assert false;
    } else {
      var before, step := Run(cfg, steps[..|steps| - 1]).value, steps[|steps| - 1];
      RunInv(cfg, steps[..|steps| - 1]);
      LogStep(cfg, before, step);
      if k < |before.log| {
        parts := DeliversUploadedBytes(cfg, steps[..|steps| - 1], k);
        PartsLonger(steps, before.log[k].uploadID, before.log[k].totalSize, cfg.chunkSize, parts);
      } else {
        assert Run(cfg, steps).value.log[k].uploadID == step.id;
        var s, ps := SentParts(cfg, before, step);
        parts := ps;
        var t := SessionCreated(cfg, steps[..|steps| - 1], step.id);
        SessionFields(cfg, steps[t], s);
        SentUploaded(cfg, steps[..|steps| - 1], step.id, s, parts);
        PartsLonger(steps, step.id, s.totalSize, cfg.chunkSize, parts);
      }
    }
  }

  lemma SentUploaded(cfg: Config, steps: seq<Step>, id: string, s: Session, parts: seq<seq<byte>>)
    requires Run(cfg, steps).Some? && SlashFree(id) && SessionOk(s, id)
    requires var f := Run(cfg, steps).value.files;
             && Load(f, id) == Success(s) && |parts| == s.totalChunks
             && forall i: nat :: i < |parts| ==> ChunkOk(f, id, i) && parts[i] == f[ChunkPath(id, i)].bytes
    ensures PartsUploaded(steps, id, s.totalSize, s.chunkSize, parts)
  {
    hide Run, Uploaded, ChunkSizeFor, TotalChunks, ChunkPath, Load;
    forall i: nat | i < |parts| ensures Uploaded(steps, id, i, parts[i]) && |parts[i]| == s.SizeOf(i) {
      ChunkUploaded(cfg, steps, id, i);
    }
  }

  /** The daemon is asked exactly when the caller may complete, the node is the session's,
      no marker stands, all of at most a million chunks are stored and the digest matches. */
  lemma DispatchExactly(cfg: Config, steps: seq<Step>, step: Step)
    requires Run(cfg, steps).Some? && step.CompleteStep? && SlashFree(step.id)
    ensures var w := Run(cfg, steps).value;
            Apply(cfg, w, step).log != w.log <==> Deliverable(cfg, w.files, step)
  {
    hide Run;
    var w := Run(cfg, steps).value;
    RunInv(cfg, steps);
    InOrder(w, step.id);
    DispatchCondition(cfg, w, step);
  }

  predicate Deliverable(cfg: Config, f: Files, step: Step)
    requires step.CompleteStep?
  {
    && Load(f, step.id).Success?
    && var s := Load(f, step.id).value;
    && Denied(s, step.user, step.now) == None
    && step.node == Some(s.nodeID)
    && DonePath(step.id) !in f
    && s.totalChunks <= 1_000_000
    && (forall i: nat :: i < s.totalChunks ==> ChunkPath(step.id, i) in f)
    && var data := Assembled(f, step.id, s.totalChunks);
    && data.Some? && cfg.sha(data.value) == s.expectedChecksum
  }

  lemma DispatchCondition(cfg: Config, w: World, step: Step)
    requires step.CompleteStep? && SlashFree(step.id) && UploadOk(w, step.id)
    ensures Apply(cfg, w, step).log != w.log <==> Deliverable(cfg, w.files, step)
  {
    hide MetaOk, ChunksOk, DoneOk, Received, AllReceived, Assembled, Denied, MetadataPath, DataPath, DonePath, ChunkPath;
    if Load(w.files, step.id).Success? {
      ReceivedExactly(w.files, step.id);
      LogGrows(cfg, w, step);
    }
  }

  lemma LogGrows(cfg: Config, w: World, step: Step)
    requires step.CompleteStep?
    ensures Apply(cfg, w, step).log != w.log <==>
              && CompletionRefused(w.files, step.id, step.user, step.node, step.now) == None
              && var s := Load(w.files, step.id).value;
              && var data := Assembled(w.files, step.id, s.totalChunks);
              && data.Some? && cfg.sha(data.value) == s.expectedChecksum
  {
    hide Received, AllReceived, Assembled, Denied, MetadataPath, DataPath, DonePath, Load;
    var v := Apply(cfg, w, step);
    assert v.log != w.log <==> |v.log| != |w.log|;
  }

  /** The listing is complete exactly when all of at most a million chunks are stored. */
  lemma ReceivedExactly(f: Files, id: string)
    requires SlashFree(id) && MetaOk(f, id) && ChunksOk(f, id) && Load(f, id).Success?
    ensures var n := Load(f, id).value.totalChunks;
            AllReceived(Received(f, id), n) <==>
            n <= 1_000_000 && forall i: nat :: i < n ==> ChunkPath(id, i) in f
  {
    hide ChunksOk, Received, ChunkPath, TotalChunks;
    var n := Load(f, id).value.totalChunks;
    var r := Received(f, id);
    if AllReceived(r, n) {
      AllStored(f, id, n);
      forall i: nat | i < n ensures ChunkPath(id, i) in f { assert ChunkOk(f, id, i); }
    }
    if n <= 1_000_000 && forall i: nat :: i < n ==> ChunkPath(id, i) in f {
      forall i: nat | i < n ensures i in r { Lists(f, id, i); }
      forall i: nat | i in r ensures i < n {
        var j := ListedFrom(f, id, i);
        ScanPad6(j);
      }
      assert r == Below(n);
    }
  }

  lemma Lists(f: Files, id: string, i: nat)
    requires SlashFree(id) && i < 1_000_000 && ChunkPath(id, i) in f
    ensures i in Received(f, id)
  {
    hide Pad6;
    IndexInverts(id, i);
    ChunkPathFacts(id, i);
  }

  function Below(n: nat): (s: set<nat>)
    ensures |s| == n && forall i: nat :: i in s <==> i < n
  {
    if n == 0 then {} else Below(n - 1) + {n - 1}
  }

  /** In every run a marker stands only beside a session, and only if the daemon accepted
      the upload, as that session announced it: same size, same checksum, same target. */
  lemma DoneMeansAccepted(cfg: Config, steps: seq<Step>, id: string) returns (k: nat)
    requires Run(cfg, steps).Some? && SlashFree(id) && DonePath(id) in Run(cfg, steps).value.files
    ensures var w := Run(cfg, steps).value;
            && k < |w.log| && w.log[k].accepted && w.log[k].uploadID == id
            && GoodDispatch(cfg, w.log[k])
            && Load(w.files, id).Success? && Announced(Load(w.files, id).value, w.log[k])
  {
    hide Run, ChunksOk, KnownOk, Announced;
    RunInv(cfg, steps);
    var w := Run(cfg, steps).value;
    InOrder(w, id);
    k :| 0 <= k < |w.log| && w.log[k].accepted && w.log[k].uploadID == id;
  }
}
