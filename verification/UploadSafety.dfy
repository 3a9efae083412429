/** What every run of the upload operations keeps. */
module UploadSafety {
  import opened Wrappers
  import opened Bits
  import opened Text
  import opened UploadPaths
  import opened Upload

  predicate SlashFree(id: string) { '/' !in id }

  /** A session as Create makes them. */
  predicate SessionOk(s: Session, id: string) {
    && s.uploadID == id
    && s.totalSize > 0 && s.chunkSize > 0
    && s.totalChunks == TotalChunks(s.totalSize, s.chunkSize)
  }

  /** A file under the chunk directory is one chunk of the session, of exactly its size. */
  predicate ChunkOk(files: Files, id: string, i: nat) {
    && Load(files, id).Success?
    && var s := Load(files, id).value;
    && i < s.totalChunks
    && ChunkPath(id, i) in files
    && files[ChunkPath(id, i)].Raw?
    && |files[ChunkPath(id, i)].bytes| == s.SizeOf(i)
  }

  function ChunkIndex(id: string, p: string): nat
    requires HasPrefix(p, ChunksPrefix(id))
  {
    var tail := p[|ChunksPrefix(id)|..];
    if AllDigits(tail) then DecimalValue(tail) else 0
  }

  predicate IsChunk(files: Files, id: string, p: string)
    requires HasPrefix(p, ChunksPrefix(id))
  {
    p == ChunkPath(id, ChunkIndex(id, p)) && ChunkOk(files, id, ChunkIndex(id, p))
  }

  ghost predicate ChunksOk(files: Files, id: string) {
    forall p :: p in files && HasPrefix(p, ChunksPrefix(id)) ==> IsChunk(files, id, p)
  }

  predicate MetaOk(files: Files, id: string) {
    MetadataPath(id) in files ==> Load(files, id).Success? && SessionOk(Load(files, id).value, id)
  }

  predicate Accepted(log: seq<Dispatch>, id: string) {
    exists k :: 0 <= k < |log| && log[k].accepted && log[k].uploadID == id
  }

  /** The bytes sent are as many as announced and have the announced checksum. */
  predicate GoodDispatch(cfg: Config, d: Dispatch) {
    |d.data| == d.totalSize && cfg.sha(d.data) == d.checksum
  }

  /** The daemon was told what the session announced when it was created. */
  predicate Announced(s: Session, d: Dispatch) {
    && d.uploadID == s.uploadID && d.nodeID == s.nodeID && d.fullPath == s.fullPath && d.user == s.suUser
    && d.totalSize == s.totalSize && d.checksum == s.expectedChecksum
  }

  /** Every dispatch of an upload whose session still stands agrees with it. */
  ghost predicate AnnouncedOk(w: World) {
    forall k :: 0 <= k < |w.log| && Load(w.files, w.log[k].uploadID).Success? ==>
      Announced(Load(w.files, w.log[k].uploadID).value, w.log[k])
  }

  /** The marker stands only for an upload the daemon accepted. */
  predicate DoneOk(w: World, id: string) {
    DonePath(id) in w.files ==> MetadataPath(id) in w.files && Accepted(w.log, id)
  }

  ghost predicate UploadOk(w: World, id: string) {
    MetaOk(w.files, id) && ChunksOk(w.files, id) && DoneOk(w, id)
  }

  ghost predicate UploadsOk(w: World) {
    forall id :: SlashFree(id) ==> UploadOk(w, id)
  }

  /** Only uploads that were created have metadata, are logged or wait for clean-up. */
  ghost predicate KnownOk(w: World) {
    && (forall id :: id in w.used ==> SlashFree(id) && id != "")
    && (forall id :: MetadataPath(id) in w.files ==> id in w.used)
    && (forall id :: id in w.pending ==> id in w.used)
    && (forall k :: 0 <= k < |w.log| ==> w.log[k].uploadID in w.used)
  }

  ghost predicate LogOk(cfg: Config, w: World) {
    forall k :: 0 <= k < |w.log| ==> GoodDispatch(cfg, w.log[k])
  }

  ghost predicate Inv(cfg: Config, w: World) { UploadsOk(w) && KnownOk(w) && LogOk(cfg, w) && AnnouncedOk(w) }

  // ---------------------------------------------------------------------------
  // Paths of one upload
  // ---------------------------------------------------------------------------

  lemma UnderRoot(id: string)
    ensures HasPrefix(MetadataPath(id), TransferRoot(id)) && HasPrefix(DataPath(id), TransferRoot(id))
    ensures HasPrefix(DonePath(id), TransferRoot(id))
    ensures !HasPrefix(MetadataPath(id), ChunksPrefix(id)) && !HasPrefix(DataPath(id), ChunksPrefix(id))
    ensures !HasPrefix(DonePath(id), ChunksPrefix(id))
    ensures MetadataPath(id) != DataPath(id) && MetadataPath(id) != DonePath(id) && DataPath(id) != DonePath(id)
  {
    var k := |TransferRoot(id)|;
    assert MetadataPath(id)[k] == 'u' && DataPath(id)[k..] == "data" && DonePath(id)[k..] == "done";
    assert DataPath(id)[k + 1] == 'a' && DonePath(id)[k + 1] == 'o';
    assert ChunksPrefix(id)[k] == 'c';
  }

  lemma ChunksUnderRoot(id: string, p: string)
    requires HasPrefix(p, ChunksPrefix(id))
    ensures HasPrefix(p, TransferRoot(id))
  {
    assert ChunksPrefix(id)[..|TransferRoot(id)|] == TransferRoot(id);
    assert p[..|TransferRoot(id)|] == TransferRoot(id);
  }

  lemma ChunkPathFacts(id: string, i: nat)
    ensures HasPrefix(ChunkPath(id, i), ChunksPrefix(id)) && HasPrefix(ChunkPath(id, i), TransferRoot(id))
    ensures ChunkIndex(id, ChunkPath(id, i)) == i
  {
    ChunksUnderRoot(id, ChunkPath(id, i));
    assert ChunkPath(id, i)[|ChunksPrefix(id)|..] == Pad6(i);
    Pad6Value(i);
  }

  lemma MetadataPathInjective(a: string, b: string)
    requires MetadataPath(a) == MetadataPath(b)
    ensures a == b
  {
    var k, m := |TRANSFER_PREFIX|, |MetadataPath(a)|;
    assert |a| == |b|;
    assert MetadataPath(a)[k..k + |a|] == a && MetadataPath(b)[k..k + |b|] == b;
  }

  /** Two storages hold the same files under one upload. */
  ghost predicate SameUnder(f: Files, g: Files, id: string) {
    forall p :: HasPrefix(p, TransferRoot(id)) ==> (p in f <==> p in g) && (p in f ==> f[p] == g[p])
  }

  lemma LoadSame(f: Files, g: Files, id: string)
    requires SameUnder(f, g, id)
    ensures Load(f, id) == Load(g, id)
  {
    UnderRoot(id);
  }

  lemma ChunksSame(f: Files, g: Files, id: string)
    requires SameUnder(f, g, id) && ChunksOk(f, id)
    ensures ChunksOk(g, id)
  {
    LoadSame(f, g, id);
    forall p | p in g && HasPrefix(p, ChunksPrefix(id)) ensures IsChunk(g, id, p) {
      ChunksUnderRoot(id, p);
      assert IsChunk(f, id, p);
    }
  }

  /** An upload whose files stay the same stays in order while the log only grows. */
  lemma UploadSame(w: World, v: World, id: string)
    requires SameUnder(w.files, v.files, id) && w.log <= v.log && UploadOk(w, id)
    ensures UploadOk(v, id)
  {
    hide ChunksOk, SameUnder, Load;
    LoadSame(w.files, v.files, id);
    ChunksSame(w.files, v.files, id);
    RootFilesSame(w.files, v.files, id);
    AcceptedGrows(w.log, v.log, id);
  }

  lemma RootFilesSame(f: Files, g: Files, id: string)
    requires SameUnder(f, g, id)
    ensures MetadataPath(id) in f <==> MetadataPath(id) in g
    ensures DonePath(id) in f <==> DonePath(id) in g
  {
    UnderRoot(id);
  }

  lemma AcceptedGrows(a: seq<Dispatch>, b: seq<Dispatch>, id: string)
    requires a <= b
    ensures Accepted(a, id) ==> Accepted(b, id)
  {
    if Accepted(a, id) {
      var k :| 0 <= k < |a| && a[k].accepted && a[k].uploadID == id;
      assert b[k] == a[k];
    }
  }

  // ---------------------------------------------------------------------------
  // Isolation: an operation on one upload leaves the files of every other alone
  // ---------------------------------------------------------------------------

  ghost predicate ChangesOnly(f: Files, g: Files, id: string) {
    forall p :: !HasPrefix(p, TransferRoot(id)) ==> (p in f <==> p in g) && (p in f ==> f[p] == g[p])
  }

  lemma OperationChangesOnly(cfg: Config, w: World, step: Step)
    requires !step.SweepStep?
    ensures ChangesOnly(w.files, Apply(cfg, w, step).files, step.id)
  {
    hide Received, AllReceived, Assembled, Load, Denied, NewSession, ReadLimited, SafeChunkLimit, Pad6;
    UnderRoot(step.id);
    if step.WriteStep? { ChunkPathFacts(step.id, step.index); }
    if step.CleanupStep? {
      forall p | HasPrefix(p, ChunksPrefix(step.id)) ensures HasPrefix(p, TransferRoot(step.id)) {
        ChunksUnderRoot(step.id, p);
      }
    }
  }

  lemma OthersSame(f: Files, g: Files, id: string, other: string)
    requires ChangesOnly(f, g, id) && SlashFree(id) && SlashFree(other) && id != other
    ensures SameUnder(f, g, other)
  {
    forall p | HasPrefix(p, TransferRoot(other)) ensures !HasPrefix(p, TransferRoot(id)) {
      if HasPrefix(p, TransferRoot(id)) { RootsDisjoint(id, other, p); }
    }
  }

  /** No operation on one upload touches the files of another. */
  lemma Isolated(cfg: Config, w: World, step: Step, other: string)
    requires Inv(cfg, w) && Enabled(w, step)
    requires !step.SweepStep? && SlashFree(other) && step.id != other
    ensures SameUnder(w.files, Apply(cfg, w, step).files, other)
  {
    if SlashFree(step.id) {
      OperationChangesOnly(cfg, w, step);
      OthersSame(w.files, Apply(cfg, w, step).files, step.id, other);
    } else {
      UnknownIgnored(cfg, w, step);
    }
  }

  /** An ID that was never handed out changes nothing. */
  lemma UnknownIgnored(cfg: Config, w: World, step: Step)
    requires KnownOk(w) && Enabled(w, step)
    requires step.WriteStep? || step.CompleteStep? || step.AbortStep? || step.CleanupStep?
    requires step.id !in w.used
    ensures Apply(cfg, w, step) == w
  {
    hide Received, Assembled, NewSession, ReadLimited, MetadataPath, ChunkPath;
  }

  lemma UploadsStep(w: World, v: World, id: string)
    requires UploadsOk(w) && SlashFree(id) && ChangesOnly(w.files, v.files, id) && w.log <= v.log && UploadOk(v, id)
    ensures UploadsOk(v)
  {
    hide UploadOk, ChangesOnly, SameUnder;
    forall other | SlashFree(other) ensures UploadOk(v, other) {
      if other != id {
        OthersSame(w.files, v.files, id, other);
        UploadSame(w, v, other);
      }
    }
  }

  // ---------------------------------------------------------------------------
  // Each operation keeps its own upload in order
  // ---------------------------------------------------------------------------

  /** Removing chunk files, or touching others, keeps the remaining chunks in order. */
  lemma FewerChunks(f: Files, g: Files, id: string)
    requires ChunksOk(f, id) && Load(f, id) == Load(g, id)
    requires forall p :: p in g && HasPrefix(p, ChunksPrefix(id)) ==> p in f && f[p] == g[p]
    ensures ChunksOk(g, id)
  {
    hide Load;
    forall p | p in g && HasPrefix(p, ChunksPrefix(id)) ensures IsChunk(g, id, p) {
      assert IsChunk(f, id, p);
    }
  }

  lemma FreshHasNothing(w: World, id: string)
    requires UploadsOk(w) && KnownOk(w) && SlashFree(id) && id !in w.used
    ensures forall p :: p in w.files ==> !HasPrefix(p, ChunksPrefix(id))
    ensures DonePath(id) !in w.files
  {
    assert UploadOk(w, id);
    ChunksNeedMetadata(w.files, id);
  }

  lemma ChunksNeedMetadata(f: Files, id: string)
    requires ChunksOk(f, id)
    ensures forall p :: p in f && HasPrefix(p, ChunksPrefix(id)) ==> MetadataPath(id) in f
  {
    forall p | p in f && HasPrefix(p, ChunksPrefix(id)) ensures MetadataPath(id) in f {
      assert IsChunk(f, id, p);
    }
  }

  lemma CreateKeeps(cfg: Config, w: World, p: Params, id: string, now: int)
    requires UploadsOk(w) && KnownOk(w) && SlashFree(id) && id !in w.used
    ensures UploadOk(Create(cfg, w, p, id, now), id)
  {
    hide TotalChunks, IsHexSHA256, ToLower;
    FreshHasNothing(w, id);
    UnderRoot(id);
    assert UploadOk(w, id);
  }

  lemma StoredChunk(f: Files, id: string, i: nat, bytes: seq<byte>)
    requires ChunksOk(f, id) && Load(f, id).Success?
    requires i < Load(f, id).value.totalChunks && |bytes| == Load(f, id).value.SizeOf(i)
    ensures Load(f[ChunkPath(id, i) := Raw(bytes)], id) == Load(f, id)
    ensures ChunksOk(f[ChunkPath(id, i) := Raw(bytes)], id)
  {
    hide Pad6, ChunkSizeFor;
    var g := f[ChunkPath(id, i) := Raw(bytes)];
    ChunkPathFacts(id, i);
    UnderRoot(id);
    forall p | p in g && HasPrefix(p, ChunksPrefix(id)) ensures IsChunk(g, id, p) {
      if p != ChunkPath(id, i) { assert IsChunk(f, id, p); }
    }
  }

  lemma DroppedChunk(f: Files, id: string, i: nat)
    requires ChunksOk(f, id)
    ensures Load(Without(f, ChunkPath(id, i)), id) == Load(f, id)
    ensures ChunksOk(Without(f, ChunkPath(id, i)), id)
  {
    ChunkPathFacts(id, i);
    UnderRoot(id);
    FewerChunks(f, Without(f, ChunkPath(id, i)), id);
  }

  lemma WriteKeeps(w: World, id: string, user: nat, index: nat, body: Body, now: int)
    requires UploadOk(w, id)
    ensures UploadOk(WriteChunk(w, id, user, index, body, now).0, id)
  {
    hide ChunksOk, ReadLimited, SafeChunkLimit, Pad6, ChunkSizeFor, Denied;
    ChunkPathFacts(id, index);
    UnderRoot(id);
    var refused := ChunkRefused(w.files, id, user, index, now);
    if refused == None {
      var expected := Load(w.files, id).value.SizeOf(index);
      DroppedChunk(w.files, id, index);
      match ReadLimited(body, SafeChunkLimit(expected))
      case None =>
      case Some(content) =>
        if |content| == expected { StoredChunk(w.files, id, index, content); }
    }
  }

  lemma AbortKeeps(w: World, id: string, user: nat, now: int)
    requires UploadOk(w, id)
    ensures UploadOk(Abort(w, id, user, now).0, id)
  {
    hide Load, Denied;
    UnderRoot(id);
    RemovedKeeps(w, w.(files := WithoutPrefix(w.files, TransferRoot(id))), id);
  }

  /** An upload with no file left is in order. */
  lemma RemovedKeeps(w: World, v: World, id: string)
    requires forall p :: p in v.files ==> !HasPrefix(p, TransferRoot(id))
    ensures UploadOk(v, id)
  {
    UnderRoot(id);
    forall p | p in v.files ensures !HasPrefix(p, ChunksPrefix(id)) {
      if HasPrefix(p, ChunksPrefix(id)) { ChunksUnderRoot(id, p); }
    }
  }

  lemma CleanupKeeps(w: World, id: string)
    requires UploadOk(w, id)
    ensures UploadOk(Cleanup(w, id), id)
  {
    UnderRoot(id);
    FewerChunks(w.files, Cleanup(w, id).files, id);
  }

  // ---------------------------------------------------------------------------
  // Completion
  // ---------------------------------------------------------------------------

  /** A listed index comes from a stored chunk. */
  lemma ListedFrom(f: Files, id: string, i: nat) returns (j: nat)
    requires SlashFree(id) && ChunksOk(f, id) && i in Received(f, id)
    ensures ChunkOk(f, id, j) && Scan6(Pad6(j)) == Some(i)
  {
    var p :| p in f && HasPrefix(p, ChunksPrefix(id)) && IndexFromChunkPath(id, p) == Some(i);
    assert IsChunk(f, id, p);
    j := ChunkIndex(id, p);
    IndexInverts(id, j);
  }

  /** When the listing shows every chunk, every chunk is stored, and there are at most a
      million: a larger upload never looks complete. */
  lemma AllStored(f: Files, id: string, n: nat)
    requires SlashFree(id) && ChunksOk(f, id) && Load(f, id).Success? && n == Load(f, id).value.totalChunks
    requires AllReceived(Received(f, id), n)
    ensures n <= 1_000_000
    ensures forall i: nat :: i < n ==> ChunkOk(f, id, i)
  {
    hide Received, Scan6, Pad6, ChunksOk;
    assert n >= 1 ==> n - 1 in Received(f, id);
    if n >= 1 {
      var j := ListedFrom(f, id, n - 1);
      ScanPad6(j);
    }
    forall i: nat | i < n ensures ChunkOk(f, id, i) {
      var j := ListedFrom(f, id, i);
      ScanPad6(j);
      assert j < n;
    }
  }

  /** Assembling stored chunks gives as many bytes as their sizes add up to. */
  lemma {:induction false} AssembledSize(f: Files, id: string, n: nat)
    requires Load(f, id).Success? && n <= Load(f, id).value.totalChunks
    requires forall i: nat :: i < n ==> ChunkOk(f, id, i)
    ensures Assembled(f, id, n).Some?
    ensures var s := Load(f, id).value;
            |Assembled(f, id, n).value| == SizesUpTo(s.totalSize, s.chunkSize, s.totalChunks, n)
  {
    hide ChunkSizeFor, Pad6;
    if n > 0 {
      AssembledSize(f, id, n - 1);
      assert ChunkOk(f, id, n - 1);
    }
  }

  /** Whatever completion hands to the daemon has the announced size and checksum. */
  lemma AssembledWhole(f: Files, id: string)
    requires SlashFree(id) && MetaOk(f, id) && ChunksOk(f, id) && Load(f, id).Success?
    requires AllReceived(Received(f, id), Load(f, id).value.totalChunks)
    ensures var s := Load(f, id).value;
            && Assembled(f, id, s.totalChunks).Some?
            && |Assembled(f, id, s.totalChunks).value| == s.totalSize
  {
    hide ChunksOk, Received, AllReceived, ChunkOk, Assembled, ChunkSizeFor, SizesUpTo;
    var s := Load(f, id).value;
    AllStored(f, id, s.totalChunks);
    AssembledSize(f, id, s.totalChunks);
    ChunkSizesExact(s.totalSize, s.chunkSize);
  }

  /** Touching only the assembled data and the marker keeps the chunks in order. */
  lemma ChunksAside(f: Files, g: Files, id: string)
    requires ChunksOk(f, id)
    requires forall p :: p != DataPath(id) && p != DonePath(id) ==> (p in f <==> p in g) && (p in f ==> f[p] == g[p])
    ensures Load(f, id) == Load(g, id) && ChunksOk(g, id)
  {
    UnderRoot(id);
    FewerChunks(f, g, id);
  }

  lemma CompleteKeeps(cfg: Config, w: World, id: string, user: nat, node: Option<nat>, now: int,
                      accepted: bool, doneWritten: bool)
    requires UploadOk(w, id)
    ensures var v := Complete(cfg, w, id, user, node, now, accepted, doneWritten).0;
            w.log <= v.log && UploadOk(v, id)
  {
    hide ChunksOk, Received, AllReceived, Assembled, Denied;
    var v := Complete(cfg, w, id, user, node, now, accepted, doneWritten).0;
    UnderRoot(id);
    ChunksAside(w.files, v.files, id);
    AcceptedGrows(w.log, v.log, id);
    if v.log != w.log && accepted {
      assert v.log[|w.log|].accepted && v.log[|w.log|].uploadID == id;
    }
  }

  lemma CompleteLog(cfg: Config, w: World, id: string, user: nat, node: Option<nat>, now: int,
                    accepted: bool, doneWritten: bool)
    requires SlashFree(id) && UploadOk(w, id) && LogOk(cfg, w)
    ensures var v := Complete(cfg, w, id, user, node, now, accepted, doneWritten).0;
            && LogOk(cfg, v)
            && (v.log == w.log ||
                (MetadataPath(id) in w.files && |v.log| == |w.log| + 1 && v.log[..|w.log|] == w.log &&
                 v.log[|w.log|].uploadID == id && v.log[|w.log|].accepted == accepted))
  {
    hide ChunksOk, Received, AllReceived, Assembled, Denied, DoneOk;
    if CompletionRefused(w.files, id, user, node, now) == None {
      AssembledWhole(w.files, id);
    }
  }

  // ---------------------------------------------------------------------------
  // Every step, every run
  // ---------------------------------------------------------------------------

  lemma MetadataApart(x: string, id: string, i: nat)
    ensures MetadataPath(x) != ChunkPath(id, i) && MetadataPath(x) != DataPath(id) && MetadataPath(x) != DonePath(id)
  {
    var m := |MetadataPath(x)|;
    assert MetadataPath(x)[m - 1] == 'n';
    assert DataPath(id)[|DataPath(id)| - 1] == 'a' && DonePath(id)[|DonePath(id)| - 1] == 'e';
    var c := ChunkPath(id, i);
    assert c[|c| - 1] == Pad6(i)[|Pad6(i)| - 1];
  }

  /** No operation but Create makes metadata appear or changes it. */
  lemma MetadataOnlyCreated(cfg: Config, w: World, step: Step, x: string)
    requires MetadataPath(x) in Apply(cfg, w, step).files
    ensures || (step.CreateStep? && x == step.id)
            || (MetadataPath(x) in w.files && w.files[MetadataPath(x)] == Apply(cfg, w, step).files[MetadataPath(x)])
  {
    hide Received, AllReceived, Assembled, Load, Denied, ReadLimited, SafeChunkLimit, NewSession, ChunkPath, Swept,
      MetadataPath, DataPath, DonePath;
    if step.CreateStep? {
      if MetadataPath(x) == MetadataPath(step.id) { MetadataPathInjective(x, step.id); }
    } else if !step.SweepStep? {
      MetadataApart(x, step.id, if step.WriteStep? then step.index else 0);
    }
  }

  /** A session that stands was there before, unless it was just created. */
  lemma SessionKept(cfg: Config, w: World, step: Step, x: string)
    requires Load(Apply(cfg, w, step).files, x).Success? && !(step.CreateStep? && x == step.id)
    ensures Load(w.files, x) == Load(Apply(cfg, w, step).files, x)
  {
    hide Apply;
    MetadataOnlyCreated(cfg, w, step, x);
  }

  /** What completion asks the daemon is what the session announced. */
  lemma CompleteAnnounces(cfg: Config, w: World, step: Step)
    requires step.CompleteStep? && MetaOk(w.files, step.id) && Apply(cfg, w, step).log != w.log
    ensures var v := Apply(cfg, w, step);
            && Load(w.files, step.id).Success? && |v.log| == |w.log| + 1
            && Announced(Load(w.files, step.id).value, v.log[|w.log|])
  {
    hide Received, AllReceived, Assembled, Denied, MetadataPath, DataPath, DonePath;
  }

  lemma AnnouncedStep(cfg: Config, w: World, step: Step)
    requires Inv(cfg, w) && Enabled(w, step)
    ensures AnnouncedOk(Apply(cfg, w, step))
  {
    hide Apply, UploadOk, LogOk, Load, Announced;
    var v := Apply(cfg, w, step);
    LogStep(cfg, w, step);
    forall k | 0 <= k < |v.log| && Load(v.files, v.log[k].uploadID).Success?
      ensures Announced(Load(v.files, v.log[k].uploadID).value, v.log[k])
    {
      var id := v.log[k].uploadID;
      if k < |w.log| { assert w.log[k] == v.log[k]; }
      assert id in w.used;
      SessionKept(cfg, w, step, id);
      if k >= |w.log| {
        assert UploadOk(w, id);
        OwnMetadata(w, id);
        CompleteAnnounces(cfg, w, step);
      }
    }
  }

  lemma OwnMetadata(w: World, id: string)
    requires UploadOk(w, id)
    ensures MetaOk(w.files, id)
  {
  }

  lemma KnownStep(cfg: Config, w: World, step: Step)
    requires Inv(cfg, w) && Enabled(w, step)
    ensures KnownOk(Apply(cfg, w, step))
  {
    hide UploadsOk, LogOk, Create, WriteChunk, Complete, Abort, Cleanup, Sweep, MetadataPath;
    var v := Apply(cfg, w, step);
    LogStep(cfg, w, step);
    forall x | MetadataPath(x) in v.files ensures x in v.used {
      MetadataOnlyCreated(cfg, w, step, x);
    }
  }

  /** How the log, the used IDs and the pending clean-ups move. */
  lemma LogStep(cfg: Config, w: World, step: Step)
    requires Inv(cfg, w) && Enabled(w, step)
    ensures var v := Apply(cfg, w, step);
            && LogOk(cfg, v)
            && w.log <= v.log
            && v.used == (if step.CreateStep? then w.used + {step.id} else w.used)
            && (forall x :: x in v.pending ==> x in w.pending || x in w.used)
            && (forall k :: |w.log| <= k < |v.log| ==>
                  step.CompleteStep? && v.log[k].uploadID == step.id && v.log[k].accepted == step.accepted)
            && |v.log| <= |w.log| + 1
            && (v.log != w.log ==> step.id in w.used)
  {
    hide UploadsOk, Create, WriteChunk, Complete, Abort, Cleanup, Sweep, MetadataPath;
    if !step.CompleteStep? {
      QuietStep(cfg, w, step);
    } else if step.id in w.used {
      CompleteQuiet(cfg, w, step);
      CompleteLogged(cfg, w, step);
    } else {
      UnknownIgnored(cfg, w, step);
    }
  }

  lemma QuietStep(cfg: Config, w: World, step: Step)
    requires !step.CompleteStep?
    ensures var v := Apply(cfg, w, step);
            && v.log == w.log
            && v.used == (if step.CreateStep? then w.used + {step.id} else w.used)
            && forall x :: x in v.pending ==> x in w.pending
  {
    hide WriteChunk, Abort, Cleanup, Sweep, NewSession, MetadataPath;
    match step
    case WriteStep(id, user, index, body, now) => WriteQuiet(w, id, user, index, body, now);
    case AbortStep(id, user, now) => AbortQuiet(w, id, user, now);
    case CleanupStep(id) => CleanupQuiet(w, id);
    case _ =>
  }

  lemma WriteQuiet(w: World, id: string, user: nat, index: nat, body: Body, now: int)
    ensures WriteChunk(w, id, user, index, body, now).0.(files := w.files) == w
  {
    hide Load, Denied, ReadLimited, SafeChunkLimit, ChunkPath, DonePath;
  }

  lemma AbortQuiet(w: World, id: string, user: nat, now: int)
    ensures Abort(w, id, user, now).0.(files := w.files) == w
  {
    hide Load, Denied;
  }

  lemma CleanupQuiet(w: World, id: string)
    ensures Cleanup(w, id).log == w.log && Cleanup(w, id).used == w.used
    ensures forall x :: x in Cleanup(w, id).pending ==> x in w.pending
  {
    hide WithoutPrefix, Without;
  }

  lemma CompleteQuiet(cfg: Config, w: World, step: Step)
    requires step.CompleteStep? && step.id in w.used
    ensures var v := Apply(cfg, w, step);
            v.used == w.used && forall x :: x in v.pending ==> x in w.pending || x in w.used
  {
    hide Received, AllReceived, Assembled, Load, Denied, MetadataPath, DataPath, DonePath;
  }

  lemma CompleteLogged(cfg: Config, w: World, step: Step)
    requires Inv(cfg, w) && step.CompleteStep? && step.id in w.used
    ensures var v := Apply(cfg, w, step);
            && LogOk(cfg, v) && w.log <= v.log && |v.log| <= |w.log| + 1
            && (forall k :: |w.log| <= k < |v.log| ==>
                  v.log[k].uploadID == step.id && v.log[k].accepted == step.accepted)
  {
    hide Complete, UploadOk, MetadataPath;
    CompleteLog(cfg, w, step.id, step.user, step.node, step.now, step.accepted, step.doneWritten);
  }

  lemma SweptSame(files: Files, now: int, id: string)
    requires SlashFree(id) && id != "" && !HasExpired(files, id, now)
    ensures SameUnder(files, Sweep(files, now), id)
  {
    hide HasExpired, UploadIDFromPath;
    forall p | HasPrefix(p, TransferRoot(id)) ensures !Swept(files, now, p) {
      PrefixOfRoot(id, p);
      IDFromFullPath(p, id);
    }
  }

  lemma PrefixOfRoot(id: string, p: string)
    requires HasPrefix(p, TransferRoot(id))
    ensures HasPrefix(p, TRANSFER_PREFIX)
  {
    assert TransferRoot(id)[..|TRANSFER_PREFIX|] == TRANSFER_PREFIX;
    assert p[..|TRANSFER_PREFIX|] == TRANSFER_PREFIX;
  }

  lemma SweptGone(files: Files, now: int, id: string)
    requires SlashFree(id) && id != "" && HasExpired(files, id, now)
    ensures forall p :: p in Sweep(files, now) ==> !HasPrefix(p, TransferRoot(id))
  {
    hide HasExpired, UploadIDFromPath;
    forall p | HasPrefix(p, TransferRoot(id)) ensures Swept(files, now, p) {
      PrefixOfRoot(id, p);
      IDFromFullPath(p, id);
    }
  }

  /** A sweep removes an upload whole when its expiry has been reached, and otherwise leaves
      all of it. */
  lemma SweepExact(files: Files, now: int, id: string)
    requires SlashFree(id) && id != ""
    ensures HasExpired(files, id, now) ==> forall p :: p in Sweep(files, now) ==> !HasPrefix(p, TransferRoot(id))
    ensures !HasExpired(files, id, now) ==> SameUnder(files, Sweep(files, now), id)
  {
    hide Sweep, HasExpired;
    if HasExpired(files, id, now) { SweptGone(files, now, id); } else { SweptSame(files, now, id); }
  }

  /** The empty ID has no files to sweep. */
  lemma EmptyKept(files: Files, now: int)
    ensures SameUnder(files, Sweep(files, now), "")
  {
    hide HasExpired;
    forall p | HasPrefix(p, TransferRoot("")) ensures !Swept(files, now, p) {
      PrefixOfRoot("", p);
      assert p[|TRANSFER_PREFIX|..][0] == '/';
    }
  }

  lemma SweepKeeps(w: World, now: int)
    requires UploadsOk(w)
    ensures UploadsOk(w.(files := Sweep(w.files, now)))
  {
    hide UploadOk, Sweep, HasExpired, SameUnder;
    var v := w.(files := Sweep(w.files, now));
    forall id | SlashFree(id) ensures UploadOk(v, id) {
      if id == "" {
        EmptyKept(w.files, now);
        UploadSame(w, v, id);
      } else if HasExpired(w.files, id, now) {
        SweptGone(w.files, now, id);
        RemovedKeeps(w, v, id);
      } else {
        SweptSame(w.files, now, id);
        UploadSame(w, v, id);
      }
    }
  }

  lemma UploadStep(cfg: Config, w: World, step: Step)
    requires Inv(cfg, w) && Enabled(w, step) && !step.SweepStep? && SlashFree(step.id)
    ensures UploadOk(Apply(cfg, w, step), step.id)
  {
    hide UploadOk, Create, WriteChunk, Complete, Abort, Cleanup, KnownOk, LogOk;
    assert UploadOk(w, step.id);
    match step
    case CreateStep(p, id, now) => CreateKeeps(cfg, w, p, id, now);
    case WriteStep(id, user, index, body, now) => WriteKeeps(w, id, user, index, body, now);
    case CompleteStep(id, user, node, now, accepted, doneWritten) =>
      CompleteKeeps(cfg, w, id, user, node, now, accepted, doneWritten);
    case AbortStep(id, user, now) => AbortKeeps(w, id, user, now);
    case CleanupStep(id) => CleanupKeeps(w, id);
  }

  lemma StepInv(cfg: Config, w: World, step: Step)
    requires Inv(cfg, w) && Enabled(w, step)
    ensures Inv(cfg, Apply(cfg, w, step))
  {
    hide UploadsOk, UploadOk, LogOk, AnnouncedOk, Create, WriteChunk, Complete, Abort, Cleanup, Sweep, ChangesOnly;
    LogStep(cfg, w, step);
    KnownStep(cfg, w, step);
    AnnouncedStep(cfg, w, step);
    if step.SweepStep? {
      SweepKeeps(w, step.now);
    } else if SlashFree(step.id) {
      UploadStep(cfg, w, step);
      OperationChangesOnly(cfg, w, step);
      UploadsStep(w, Apply(cfg, w, step), step.id);
    } else {
      UnknownIgnored(cfg, w, step);
    }
  }

  lemma {:induction false} RunInv(cfg: Config, steps: seq<Step>)
    ensures Run(cfg, steps).Some? ==> Inv(cfg, Run(cfg, steps).value)
  {
    hide Apply, Enabled;
    if steps == [] {
      assert Inv(cfg, INIT);
    } else {
      var before := Run(cfg, steps[..|steps| - 1]);
      RunInv(cfg, steps[..|steps| - 1]);
      if before.Some? && Enabled(before.value, steps[|steps| - 1]) {
        StepInv(cfg, before.value, steps[|steps| - 1]);
      }
    }
  }
}
