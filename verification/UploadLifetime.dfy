/** Who may use an upload, how long it lives and what it leaves behind, told from the run. */
module UploadLifetime {
  import opened Wrappers
  import opened Bits
  import opened Text
  import opened UploadPaths
  import opened Upload
  import opened UploadSafety
  import opened UploadDelivery

  // ---------------------------------------------------------------------------
  // The creation of an upload
  // ---------------------------------------------------------------------------

  lemma UsedStep(cfg: Config, w: World, step: Step)
    ensures w.used <= Apply(cfg, w, step).used
    ensures step.CreateStep? ==> step.id in Apply(cfg, w, step).used
  {
    hide Received, AllReceived, Assembled, Load, Denied, ReadLimited, SafeChunkLimit, NewSession, ChunkPath, Swept,
      MetadataPath, DataPath, DonePath;
  }

  lemma {:induction false} CreatedIsUsed(cfg: Config, steps: seq<Step>, t: nat)
    requires Run(cfg, steps).Some? && t < |steps| && steps[t].CreateStep?
    ensures steps[t].id in Run(cfg, steps).value.used
  {
    hide Apply, Enabled;
    var n := |steps| - 1;
    UsedStep(cfg, Run(cfg, steps[..n]).value, steps[n]);
    if t < n { CreatedIsUsed(cfg, steps[..n], t); }
  }

  /** An ID is created once. */
  lemma {:induction false} CreatedOnce(cfg: Config, steps: seq<Step>, i: nat, j: nat)
    requires Run(cfg, steps).Some? && i < j < |steps| && steps[i].CreateStep? && steps[j].CreateStep?
    ensures steps[i].id != steps[j].id
  {
    hide Apply;
    var n := |steps| - 1;
    if j < n { CreatedOnce(cfg, steps[..n], i, j); } else { CreatedIsUsed(cfg, steps[..n], i); }
  }

  /** The upload was created at step t and its metadata still stands. */
  ghost predicate Stands(cfg: Config, steps: seq<Step>, t: nat, id: string) {
    && Run(cfg, steps).Some? && t < |steps| && steps[t].CreateStep? && steps[t].id == id
    && MetadataPath(id) in Run(cfg, steps).value.files
  }

  /** Its session is the one made then: same owner, node and size, expiring one lifetime later. */
  lemma StandingSession(cfg: Config, steps: seq<Step>, t: nat, id: string)
    requires Stands(cfg, steps, t, id)
    ensures SlashFree(id) && id != ""
    ensures var r := Load(Run(cfg, steps).value.files, id);
            && r.Success?
            && r.value.userID == steps[t].params.userID
            && r.value.expiresAt == steps[t].now + cfg.sessionTTL
            && r.value.nodeID == steps[t].params.nodeID && steps[t].params.totalSize > 0 && cfg.chunkSize > 0
            && r.value.totalChunks == TotalChunks(steps[t].params.totalSize, cfg.chunkSize)
  {
    hide Run, Creates;
    RunInv(cfg, steps);
    var w := Run(cfg, steps).value;
    CreatedIsUsed(cfg, steps, t);
    UsedNames(cfg, w, id);
    MetadataInOrder(cfg, w, id);
    var k := SessionCreated(cfg, steps, id);
    SessionFields(cfg, steps[k], Load(w.files, id).value);
    SessionOwner(cfg, steps[k], Load(w.files, id).value, id);
    CreatesCreates(cfg, steps[k], Load(w.files, id).value);
    if k < t { CreatedOnce(cfg, steps, k, t); }
    if t < k { CreatedOnce(cfg, steps, t, k); }
  }

  lemma UsedNames(cfg: Config, w: World, id: string)
    requires Inv(cfg, w) && id in w.used
    ensures SlashFree(id) && id != ""
  {
    hide UploadsOk, LogOk, AnnouncedOk;
  }

  lemma CreatesCreates(cfg: Config, step: Step, s: Session)
    requires Creates(cfg, step, s)
    ensures step.CreateStep?
  {
  }

  lemma SessionOwner(cfg: Config, step: Step, s: Session, id: string)
    requires Creates(cfg, step, s)
    ensures s.userID == step.params.userID && s.expiresAt == step.now + cfg.sessionTTL
    ensures s.nodeID == step.params.nodeID && step.params.totalSize > 0 && cfg.chunkSize > 0
    ensures s.totalChunks == TotalChunks(step.params.totalSize, cfg.chunkSize)
  {
    hide IsHexSHA256, ToLower, TotalChunks;
  }

  // ---------------------------------------------------------------------------
  // Expiry
  // ---------------------------------------------------------------------------

  /** A sweep goes by the stored metadata: without it, or with a file there that does not parse,
      everything stays; otherwise the upload goes whole once its set expiry is reached. */
  lemma SweepByMetadata(files: Files, now: int, id: string)
    requires SlashFree(id) && id != ""
    ensures var swept := Sweep(files, now);
            if MetadataPath(id) in files && files[MetadataPath(id)].Meta? &&
               var e := files[MetadataPath(id)].session.expiresAt; e != 0 && e <= now
            then forall p :: p in swept ==> !HasPrefix(p, TransferRoot(id))
            else SameUnder(files, swept, id)
  {
    hide Sweep, SameUnder, MetadataPath;
    SweepExact(files, now, id);
  }

  /** In every run, an upload that still stands loses all its files in a sweep if its lifetime
      since creation is over, and none of them otherwise. */
  lemma SweepByCreation(cfg: Config, steps: seq<Step>, t: nat, id: string, now: int)
    requires Stands(cfg, steps, t, id)
    ensures var e := steps[t].now + cfg.sessionTTL;
            var w, v := Run(cfg, steps).value, Apply(cfg, Run(cfg, steps).value, SweepStep(now));
            if e != 0 && e <= now
            then forall p :: p in v.files ==> !HasPrefix(p, TransferRoot(id))
            else SameUnder(w.files, v.files, id)
  {
    hide Run, Sweep, SameUnder, MetadataPath;
    StandingSession(cfg, steps, t, id);
    SweepByMetadata(Run(cfg, steps).value.files, now, id);
  }

  // ---------------------------------------------------------------------------
  // Access
  // ---------------------------------------------------------------------------

  /** What each operation answers to a caller whom the session does not admit. */
  ghost predicate Answers(cfg: Config, w: World, id: string, user: nat, now: int, e: Option<Error>) {
    && (forall index: nat, body :: WriteChunk(w, id, user, index, body, now).1 == e)
    && (forall node, accepted, doneWritten :: Complete(cfg, w, id, user, node, now, accepted, doneWritten).1 == e)
    && Abort(w, id, user, now).1 == e
  }

  /** In every run, an upload that still stands admits exactly its creator, until its lifetime
      is over: others are forbidden, and the creator is told that it has expired. */
  lemma AccessExactly(cfg: Config, steps: seq<Step>, t: nat, id: string, user: nat, now: int)
    requires Stands(cfg, steps, t, id)
    ensures var w, e := Run(cfg, steps).value, steps[t].now + cfg.sessionTTL;
            if user != steps[t].params.userID then Answers(cfg, w, id, user, now, Some(Forbidden))
            else if e != 0 && now > e then Answers(cfg, w, id, user, now, Some(Expired))
            else
              && (forall index: nat, body ::
                    WriteChunk(w, id, user, index, body, now).1 !in {Some(Forbidden), Some(Expired)})
              && (forall node, accepted, doneWritten ::
                    Complete(cfg, w, id, user, node, now, accepted, doneWritten).1 !in {Some(Forbidden), Some(Expired)})
              && Abort(w, id, user, now).1 == None
  {
    hide Run, WriteChunk, Complete, Abort;
    StandingSession(cfg, steps, t, id);
    var w := Run(cfg, steps).value;
    var d := Denied(Load(w.files, id).value, user, now);
    forall index: nat, body {:trigger WriteChunk(w, id, user, index, body, now)}
      ensures var r := WriteChunk(w, id, user, index, body, now).1;
              if d.Some? then r == d else r !in {Some(Forbidden), Some(Expired)}
    {
      WriteAccess(w, id, user, index, body, now);
    }
    forall node, accepted, doneWritten {:trigger Complete(cfg, w, id, user, node, now, accepted, doneWritten)}
      ensures var r := Complete(cfg, w, id, user, node, now, accepted, doneWritten).1;
              if d.Some? then r == d else r !in {Some(Forbidden), Some(Expired)}
    {
      CompleteAccess(cfg, w, id, user, node, now, accepted, doneWritten);
    }
    AbortAccess(w, id, user, now);
  }

  lemma WriteAccess(w: World, id: string, user: nat, index: nat, body: Body, now: int)
    requires Load(w.files, id).Success?
    ensures var r, d := WriteChunk(w, id, user, index, body, now).1, Denied(Load(w.files, id).value, user, now);
            if d.Some? then r == d else r !in {Some(Forbidden), Some(Expired)}
  {
    hide Load, ReadLimited, SafeChunkLimit, ChunkSizeFor, ChunkPath, DonePath;
  }

  lemma CompleteAccess(cfg: Config, w: World, id: string, user: nat, node: Option<nat>, now: int,
                       accepted: bool, doneWritten: bool)
    requires Load(w.files, id).Success?
    ensures var r := Complete(cfg, w, id, user, node, now, accepted, doneWritten).1;
            var d := Denied(Load(w.files, id).value, user, now);
            if d.Some? then r == d else r !in {Some(Forbidden), Some(Expired)}
  {
    hide Load, Received, AllReceived, Assembled, DataPath, DonePath;
  }

  lemma AbortAccess(w: World, id: string, user: nat, now: int)
    requires Load(w.files, id).Success?
    ensures Abort(w, id, user, now).1 == Denied(Load(w.files, id).value, user, now)
  {
    hide Load, Denied;
  }

  /** An admitted abort leaves no file of the upload. */
  lemma AbortRemovesAll(cfg: Config, steps: seq<Step>, t: nat, id: string, user: nat, now: int)
    requires Stands(cfg, steps, t, id)
    ensures var w, e := Run(cfg, steps).value, steps[t].now + cfg.sessionTTL;
            var v := Apply(cfg, w, AbortStep(id, user, now));
            if user == steps[t].params.userID && (e == 0 || now <= e)
            then forall p :: p in v.files ==> !HasPrefix(p, TransferRoot(id))
            else v == w
  {
    hide Run;
    StandingSession(cfg, steps, t, id);
  }

  // ---------------------------------------------------------------------------
  // What stays in storage
  // ---------------------------------------------------------------------------

  /** Every file of the upload is its metadata, assembled data, marker or a chunk. */
  ghost predicate OnlyKnown(files: Files, id: string) {
    forall p :: p in files && HasPrefix(p, TransferRoot(id)) ==>
      p in {MetadataPath(id), DataPath(id), DonePath(id)} || HasPrefix(p, ChunksPrefix(id))
  }

  /** Assembled data stands only while a clean-up is to come. */
  predicate DataAwaitsCleanup(w: World, id: string) { DataPath(id) in w.files ==> id in w.pending }

  lemma OwnFiles(cfg: Config, w: World, step: Step)
    requires !step.SweepStep? && OnlyKnown(w.files, step.id)
    ensures OnlyKnown(Apply(cfg, w, step).files, step.id)
  {
    hide Received, AllReceived, Assembled, Load, Denied, NewSession, ReadLimited, SafeChunkLimit, MetadataPath, DataPath,
      DonePath, ChunkPath;
    if step.WriteStep? { ChunkPathFacts(step.id, step.index); }
  }

  lemma OwnData(cfg: Config, w: World, step: Step)
    requires !step.SweepStep? && DataAwaitsCleanup(w, step.id)
    ensures DataAwaitsCleanup(Apply(cfg, w, step), step.id)
  {
    hide Received, AllReceived, Assembled, Load, Denied, NewSession, ReadLimited, SafeChunkLimit, MetadataPath, DataPath,
      DonePath, ChunkPath;
    UnderRoot(step.id);
    if step.WriteStep? { ChunkPathFacts(step.id, step.index); }
  }

  lemma SameFiles(f: Files, g: Files, id: string)
    requires SameUnder(f, g, id)
    ensures OnlyKnown(f, id) ==> OnlyKnown(g, id)
    ensures DataPath(id) in f <==> DataPath(id) in g
  {
    hide MetadataPath, DataPath, DonePath;
    UnderRoot(id);
  }

  lemma PendingElsewhere(cfg: Config, w: World, step: Step, id: string)
    requires step.SweepStep? || step.id != id
    ensures id in w.pending ==> id in Apply(cfg, w, step).pending
  {
    hide Received, AllReceived, Assembled, Load, Denied, NewSession, ReadLimited, SafeChunkLimit, MetadataPath, DataPath,
      DonePath, ChunkPath, Swept;
  }

  lemma SweptFiles(w: World, now: int, id: string)
    ensures OnlyKnown(w.files, id) ==> OnlyKnown(Sweep(w.files, now), id)
    ensures DataPath(id) in Sweep(w.files, now) ==> DataPath(id) in w.files
  {
    hide Swept, MetadataPath, DataPath, DonePath;
  }

  /** In every run the files of an upload are those four kinds, and assembled data is never
      left without a clean-up to come. */
  lemma {:induction false} FilesOfUpload(cfg: Config, steps: seq<Step>, id: string)
    requires Run(cfg, steps).Some? && SlashFree(id)
    ensures OnlyKnown(Run(cfg, steps).value.files, id) && DataAwaitsCleanup(Run(cfg, steps).value, id)
  {
    hide Apply, Enabled, Inv, OnlyKnown, DataPath;
    if steps == [] {
      NoFiles(id);
    } else {
      var n := |steps| - 1;
      var w, step := Run(cfg, steps[..n]).value, steps[n];
      FilesOfUpload(cfg, steps[..n], id);
      RunInv(cfg, steps[..n]);
      if !step.SweepStep? && step.id == id {
        OwnFiles(cfg, w, step);
        OwnData(cfg, w, step);
      } else {
        PendingElsewhere(cfg, w, step, id);
        OtherFiles(cfg, w, step, id);
      }
    }
  }

  lemma OtherFiles(cfg: Config, w: World, step: Step, id: string)
    requires Inv(cfg, w) && Enabled(w, step) && SlashFree(id) && (step.SweepStep? || step.id != id)
    ensures OnlyKnown(w.files, id) ==> OnlyKnown(Apply(cfg, w, step).files, id)
    ensures DataPath(id) in Apply(cfg, w, step).files ==> DataPath(id) in w.files
  {
    hide Inv, OnlyKnown, SameUnder, Create, Abort, Cleanup, WriteChunk, Complete, Sweep, DataPath;
    if step.SweepStep? {
      SweptFiles(w, step.now, id);
    } else {
      Isolated(cfg, w, step, id);
      SameFiles(w.files, Apply(cfg, w, step).files, id);
    }
  }

  lemma NoFiles(id: string)
    ensures OnlyKnown(INIT.files, id)
  {
  }

  /** After its clean-up an upload keeps exactly its metadata and its marker. */
  lemma CleanupLeaves(cfg: Config, steps: seq<Step>, id: string, p: string)
    requires Run(cfg, steps).Some? && SlashFree(id) && HasPrefix(p, TransferRoot(id))
    ensures var w := Run(cfg, steps).value;
            p in Apply(cfg, w, CleanupStep(id)).files <==> p in w.files && (p == MetadataPath(id) || p == DonePath(id))
  {
    hide Run, MetadataPath, DataPath, DonePath;
    FilesOfUpload(cfg, steps, id);
    UnderRoot(id);
  }

  /** The creator asks in time. */
  predicate Admitted(cfg: Config, step: Step, user: nat, now: int)
    requires step.CreateStep?
  {
    var e := step.now + cfg.sessionTTL;
    user == step.params.userID && (e == 0 || now <= e)
  }

  /** Once an upload is done, its creator's chunks are turned away and completing it again from
      its own node succeeds; neither changes anything. */
  lemma DoneAnswers(cfg: Config, steps: seq<Step>, t: nat, id: string, user: nat, now: int, index: nat, body: Body,
                    node: Option<nat>, accepted: bool, doneWritten: bool)
    requires Stands(cfg, steps, t, id) && Admitted(cfg, steps[t], user, now)
    requires DonePath(id) in Run(cfg, steps).value.files
    ensures var w := Run(cfg, steps).value;
            && WriteChunk(w, id, user, index, body, now) == (w, Some(AlreadyDone))
            && Complete(cfg, w, id, user, node, now, accepted, doneWritten) ==
               (w, if node == Some(steps[t].params.nodeID) then None else Some(NodeMismatch))
  {
    hide Run, Load, DonePath, MetadataPath;
    StandingSession(cfg, steps, t, id);
  }

  /** Until then a chunk is refused for its number exactly if it would start at or beyond the end
      of the upload; where the ceiling wraps only the first chunk is taken. */
  lemma IndexExactly(cfg: Config, steps: seq<Step>, t: nat, id: string, user: nat, now: int, index: nat, body: Body)
    requires Stands(cfg, steps, t, id) && Admitted(cfg, steps[t], user, now)
    requires DonePath(id) !in Run(cfg, steps).value.files
    ensures var total := steps[t].params.totalSize;
            WriteChunk(Run(cfg, steps).value, id, user, index, body, now).1 == Some(InvalidIndex) <==>
            if CeilingWraps(total, cfg.chunkSize) then index >= 1 else index * cfg.chunkSize >= total
  {
    hide Run, Load, DonePath, MetadataPath, TotalChunks, ChunkSizeFor, ReadLimited, SafeChunkLimit;
    StandingSession(cfg, steps, t, id);
    var total := steps[t].params.totalSize;
    if CeilingWraps(total, cfg.chunkSize) {
      WrappedCeiling(total, cfg.chunkSize);
    } else {
      ExactCeiling(total, cfg.chunkSize);
      CeilingFits(total, cfg.chunkSize, index);
    }
  }

  /** Aborting an upload that is not there succeeds and changes nothing; one whose metadata does
      not parse is left alone. */
  lemma AbortUnknown(w: World, id: string, user: nat, now: int)
    requires MetadataPath(id) !in w.files || !w.files[MetadataPath(id)].Meta?
    ensures Abort(w, id, user, now) == (w, if MetadataPath(id) in w.files then Some(Unreadable) else None)
  {
    hide MetadataPath;
  }

  /** A completion changes at most the assembled data and the marker. Refused, it changes nothing;
      failed, it leaves no data; accepted, the data is the chunks in order and a clean-up is to
      come. */
  lemma CompleteLeaves(cfg: Config, w: World, id: string, user: nat, node: Option<nat>, now: int,
                       accepted: bool, doneWritten: bool)
    ensures var (v, e) := Complete(cfg, w, id, user, node, now, accepted, doneWritten);
            var dp, mp := DataPath(id), DonePath(id);
            && (forall p :: p != dp && p != mp ==>
                  (p in w.files <==> p in v.files) && (p in w.files ==> w.files[p] == v.files[p]))
            && if CompletionRefused(w.files, id, user, node, now).Some? then v == w
               else if e.Some? then dp !in v.files && v.pending == w.pending && (mp in v.files <==> mp in w.files)
               else
                 && v.pending == w.pending + multiset{id} && (mp in v.files <==> doneWritten)
                 && dp in v.files && v.files[dp].Raw?
                 && Assembled(w.files, id, Load(w.files, id).value.totalChunks) == Some(v.files[dp].bytes)
  {
    hide Received, AllReceived, Assembled, Denied, MetadataPath;
    UnderRoot(id);
  }

  function CleanUps(steps: seq<Step>, id: string): nat {
    if steps == [] then 0
    else CleanUps(steps[..|steps| - 1], id) + (if steps[|steps| - 1] == CleanupStep(id) then 1 else 0)
  }

  function Acceptances(log: seq<Dispatch>, id: string): nat {
    if log == [] then 0
    else
      var d := log[|log| - 1];
      Acceptances(log[..|log| - 1], id) + (if d.accepted && d.uploadID == id then 1 else 0)
  }

  lemma AcceptancesSnoc(log: seq<Dispatch>, d: Dispatch, id: string)
    ensures Acceptances(log + [d], id) == Acceptances(log, id) + (if d.accepted && d.uploadID == id then 1 else 0)
  {
    assert (log + [d])[..|log|] == log;
  }

  /** From w to v, with this many clean-ups of the upload run between. */
  predicate Balances(w: World, v: World, id: string, run: nat) {
    v.pending[id] + run - w.pending[id] == Acceptances(v.log, id) - Acceptances(w.log, id)
  }

  /** A completion logs nothing, or one dispatch; one that is accepted asks for one clean-up. */
  lemma CompletionLogs(cfg: Config, w: World, id: string, user: nat, node: Option<nat>, now: int,
                       accepted: bool, doneWritten: bool)
    ensures var v := Complete(cfg, w, id, user, node, now, accepted, doneWritten).0;
            || (v.log == w.log && v.pending == w.pending)
            || (&& |v.log| == |w.log| + 1 && v.log == w.log + [v.log[|w.log|]]
                && Load(w.files, id).Success? && v.log[|w.log|].uploadID == Load(w.files, id).value.uploadID
                && v.log[|w.log|].accepted == accepted
                && v.pending == if accepted then w.pending + multiset{id} else w.pending)
  {
    hide Received, AllReceived, Assembled, Denied, DataPath, DonePath, MetadataPath;
  }

  lemma CompletionPends(cfg: Config, w: World, step: Step, id: string)
    requires step.CompleteStep? && Inv(cfg, w)
    ensures Balances(w, Apply(cfg, w, step), id, 0)
  {
    hide Complete, Load, Inv;
    CompletionLogs(cfg, w, step.id, step.user, step.node, step.now, step.accepted, step.doneWritten);
    var v := Apply(cfg, w, step);
    if v.log != w.log {
      SessionNamed(cfg, w, step.id);
      AcceptancesSnoc(w.log, v.log[|w.log|], id);
    }
  }

  lemma SessionNamed(cfg: Config, w: World, id: string)
    requires Inv(cfg, w) && Load(w.files, id).Success?
    ensures Load(w.files, id).value.uploadID == id
  {
    hide ChunksOk, DoneOk, MetadataPath;
    assert SlashFree(id);
    assert UploadOk(w, id);
  }

  lemma PendingStep(cfg: Config, w: World, step: Step, id: string)
    requires Inv(cfg, w) && Enabled(w, step)
    ensures Balances(w, Apply(cfg, w, step), id, if step == CleanupStep(id) then 1 else 0)
  {
    hide Inv, Complete, Received, Assembled, Denied, Load, NewSession, DataPath, DonePath, MetadataPath, ChunkPath,
      ReadLimited, SafeChunkLimit, Sweep;
    if step.CompleteStep? { CompletionPends(cfg, w, step, id); }
  }

  /** In every run the clean-ups run and still to run are as many as the accepted dispatches. */
  lemma {:induction false} CleanUpsBalance(cfg: Config, steps: seq<Step>, id: string)
    requires Run(cfg, steps).Some?
    ensures var w := Run(cfg, steps).value;
            w.pending[id] + CleanUps(steps, id) == Acceptances(w.log, id)
  {
    hide Apply, Enabled, Inv;
    if steps != [] {
      var n := |steps| - 1;
      CleanUpsBalance(cfg, steps[..n], id);
      RunInv(cfg, steps[..n]);
      PendingStep(cfg, Run(cfg, steps[..n]).value, steps[n], id);
    }
  }

  // ---------------------------------------------------------------------------
  // What is taken
  // ---------------------------------------------------------------------------

  /** A chunk write changes at most its own chunk: it holds the body if it was taken, is as
      before if it was refused unread, and is gone otherwise. */
  lemma WriteLeaves(w: World, id: string, user: nat, index: nat, body: Body, now: int)
    ensures var v, cp := WriteChunk(w, id, user, index, body, now).0, ChunkPath(id, index);
            && v.(files := w.files) == w
            && (forall p :: p != cp ==> (p in w.files <==> p in v.files) && (p in w.files ==> w.files[p] == v.files[p]))
            && if ChunkRefused(w.files, id, user, index, now).Some? then v == w
               else if WriteChunk(w, id, user, index, body, now).1.Some? then cp !in v.files
               else
                 && cp in v.files && v.files[cp].Raw? && v.files[cp].bytes <= body.bytes
                 && |v.files[cp].bytes| == Load(w.files, id).value.SizeOf(index)
  {
    hide Load, Denied, ChunkSizeFor, ChunkPath, DonePath;
  }

  /** An upload is accepted exactly if it is not empty, its checksum is 64 hexadecimal digits,
      chunks are cut, and it fits into the allowed number of them; where the ceiling wraps it
      counts as one chunk and always fits. */
  lemma CreateExactly(cfg: Config, p: Params, id: string, now: int)
    ensures NewSession(cfg, p, id, now).Success? <==>
            && p.totalSize > 0 && IsHexSHA256(p.expectedChecksum) && cfg.chunkSize > 0
            && (cfg.maxChunks > 0 ==>
                  CeilingWraps(p.totalSize, cfg.chunkSize) || p.totalSize <= cfg.maxChunks * cfg.chunkSize)
  {
    hide IsHexSHA256, ToLower, TotalChunks;
    if p.totalSize > 0 && cfg.chunkSize > 0 {
      if CeilingWraps(p.totalSize, cfg.chunkSize) {
        WrappedCeiling(p.totalSize, cfg.chunkSize);
      } else {
        ExactCeiling(p.totalSize, cfg.chunkSize);
        CeilingFits(p.totalSize, cfg.chunkSize, cfg.maxChunks);
      }
    }
  }

  lemma CeilingFits(total: nat, chunk: nat, m: nat)
    requires total > 0 && chunk > 0
    ensures (total + chunk - 1) / chunk <= m <==> total <= m * chunk
  {
    var q := (total + chunk - 1) / chunk;
    CeilingBounds(total, chunk, q);
    if q <= m { MulStep(chunk, q, m); } else { MulStep(chunk, m, q - 1); }
    Commutes(m, chunk);
  }

  lemma Commutes(a: nat, b: nat)
    ensures a * b == b * a
  {
  }

  // ---------------------------------------------------------------------------
  // Checksums
  // ---------------------------------------------------------------------------

  function HexDigit(d: nat): char
    requires d < 16
  {
    if d < 10 then '0' + d as char else 'a' + (d - 10) as char
  }

  /** A digest in lower-case hexadecimal. */
  function Hex(b: seq<byte>): (s: string)
    ensures |s| == 2 * |b|
  {
    seq(2 * |b|, i requires 0 <= i < 2 * |b| => HexDigit(if i % 2 == 0 then b[i / 2] / 16 else b[i / 2] % 16))
  }

  function DigitValue(c: char): (d: nat)
    ensures d < 16
  {
    if '0' <= c <= '9' then c as int - '0' as int
    else if 'a' <= c <= 'f' then c as int - 'a' as int + 10
    else if 'A' <= c <= 'F' then c as int - 'A' as int + 10
    else 0
  }

  predicate IsHexChar(c: char) { '0' <= c <= '9' || 'a' <= c <= 'f' || 'A' <= c <= 'F' }

  lemma HexChar(c: char)
    ensures IsHexChar(c) <==> HexDigit(DigitValue(c)) == LowerChar(c)
  {
  }

  /** The accepted checksums are the hexadecimal texts of 32-byte digests, in either case. */
  lemma ChecksumExactly(s: string)
    ensures IsHexSHA256(s) <==> exists b: seq<byte> :: |b| == 32 && ToLower(s) == Hex(b)
  {
    if IsHexSHA256(s) {
      var b: seq<byte> := seq(32, i requires 0 <= i < 32 => 16 * DigitValue(s[2 * i]) + DigitValue(s[2 * i + 1]));
      forall i | 0 <= i < 64 ensures ToLower(s)[i] == Hex(b)[i] { DigitAt(s, b, i); }
      assert ToLower(s) == Hex(b);
    }
    if exists b: seq<byte> :: |b| == 32 && ToLower(s) == Hex(b) {
      var b: seq<byte> :| |b| == 32 && ToLower(s) == Hex(b);
      forall i | 0 <= i < |s| ensures IsHexChar(s[i]) { LowerHex(s, b, i); }
    }
  }

  lemma DigitAt(s: string, b: seq<byte>, i: nat)
    requires |s| == 64 && i < 64 && |b| == 32 && IsHexChar(s[i])
    requires b[i / 2] == 16 * DigitValue(s[2 * (i / 2)]) + DigitValue(s[2 * (i / 2) + 1])
    ensures ToLower(s)[i] == Hex(b)[i]
  {
    hide DigitValue, HexDigit, LowerChar;
    HexChar(s[i]);
    var j := i / 2;
    var hi, lo := DigitValue(s[2 * j]), DigitValue(s[2 * j + 1]);
    TwoDigits(b[j], hi, lo);
    assert i == 2 * j || i == 2 * j + 1;
  }

  lemma TwoDigits(v: nat, hi: nat, lo: nat)
    requires v == 16 * hi + lo && lo < 16
    ensures v / 16 == hi && v % 16 == lo
  {
  }

  lemma LowerHex(s: string, b: seq<byte>, i: nat)
    requires i < |s| && |s| == 2 * |b| && ToLower(s) == Hex(b)
    ensures IsHexChar(s[i])
  {
    assert LowerChar(s[i]) == ToLower(s)[i] == Hex(b)[i];
  }
}
