/** What stays so after an upload is complete, in every run. */
module UploadFinality {
  import opened Wrappers
  import opened Bits
  import opened Text
  import opened UploadPaths
  import opened Upload
  import opened UploadSafety
  import opened UploadDelivery

  // ---------------------------------------------------------------------------
  // Done stays done
  // ---------------------------------------------------------------------------

  /** The upload has its marker, or was removed with everything it had. */
  predicate Final(w: World, id: string) {
    id in w.used && (DonePath(id) in w.files || MetadataPath(id) !in w.files)
  }

  /** Then no chunk is taken and nothing is dispatched. */
  lemma NothingAfterDone(cfg: Config, w: World, step: Step)
    requires step.WriteStep? || step.CompleteStep?
    requires Final(w, step.id)
    ensures Apply(cfg, w, step) == w
    ensures step.WriteStep? ==> WriteChunk(w, step.id, step.user, step.index, step.body, step.now).1.Some?
  {
    hide Received, AllReceived, Assembled, ReadLimited, ChunkPath, MetadataPath, DataPath, DonePath;
  }

  lemma DoneStays(cfg: Config, w: World, step: Step, id: string)
    requires Inv(cfg, w) && Enabled(w, step) && SlashFree(id) && id != "" && DonePath(id) in w.files
    ensures var v := Apply(cfg, w, step); DonePath(id) in v.files || MetadataPath(id) !in v.files
  {
    hide Inv, SameUnder, Create, Abort, Cleanup, Sweep, WriteChunk, Complete, HasExpired;
    UnderRoot(id);
    if step.SweepStep? {
      SweepExact(w.files, step.now, id);
      if !HasExpired(w.files, id, step.now) { RootFilesSame(w.files, Sweep(w.files, step.now), id); }
    } else if step.id != id {
      Isolated(cfg, w, step, id);
      RootFilesSame(w.files, Apply(cfg, w, step).files, id);
    } else {
      OwnDoneStays(cfg, w, step);
    }
  }

  lemma OwnDoneStays(cfg: Config, w: World, step: Step)
    requires !step.SweepStep? && DonePath(step.id) in w.files
    ensures var v := Apply(cfg, w, step); DonePath(step.id) in v.files || MetadataPath(step.id) !in v.files
  {
    hide Received, AllReceived, Assembled, Load, Denied, NewSession, ChunkPath, ReadLimited, SafeChunkLimit,
      MetadataPath, DataPath, DonePath;
    UnderRoot(step.id);
    if step.WriteStep? { ChunkPathFacts(step.id, step.index); }
  }

  /** One step keeps it so and dispatches nothing of this upload. */
  lemma FinalStep(cfg: Config, w: World, step: Step, id: string)
    requires Inv(cfg, w) && Enabled(w, step) && Final(w, id)
    ensures var v := Apply(cfg, w, step);
            Final(v, id) && w.log <= v.log && forall k :: |w.log| <= k < |v.log| ==> v.log[k].uploadID != id
  {
    hide UploadsOk, LogOk, AnnouncedOk, Apply, MetadataPath, DonePath;
    var v := Apply(cfg, w, step);
    LogStep(cfg, w, step);
    if DonePath(id) in w.files {
      DoneStays(cfg, w, step, id);
    } else if MetadataPath(id) in v.files {
      MetadataOnlyCreated(cfg, w, step, id);
    }
    if step.CompleteStep? && step.id == id { NothingAfterDone(cfg, w, step); }
  }

  // ---------------------------------------------------------------------------
  // Over whole runs
  // ---------------------------------------------------------------------------

  /** Nothing of this upload was dispatched while more was run. */
  ghost predicate NoneDispatched(cfg: Config, steps: seq<Step>, more: seq<Step>, id: string)
    requires Run(cfg, steps).Some? && Run(cfg, steps + more).Some?
  {
    var w, v := Run(cfg, steps).value, Run(cfg, steps + more).value;
    w.log <= v.log && forall k :: |w.log| <= k < |v.log| ==> v.log[k].uploadID != id
  }

  /** A chunk of the upload was turned away at this point. */
  ghost predicate TurnedAway(cfg: Config, steps: seq<Step>, step: Step)
    requires step.WriteStep?
  {
    Run(cfg, steps).Some? &&
    WriteChunk(Run(cfg, steps).value, step.id, step.user, step.index, step.body, step.now).1.Some?
  }

  lemma RunSnoc(cfg: Config, steps: seq<Step>, more: seq<Step>)
    requires more != [] && Run(cfg, steps + more).Some?
    ensures var n := |more| - 1;
            && Run(cfg, steps + more[..n]).Some?
            && Enabled(Run(cfg, steps + more[..n]).value, more[n])
            && Run(cfg, steps + more) == Some(Apply(cfg, Run(cfg, steps + more[..n]).value, more[n]))
  {
    hide Apply, Enabled;
    var n := |more| - 1;
    assert (steps + more)[..|steps| + n] == steps + more[..n];
  }

  lemma {:induction false} FinalRun(cfg: Config, steps: seq<Step>, more: seq<Step>, id: string)
    requires Run(cfg, steps).Some? && Final(Run(cfg, steps).value, id) && Run(cfg, steps + more).Some?
    ensures Final(Run(cfg, steps + more).value, id) && NoneDispatched(cfg, steps, more, id)
    ensures forall j :: 0 <= j < |more| && more[j].WriteStep? && more[j].id == id ==>
              TurnedAway(cfg, steps + more[..j], more[j])
    decreases |more|
  {
    hide Run, Apply, Enabled, Inv, Final, WriteChunk;
    if more == [] {
      assert steps + more == steps;
    } else {
      var n := |more| - 1;
      RunSnoc(cfg, steps, more);
      FinalRun(cfg, steps, more[..n], id);
      RunInv(cfg, steps + more[..n]);
      FinalStep(cfg, Run(cfg, steps + more[..n]).value, more[n], id);
      if more[n].WriteStep? && more[n].id == id {
        NothingAfterDone(cfg, Run(cfg, steps + more[..n]).value, more[n]);
      }
      forall j | 0 <= j < |more| && more[j].WriteStep? && more[j].id == id
        ensures TurnedAway(cfg, steps + more[..j], more[j])
      {
        if j < n { assert more[..n][j] == more[j] && more[..n][..j] == more[..j]; }
      }
    }
  }

  /** Once the marker stands, in every continuation no chunk of the upload is taken and the
      daemon is never asked about it again. */
  lemma DoneIsFinal(cfg: Config, steps: seq<Step>, more: seq<Step>, id: string)
    requires Run(cfg, steps).Some? && SlashFree(id) && DonePath(id) in Run(cfg, steps).value.files
    requires Run(cfg, steps + more).Some?
    ensures NoneDispatched(cfg, steps, more, id)
    ensures forall j :: 0 <= j < |more| && more[j].WriteStep? && more[j].id == id ==>
              TurnedAway(cfg, steps + more[..j], more[j])
  {
    hide Run, NoneDispatched, TurnedAway;
    RunInv(cfg, steps);
    DoneIsKnown(cfg, Run(cfg, steps).value, id);
    FinalRun(cfg, steps, more, id);
  }

  lemma DoneIsKnown(cfg: Config, w: World, id: string)
    requires Inv(cfg, w) && SlashFree(id) && DonePath(id) in w.files
    ensures Final(w, id)
  {
    hide MetaOk, ChunksOk, LogOk, AnnouncedOk;
    InOrder(w, id);
  }

  // ---------------------------------------------------------------------------
  // Exactly when a delivery is final
  // ---------------------------------------------------------------------------

  lemma AcceptedMarks(cfg: Config, w: World, step: Step)
    requires step.CompleteStep? && step.doneWritten && step.accepted && Apply(cfg, w, step).log != w.log
    ensures DonePath(step.id) in Apply(cfg, w, step).files
  {
    hide Received, AllReceived, Assembled, Load, Denied, MetadataPath, DataPath, DonePath;
  }

  /** Without the marker the same completion asks, and is accepted, again. */
  lemma LostMarkerRepeats(cfg: Config, w: World, step: Step)
    requires step.CompleteStep? && step.accepted && !step.doneWritten && SlashFree(step.id) && UploadOk(w, step.id)
    requires Apply(cfg, w, step).log != w.log
    ensures var v := Apply(cfg, w, step);
            var u := Apply(cfg, v, step);
            && |u.log| == |w.log| + 2
            && u.log[|w.log|].accepted && u.log[|w.log| + 1].accepted
            && u.log[|w.log|].uploadID == u.log[|w.log| + 1].uploadID == step.id
  {
    hide ChunksOk, DoneOk, Received, AllReceived, Assembled, Denied, MetadataPath, DataPath, DonePath, Load, Apply,
      UploadOk;
    var v := Apply(cfg, w, step);
    AsksOnce(cfg, w, step);
    DispatchCondition(cfg, w, step);
    SameDelivery(cfg, w, step);
    DispatchCondition(cfg, v, step);
    AsksOnce(cfg, v, step);
  }

  lemma AsksOnce(cfg: Config, w: World, step: Step)
    requires step.CompleteStep? && step.accepted && Apply(cfg, w, step).log != w.log && UploadOk(w, step.id)
    ensures Load(w.files, step.id).Success?
    ensures var v := Apply(cfg, w, step);
            && |v.log| == |w.log| + 1 && v.log[..|w.log|] == w.log
            && v.log[|w.log|].accepted && v.log[|w.log|].uploadID == step.id
  {
    hide ChunksOk, DoneOk, Received, AllReceived, Assembled, Denied, MetadataPath, DataPath, DonePath;
  }

  lemma SameDelivery(cfg: Config, w: World, step: Step)
    requires step.CompleteStep? && step.accepted && !step.doneWritten && UploadOk(w, step.id)
    requires Apply(cfg, w, step).log != w.log && Deliverable(cfg, w.files, step)
    ensures var v := Apply(cfg, w, step);
            UploadOk(v, step.id) && Deliverable(cfg, v.files, step) && Load(v.files, step.id) == Load(w.files, step.id)
  {
    hide UploadOk, Received, AllReceived, Assembled, Denied, MetadataPath, DataPath, DonePath, ChunkPath;
    var v, id := Apply(cfg, w, step), step.id;
    CompleteKeeps(cfg, w, id, step.user, step.node, step.now, step.accepted, step.doneWritten);
    UnderRoot(id);
    var s := Load(w.files, id).value;
    forall i: nat ensures ChunkPath(id, i) != DataPath(id) { ChunkPathFacts(id, i); }
    SameAssembly(w.files, v.files, id, s.totalChunks);
  }

  lemma {:induction false} SameAssembly(f: Files, g: Files, id: string, n: nat)
    requires forall i: nat :: i < n ==>
      (ChunkPath(id, i) in f <==> ChunkPath(id, i) in g) &&
      (ChunkPath(id, i) in f ==> f[ChunkPath(id, i)] == g[ChunkPath(id, i)])
    ensures Assembled(f, id, n) == Assembled(g, id, n)
  {
    hide ChunkPath;
    if n > 0 { SameAssembly(f, g, id, n - 1); }
  }

  lemma RunOne(cfg: Config, steps: seq<Step>, step: Step)
    requires Run(cfg, steps).Some? && Enabled(Run(cfg, steps).value, step)
    ensures Run(cfg, steps + [step]) == Some(Apply(cfg, Run(cfg, steps).value, step))
  {
    assert (steps + [step])[..|steps|] == steps;
  }

  /** An accepted delivery is the last dispatch of its upload, in every continuation, exactly
      when its own completion wrote the marker. */
  lemma FinalExactly(cfg: Config, steps: seq<Step>, step: Step)
    requires Run(cfg, steps).Some? && step.CompleteStep? && step.accepted && SlashFree(step.id)
    requires Apply(cfg, Run(cfg, steps).value, step).log != Run(cfg, steps).value.log
    ensures Run(cfg, steps + [step]).Some?
    ensures step.doneWritten <==>
            forall more :: Run(cfg, steps + [step] + more).Some? ==> NoneDispatched(cfg, steps + [step], more, step.id)
  {
    hide Run, Apply, DonePath;
    var w, now := Run(cfg, steps).value, steps + [step];
    RunOne(cfg, steps, step);
    if step.doneWritten {
      AcceptedMarks(cfg, w, step);
      forall more | Run(cfg, now + more).Some? ensures NoneDispatched(cfg, now, more, step.id) {
        DoneIsFinal(cfg, now, more, step.id);
      }
    } else {
      RunInv(cfg, steps);
      RepeatedDispatch(cfg, steps, step);
    }
  }

  lemma RepeatedDispatch(cfg: Config, steps: seq<Step>, step: Step)
    requires Run(cfg, steps).Some? && Inv(cfg, Run(cfg, steps).value)
    requires step.CompleteStep? && step.accepted && !step.doneWritten && SlashFree(step.id)
    requires Apply(cfg, Run(cfg, steps).value, step).log != Run(cfg, steps).value.log
    ensures Run(cfg, steps + [step]).Some? && Run(cfg, steps + [step] + [step]).Some?
    ensures !NoneDispatched(cfg, steps + [step], [step], step.id)
  {
    hide Run, Apply, UploadOk, KnownOk, LogOk, AnnouncedOk;
    var w := Run(cfg, steps).value;
    InOrder(w, step.id);
    RunOne(cfg, steps, step);
    RunOne(cfg, steps + [step], step);
    LostMarkerRepeats(cfg, w, step);
    AsksOnce(cfg, w, step);
  }

  // ---------------------------------------------------------------------------
  // Each upload at most once
  // ---------------------------------------------------------------------------

  /** At step t the daemon accepted this upload. */
  ghost predicate AcceptsAt(cfg: Config, steps: seq<Step>, t: nat, id: string) {
    && t < |steps| && steps[t].CompleteStep? && steps[t].id == id && steps[t].accepted
    && Run(cfg, steps[..t]).Some? && Apply(cfg, Run(cfg, steps[..t]).value, steps[t]).log != Run(cfg, steps[..t]).value.log
  }

  /** Every log entry was added at one step of the run. */
  lemma {:induction false} LoggedAt(cfg: Config, steps: seq<Step>, k: nat) returns (t: nat)
    requires Run(cfg, steps).Some? && k < |Run(cfg, steps).value.log| && Run(cfg, steps).value.log[k].accepted
    ensures var d := Run(cfg, steps).value.log[k];
            && t < |steps| && AcceptsAt(cfg, steps, t, d.uploadID) && SlashFree(d.uploadID)
            && Run(cfg, steps[..t + 1]).Some? && |Run(cfg, steps[..t + 1]).value.log| == k + 1
  {
    hide Apply, Enabled, Inv, AcceptsAt;
    if steps == [] {
      assert false;
    } else {
      var n := |steps| - 1;
      var before, step := Run(cfg, steps[..n]).value, steps[n];
      RunInv(cfg, steps[..n]);
      LogStep(cfg, before, step);
      if k < |before.log| {
        t := LoggedAt(cfg, steps[..n], k);
        assert steps[..n][..t + 1] == steps[..t + 1] && steps[..n][..t] == steps[..t];
        StillAcceptsAt(cfg, steps, n, t, before.log[k].uploadID);
      } else {
        t := n;
        assert steps[..n + 1] == steps;
        assert Run(cfg, steps).value.log[k].uploadID == step.id;
        UsedIsSlashFree(cfg, before, step.id);
        AcceptsNow(cfg, steps);
      }
    }
  }

  lemma UsedIsSlashFree(cfg: Config, w: World, id: string)
    requires Inv(cfg, w) && id in w.used
    ensures SlashFree(id)
  {
    hide UploadsOk, LogOk, AnnouncedOk;
  }

  lemma StillAcceptsAt(cfg: Config, steps: seq<Step>, n: nat, t: nat, id: string)
    requires n <= |steps| && AcceptsAt(cfg, steps[..n], t, id)
    ensures AcceptsAt(cfg, steps, t, id)
  {
    hide Run, Apply;
    assert steps[..n][..t] == steps[..t];
  }

  lemma AcceptsNow(cfg: Config, steps: seq<Step>)
    requires steps != [] && Run(cfg, steps[..|steps| - 1]).Some?
    requires var step := steps[|steps| - 1]; step.CompleteStep? && step.accepted
    requires Apply(cfg, Run(cfg, steps[..|steps| - 1]).value, steps[|steps| - 1]).log !=
             Run(cfg, steps[..|steps| - 1]).value.log
    ensures AcceptsAt(cfg, steps, |steps| - 1, steps[|steps| - 1].id)
  {
    hide Run, Apply;
  }

  /** An upload whose accepted completions wrote their markers is accepted at most once, and
      not dispatched again afterwards, whatever happens to other uploads. */
  lemma DeliveredOnce(cfg: Config, steps: seq<Step>, j: nat, k: nat)
    requires Run(cfg, steps).Some? && j < k < |Run(cfg, steps).value.log| && Run(cfg, steps).value.log[j].accepted
    requires forall t: nat :: AcceptsAt(cfg, steps, t, Run(cfg, steps).value.log[j].uploadID) ==> steps[t].doneWritten
    ensures Run(cfg, steps).value.log[k].uploadID != Run(cfg, steps).value.log[j].uploadID
  {
    hide Run, Apply, DonePath;
    var id := Run(cfg, steps).value.log[j].uploadID;
    var t := LoggedAt(cfg, steps, j);
    var now, more := steps[..t + 1], steps[t + 1..];
    assert now + more == steps && now == steps[..t] + [steps[t]];
    RunOne(cfg, steps[..t], steps[t]);
    AcceptedMarks(cfg, Run(cfg, steps[..t]).value, steps[t]);
    DoneIsFinal(cfg, now, more, id);
  }

  // ---------------------------------------------------------------------------
  // A run with a lost marker
  // ---------------------------------------------------------------------------

  /** One byte uploaded in one chunk. */
  function SmallUpload(id: string, b: byte, checksum: string): seq<Step> {
    [CreateStep(Params(0, 0, "", "", 1, checksum), id, 0), WriteStep(id, 0, 0, Body([b], false), 0)]
  }

  /** Completion accepted by the daemon, whose marker is not written. */
  function Unmarked(id: string): Step { CompleteStep(id, 0, Some(0), 0, true, false) }

  /** Any usual configuration: chunks are cut, sessions do not start expired, and the digest is
      lower-case hexadecimal. */
  predicate Usual(cfg: Config, b: byte) {
    && cfg.chunkSize > 0 && cfg.sessionTTL >= 0
    && IsHexSHA256(cfg.sha([b])) && ToLower(cfg.sha([b])) == cfg.sha([b])
  }

  function SmallSession(cfg: Config, id: string, checksum: string): Session
  {
    Session(id, 0, 0, "", "", 1, cfg.chunkSize, 1, checksum, 0, cfg.sessionTTL)
  }

  lemma SmallCreated(cfg: Config, id: string, b: byte)
    requires Usual(cfg, b) && id != "" && SlashFree(id)
    ensures var checksum := cfg.sha([b]);
            NewSession(cfg, Params(0, 0, "", "", 1, checksum), id, 0) == Success(SmallSession(cfg, id, checksum))
    ensures SmallSession(cfg, id, cfg.sha([b])).SizeOf(0) == 1
  {
    hide IsHexSHA256, ToLower;
    OneChunk(cfg.chunkSize);
  }

  lemma OneChunk(chunk: uint64)
    requires chunk > 0
    ensures TotalChunks(1, chunk) == 1 && ChunkSizeFor(1, chunk, 1, 0) == 1
  {
    hide TotalChunks, ChunkSizeFor;
    LastChunk(1, chunk);
    var n := TotalChunks(1, chunk);
    NoLess(chunk, n - 1);
    TimesZero(chunk, n - 1);
  }

  lemma NoLess(a: nat, b: nat)
    requires a > 0 && a * b < 1
    ensures b == 0
  {
    if b > 0 { OneLess(a, b); }
  }

  /** The storage before completion. */
  function SmallFiles(cfg: Config, id: string, b: byte): Files {
    map[MetadataPath(id) := Meta(SmallSession(cfg, id, cfg.sha([b]))), ChunkPath(id, 0) := Raw([b])]
  }

  lemma SmallRun(cfg: Config, id: string, b: byte)
    requires Usual(cfg, b) && id != "" && SlashFree(id)
    ensures Run(cfg, SmallUpload(id, b, cfg.sha([b]))) ==
            Some(World(SmallFiles(cfg, id, b), [], multiset{}, {id}))
  {
    hide MetadataPath, ChunkPath, DonePath, NewSession, ChunkSizeFor;
    var steps := SmallUpload(id, b, cfg.sha([b]));
    var s := SmallSession(cfg, id, cfg.sha([b]));
    SmallCreated(cfg, id, b);
    MetadataApart(id, id, 0);
    var w1 := World(map[MetadataPath(id) := Meta(s)], [], multiset{}, {id});
    assert steps[..1] == [steps[0]] && steps[..1][..0] == [];
    assert Run(cfg, []) == Some(INIT);
    assert Apply(cfg, INIT, steps[0]) == w1;
    assert Run(cfg, steps[..1]) == Some(w1);
    assert ChunkRefused(w1.files, id, 0, 0, 0) == None;
    assert ReadLimited(Body([b], false), SafeChunkLimit(1)) == Some([b]);
    assert Apply(cfg, w1, steps[1]).files == SmallFiles(cfg, id, b);
  }

  lemma SmallDeliverable(cfg: Config, id: string, b: byte)
    requires Usual(cfg, b) && id != "" && SlashFree(id)
    ensures Deliverable(cfg, SmallFiles(cfg, id, b), Unmarked(id))
  {
    hide MetadataPath, ChunkPath, DonePath;
    var f := SmallFiles(cfg, id, b);
    MetadataApart(id, id, 0);
    UnderRoot(id);
    ChunkPathFacts(id, 0);
    assert Assembled(f, id, 0) == Some([]);
    assert Assembled(f, id, 1) == Some([] + [b]) && [] + [b] == [b];
  }

  /** Create, write, complete, complete: with the first marker lost, the daemon accepts the
      same upload twice. */
  lemma LostMarkerRun(cfg: Config, id: string, b: byte)
    requires Usual(cfg, b) && id != "" && SlashFree(id)
    ensures var steps := SmallUpload(id, b, cfg.sha([b])) + [Unmarked(id)] + [Unmarked(id)];
            && |steps| == 4 && Run(cfg, steps).Some?
            && var log := Run(cfg, steps).value.log;
               |log| == 2 && log[0].accepted && log[1].accepted && log[0].uploadID == log[1].uploadID == id
  {
    hide Run, Apply, Deliverable, Inv, UploadOk;
    var steps, step := SmallUpload(id, b, cfg.sha([b])), Unmarked(id);
    SmallRun(cfg, id, b);
    SmallDeliverable(cfg, id, b);
    DispatchExactly(cfg, steps, step);
    RunInv(cfg, steps);
    var w := Run(cfg, steps).value;
    OwnInOrder(cfg, w, id);
    RunOne(cfg, steps, step);
    RunOne(cfg, steps + [step], step);
    LostMarkerRepeats(cfg, w, step);
  }

  lemma OwnInOrder(cfg: Config, w: World, id: string)
    requires Inv(cfg, w) && SlashFree(id)
    ensures UploadOk(w, id)
  {
    InOrder(w, id);
  }
}
