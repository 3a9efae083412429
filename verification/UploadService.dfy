/** The upload service and janitor as they run: an in-memory storage updated in place. */
module UploadService {
  import opened Wrappers
  import opened Bits
  import opened Text
  import opened UploadPaths
  import U = Upload
  import UploadSafety

  /** The bytes that these chunks hold together. */
  function SizesOf(s: U.Session, indices: seq<uint64>): nat {
    if indices == [] then 0
    else SizesOf(s, indices[..|indices| - 1]) + s.SizeOf(indices[|indices| - 1])
  }

  predicate Ascending(s: seq<uint64>) { forall i, j :: 0 <= i < j < |s| ==> s[i] < s[j] }

  /** The chunks below n split into those listed and the others, each in ascending order. */
  ghost predicate Splits(n: nat, listed: set<nat>, received: seq<uint64>, missing: seq<uint64>) {
    && Ascending(received) && Ascending(missing)
    && (forall i: uint64 :: i in received <==> i < n && i in listed)
    && (forall i: uint64 :: i in missing <==> i < n && i !in listed)
  }

  datatype Status = Status(
    session: U.Session, received: seq<uint64>, missing: seq<uint64>, uploadedBytes: uint64, completed: bool)

  lemma {:induction false} SizesWithin(s: U.Session, indices: seq<uint64>, m: uint64)
    requires m <= s.totalChunks && Ascending(indices) && forall k :: 0 <= k < |indices| ==> indices[k] < m
    ensures SizesOf(s, indices) <= SizesUpTo(s.totalSize, s.chunkSize, s.totalChunks, m)
    decreases m
  {
    hide ChunkSizeFor;
    if m > 0 {
      var k := |indices|;
      if k > 0 && indices[k - 1] == m - 1 {
        SizesWithin(s, indices[..k - 1], m - 1);
      } else {
        SizesWithin(s, indices, m - 1);
      }
    }
  }

  /** The bytes reported as uploaded never exceed the total, so their sum does not wrap. */
  lemma UploadedWithinTotal(s: U.Session, id: string, indices: seq<uint64>)
    requires UploadSafety.SessionOk(s, id) && Ascending(indices)
    requires forall k :: 0 <= k < |indices| ==> indices[k] < s.totalChunks
    ensures SizesOf(s, indices) <= s.totalSize < TWO_64
  {
    hide ChunkSizeFor;
    SizesWithin(s, indices, s.totalChunks);
    ChunkSizesExact(s.totalSize, s.chunkSize);
  }

  lemma SplitMore(n: uint64, listed: set<nat>, received: seq<uint64>, missing: seq<uint64>)
    requires n + 1 < TWO_64 && Splits(n, listed, received, missing)
    ensures Splits(n + 1, listed, if n in listed then received + [n] else received,
                   if n in listed then missing else missing + [n])
  {
    assert forall k :: 0 <= k < |received| ==> received[k] in received;
    assert forall k :: 0 <= k < |missing| ==> missing[k] in missing;
  }

  method SplitChunks(s: U.Session, listed: set<nat>)
    returns (received: seq<uint64>, missing: seq<uint64>, uploaded: uint64)
    ensures Splits(s.totalChunks, listed, received, missing)
    ensures uploaded == SizesOf(s, received) % TWO_64
  {
    hide Splits, ChunkSizeFor;
    received, missing, uploaded := [], [], 0;
    assert Splits(0, listed, received, missing) by { NothingSplit(listed); }
    for i := 0 to s.totalChunks
      invariant Splits(i, listed, received, missing)
      invariant uploaded == SizesOf(s, received) % TWO_64
    {
      SplitMore(i, listed, received, missing);
      if i in listed {
        assert (received + [i])[..|received|] == received;
        received := received + [i];
        uploaded := (uploaded + s.SizeOf(i)) % TWO_64;
      } else {
        missing := missing + [i];
      }
    }
  }

  lemma NothingSplit(listed: set<nat>)
    ensures Splits(0, listed, [], [])
  {
  }

  method IsHexSHA256(s: string) returns (ok: bool)
    ensures ok <==> U.IsHexSHA256(s)
  {
    if |s| != 64 { return false; }
    for i := 0 to |s|
      invariant forall j :: 0 <= j < i ==> '0' <= s[j] <= '9' || 'a' <= s[j] <= 'f' || 'A' <= s[j] <= 'F'
    {
      if !('0' <= s[i] <= '9' || 'a' <= s[i] <= 'f' || 'A' <= s[i] <= 'F') { return false; }
    }
    return true;
  }

  class Service {
    const cfg: U.Config
    var files: U.Files
    var log: seq<U.Dispatch>
    var pending: multiset<string>
    ghost var used: set<string>

    ghost function World(): U.World
      reads this
    {
      U.World(files, log, pending, used)
    }

    constructor (cfg: U.Config)
      ensures this.cfg == cfg && World() == U.INIT
    {
      this.cfg := cfg;
      files, log, pending, used := map[], [], multiset{}, {};
    }

    /** Removes every file under a prefix, in whatever order they come. */
    method DeleteByPrefix(prefix: string)
      modifies `files
      ensures files == U.WithoutPrefix(old(files), prefix)
    {
      var todo := files.Keys;
      while todo != {}
        invariant todo <= old(files).Keys
        invariant forall p :: p in files <==> p in old(files) && (p in todo || !HasPrefix(p, prefix))
        invariant forall p :: p in files ==> files[p] == old(files)[p]
        decreases |todo|
      {
        var p :| p in todo;
        todo := todo - {p};
        if HasPrefix(p, prefix) { files := files - {p}; }
      }
    }

    method Create(p: U.Params, id: string, now: int) returns (r: Result<U.Session, U.Error>)
      modifies this
      ensures World() == old(U.Create(cfg, World(), p, id, now))
      ensures r == U.NewSession(cfg, p, id, now)
    {
      hide U.IsHexSHA256, ToLower, TotalChunks, MetadataPath;
      used := used + {id};
      if p.totalSize == 0 { return Failure(U.InvalidTotalSize); }
      var hex := IsHexSHA256(p.expectedChecksum);
      if !hex { return Failure(U.InvalidChecksum); }
      if cfg.chunkSize == 0 { return Failure(U.NoChunkSize); }
      var n := TotalChunks(p.totalSize, cfg.chunkSize);
      if cfg.maxChunks > 0 && n > cfg.maxChunks { return Failure(U.TooManyChunks); }
      var s := U.Session(id, p.nodeID, p.userID, p.fullPath, p.suUser, p.totalSize, cfg.chunkSize, n,
                         ToLower(p.expectedChecksum), now, now + cfg.sessionTTL);
      files := files[MetadataPath(id) := U.Meta(s)];
      return Success(s);
    }

    method WriteChunk(id: string, user: nat, index: nat, body: U.Body, now: int) returns (err: Option<U.Error>)
      modifies `files
      ensures (World(), err) == old(U.WriteChunk(World(), id, user, index, body, now))
    {
      hide U.ReadLimited, U.SafeChunkLimit, ChunkSizeFor, ChunkPath, MetadataPath, DonePath;
      var loaded := U.Load(files, id);
      if loaded.Failure? { return Some(loaded.error); }
      var s := loaded.value;
      var denied := U.Denied(s, user, now);
      if denied.Some? { return denied; }
      if DonePath(id) in files { return Some(U.AlreadyDone); }
      if index >= s.totalChunks { return Some(U.InvalidIndex); }
      var expected := s.SizeOf(index);
      var cp := ChunkPath(id, index);
      var content := U.ReadLimited(body, U.SafeChunkLimit(expected));
      if content.None? {
        files := files - {cp};
        return Some(U.ReadFailed);
      }
      files := files[cp := U.Raw(content.value)];
      if |content.value| != expected {
        files := files - {cp};
        assert files == U.Without(old(files), cp);
        return Some(U.SizeMismatch);
      }
      return None;
    }

    /** Collects the indices of the listed chunks. */
    method ReceivedChunks(id: string) returns (received: set<nat>)
      ensures received == U.Received(files, id)
    {
      hide IndexFromChunkPath, ChunksPrefix;
      received := {};
      var todo := files.Keys;
      ghost var done: set<string> := {};
      while todo != {}
        invariant todo + done == files.Keys && todo !! done
        invariant received == set p | p in done && HasPrefix(p, ChunksPrefix(id)) && IndexFromChunkPath(id, p).Some?
                                :: IndexFromChunkPath(id, p).value
        decreases |todo|
      {
        var p :| p in todo;
        todo, done := todo - {p}, done + {p};
        if HasPrefix(p, ChunksPrefix(id)) {
          var index := IndexFromChunkPath(id, p);
          if index.Some? { received := received + {index.value}; }
        }
      }
    }

    /** The chunks received and missing, between them all of the session's. */
    method GetStatus(id: string, user: nat, now: int) returns (r: Result<Status, U.Error>)
      ensures r.Failure? <==> U.Load(files, id).Failure? || U.Denied(U.Load(files, id).value, user, now).Some?
      ensures r.Success? ==>
        && U.Load(files, id) == Success(r.value.session)
        && Splits(r.value.session.totalChunks, U.Received(files, id), r.value.received, r.value.missing)
        && r.value.uploadedBytes == SizesOf(r.value.session, r.value.received) % TWO_64
        && (r.value.completed <==> DonePath(id) in files)
    {
      hide U.Received, ChunkSizeFor, MetadataPath, DonePath, Splits, SizesOf;
      var loaded := U.Load(files, id);
      if loaded.Failure? { return Failure(loaded.error); }
      var s := loaded.value;
      var denied := U.Denied(s, user, now);
      if denied.Some? { return Failure(denied.value); }
      var listed := ReceivedChunks(id);
      var received, missing, uploaded := SplitChunks(s, listed);
      return Success(Status(s, received, missing, uploaded, DonePath(id) in files));
    }

    /** Reads the chunks one after the other, stopping where one cannot be opened. */
    method Assemble(id: string, n: nat) returns (data: Option<seq<byte>>)
      ensures data == U.Assembled(files, id, n)
    {
      hide ChunkPath;
      var bytes: seq<byte> := [];
      for i := 0 to n
        invariant U.Assembled(files, id, i) == Some(bytes)
      {
        var cp := ChunkPath(id, i);
        if cp !in files || !files[cp].Raw? {
          StaysMissing(files, id, i + 1, n);
          return None;
        }
        bytes := bytes + files[cp].bytes;
      }
      return Some(bytes);
    }

    method Complete(id: string, user: nat, node: Option<nat>, now: int, accepted: bool, doneWritten: bool)
      returns (err: Option<U.Error>)
      modifies `files, `log, `pending
      ensures (World(), err) == old(U.Complete(cfg, World(), id, user, node, now, accepted, doneWritten))
    {
      hide U.Received, U.Assembled, MetadataPath, DonePath, DataPath;
      var loaded := U.Load(files, id);
      if loaded.Failure? { return Some(loaded.error); }
      var s := loaded.value;
      var denied := U.Denied(s, user, now);
      if denied.Some? { return denied; }
      if node != Some(s.nodeID) { return Some(U.NodeMismatch); }
      if DonePath(id) in files { return None; }

      var received := ReceivedChunks(id);
      if |received| != s.totalChunks { return Some(U.Incomplete); }
      for i := 0 to s.totalChunks
        invariant forall j: nat :: j < i ==> j in received
      {
        if i !in received { return Some(U.Incomplete); }
      }

      var dp := DataPath(id);
      var assembled := Assemble(id, s.totalChunks);
      if assembled.None? {
        files := files - {dp};
        return Some(U.AssembleFailed);
      }
      var data := assembled.value;
      files := files[dp := U.Raw(data)];
      var checksum := cfg.sha(data);
      if checksum != s.expectedChecksum {
        files := files - {dp};
        assert files == U.Without(old(files), dp);
        return Some(U.ChecksumMismatch);
      }
      log := log + [U.Dispatch(s.uploadID, s.nodeID, s.fullPath, s.suUser, checksum, s.totalSize, data, accepted)];
      if !accepted {
        files := files - {dp};
        assert files == U.Without(old(files), dp);
        return Some(U.DispatchFailed);
      }
      if doneWritten { files := files[DonePath(id) := U.DoneInfo(checksum)]; }
      pending := pending + multiset{id};
      return None;
    }

    method Abort(id: string, user: nat, now: int) returns (err: Option<U.Error>)
      modifies `files
      ensures (World(), err) == old(U.Abort(World(), id, user, now))
    {
      hide U.WithoutPrefix, MetadataPath;
      var loaded := U.Load(files, id);
      if loaded.Failure? { return if loaded.error == U.NotFound then None else Some(loaded.error); }
      var denied := U.Denied(loaded.value, user, now);
      if denied.Some? { return denied; }
      DeleteByPrefix(TransferRoot(id));
      return None;
    }

    method CleanupAfterComplete(id: string)
      modifies `files, `pending
      ensures World() == old(U.Cleanup(World(), id))
    {
      pending := pending - multiset{id};
      DeleteByPrefix(ChunksPrefix(id));
      files := files - {DataPath(id)};
    }

    /** Goes once over the uploads found in the listing, in whatever order they come, and
        removes those that have expired. */
    method Sweep(now: int)
      modifies `files
      ensures files == U.Sweep(old(files), now)
    {
      hide U.WithoutPrefix, UploadIDFromPath, U.HasExpired, TransferRoot;
      var todo := set p | p in files && HasPrefix(p, TRANSFER_PREFIX);
      ghost var listed := todo;
      var seen: set<string> := {};
      while todo != {}
        invariant todo <= listed
        invariant forall p :: p in listed - todo && UploadIDFromPath(p).Some? ==> UploadIDFromPath(p).value in seen
        invariant SweptSoFar(old(files), files, seen, now)
        decreases |todo|
      {
        var p :| p in todo;
        todo := todo - {p};
        var id := UploadIDFromPath(p);
        if id.Some? && id.value !in seen {
          ghost var before := files;
          MaybeRemove(id.value, now);
          SweepOne(old(files), before, files, seen, p, id.value, now);
          seen := seen + {id.value};
        }
      }
      SweptAll(old(files), files, listed, seen, now);
    }

    method MaybeRemove(id: string, now: int)
      modifies `files
      ensures files == if U.HasExpired(old(files), id, now)
                       then U.WithoutPrefix(old(files), TransferRoot(id)) else old(files)
    {
      hide U.WithoutPrefix, MetadataPath;
      var loaded := U.Load(files, id);
      if loaded.Failure? { return; }
      if loaded.value.expiresAt == 0 || now < loaded.value.expiresAt { return; }
      DeleteByPrefix(TransferRoot(id));
    }
  }

  lemma {:induction false} StaysMissing(files: U.Files, id: string, i: nat, n: nat)
    requires i <= n && U.Assembled(files, id, i) == None
    ensures U.Assembled(files, id, n) == None
    decreases n
  {
    if i < n { StaysMissing(files, id, i, n - 1); }
  }

  /** The files of the uploads seen so far are gone where they had expired. */
  ghost predicate SweptSoFar(f: U.Files, g: U.Files, seen: set<string>, now: int) {
    && (forall p :: p in g ==> p in f && g[p] == f[p])
    && (forall p :: p in f ==> (p !in g <==> U.Swept(f, now, p) && UploadIDFromPath(p).value in seen))
  }

  lemma OwnMetadata(id: string)
    requires id != "" && '/' !in id
    ensures HasPrefix(MetadataPath(id), TRANSFER_PREFIX) && UploadIDFromPath(MetadataPath(id)) == Some(id)
  {
    hide UploadIDFromPath;
    UploadSafety.UnderRoot(id);
    UploadSafety.PrefixOfRoot(id, MetadataPath(id));
    IDFromFullPath(MetadataPath(id), id);
  }

  /** An upload not yet visited still has the metadata it started with. */
  lemma StillExpired(f: U.Files, g: U.Files, seen: set<string>, id: string, now: int)
    requires SweptSoFar(f, g, seen, now) && id !in seen && id != "" && '/' !in id
    ensures U.Load(f, id) == U.Load(g, id)
  {
    hide UploadIDFromPath, U.HasExpired;
    OwnMetadata(id);
  }

  lemma SweepOne(f: U.Files, g: U.Files, h: U.Files, seen: set<string>, p: string, id: string, now: int)
    requires SweptSoFar(f, g, seen, now) && id !in seen
    requires HasPrefix(p, TRANSFER_PREFIX) && UploadIDFromPath(p) == Some(id)
    requires h == if U.HasExpired(g, id, now) then U.WithoutPrefix(g, TransferRoot(id)) else g
    ensures SweptSoFar(f, h, seen + {id}, now)
  {
    hide UploadIDFromPath, TransferRoot, MetadataPath, U.HasExpired;
    IDFromFullPath(p, id);
    StillExpired(f, g, seen, id, now);
    SameExpiry(f, g, id, now);
    forall q | q in f ensures q !in h <==> U.Swept(f, now, q) && UploadIDFromPath(q).value in seen + {id} {
      SweptUnder(f, now, q, id);
    }
  }

  lemma SameExpiry(f: U.Files, g: U.Files, id: string, now: int)
    requires U.Load(f, id) == U.Load(g, id)
    ensures U.HasExpired(f, id, now) == U.HasExpired(g, id, now)
  {
    hide U.Load;
  }

  /** The files that go with an upload are those under its root. */
  lemma SweptUnder(f: U.Files, now: int, q: string, id: string)
    requires id != "" && '/' !in id
    ensures U.Swept(f, now, q) && UploadIDFromPath(q) == Some(id) <==>
            U.HasExpired(f, id, now) && HasPrefix(q, TransferRoot(id))
    ensures U.Swept(f, now, q) ==> UploadIDFromPath(q).Some?
  {
    hide UploadIDFromPath, TransferRoot, U.HasExpired;
    if HasPrefix(q, TRANSFER_PREFIX) { IDFromFullPath(q, id); }
    if HasPrefix(q, TransferRoot(id)) { UploadSafety.PrefixOfRoot(id, q); }
  }

  lemma SweptAll(f: U.Files, g: U.Files, listed: set<string>, seen: set<string>, now: int)
    requires SweptSoFar(f, g, seen, now)
    requires forall p :: p in listed <==> p in f && HasPrefix(p, TRANSFER_PREFIX)
    requires forall p :: p in listed && UploadIDFromPath(p).Some? ==> UploadIDFromPath(p).value in seen
    ensures g == U.Sweep(f, now)
  {
    hide UploadIDFromPath, U.HasExpired;
    assert forall p :: p in g <==> p in U.Sweep(f, now);
  }
}
