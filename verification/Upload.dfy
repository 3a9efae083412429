/** Chunked upload sessions over a shared storage, and the janitor that removes them. */
module Upload {
  import opened Wrappers
  import opened Bits
  import opened Text
  import opened UploadPaths

  datatype Session = Session(
    uploadID: string,
    nodeID: nat,
    userID: nat,
    fullPath: string,
    suUser: string,
    totalSize: uint64,
    chunkSize: uint64,
    totalChunks: uint64,
    expectedChecksum: string,
    createdAt: int,
    expiresAt: int)
  {
    function SizeOf(index: uint64): uint64 { ChunkSizeFor(totalSize, chunkSize, totalChunks, index) }
  }

  /** What a stored file holds. JSON documents are kept as the value they denote, so Raw
      bytes where metadata is expected stand for a document that does not parse. */
  datatype Content = Raw(bytes: seq<byte>) | Meta(session: Session) | DoneInfo(checksum: string)

  type Files = map<string, Content>

  datatype Error =
    | InvalidTotalSize | InvalidChecksum | NoChunkSize | TooManyChunks
    | NotFound | Unreadable | Forbidden | Expired | NodeMismatch
    | AlreadyDone | InvalidIndex | ReadFailed | SizeMismatch
    | Incomplete | AssembleFailed | ChecksumMismatch | DispatchFailed

  /** The settings, and the digest the service computes, in lower-case hexadecimal. */
  datatype Config = Config(chunkSize: uint64, sessionTTL: int, maxChunks: nat, sha: seq<byte> -> string)

  datatype Params = Params(
    nodeID: nat, userID: nat, fullPath: string, suUser: string, totalSize: uint64, expectedChecksum: string)

  /** One transfer the daemon was asked to fetch, with the bytes stored for it then. */
  datatype Dispatch = Dispatch(
    uploadID: string, nodeID: nat, fullPath: string, user: string,
    checksum: string, totalSize: uint64, data: seq<byte>, accepted: bool)

  /** Storage, the transfers asked of the daemon, the clean-ups still to run, and the
      upload IDs handed out so far. */
  datatype World = World(files: Files, log: seq<Dispatch>, pending: multiset<string>, used: set<string>)

  const INIT := World(map[], [], multiset{}, {})

  // ---------------------------------------------------------------------------
  // Storage
  // ---------------------------------------------------------------------------

  function WithoutPrefix(files: Files, prefix: string): Files {
    map p | p in files && !HasPrefix(p, prefix) :: files[p]
  }

  function Without(files: Files, path: string): Files { files - {path} }

  function Load(files: Files, id: string): Result<Session, Error> {
    if MetadataPath(id) !in files then Failure(NotFound)
    else if !files[MetadataPath(id)].Meta? then Failure(Unreadable)
    else Success(files[MetadataPath(id)].session)
  }

  function Denied(s: Session, user: nat, now: int): Option<Error> {
    if s.userID != user then Some(Forbidden)
    else if s.expiresAt != 0 && now > s.expiresAt then Some(Expired)
    else None
  }

  /** The indices found by listing the chunks of an upload. */
  function Received(files: Files, id: string): set<nat> {
    set p | p in files && HasPrefix(p, ChunksPrefix(id)) && IndexFromChunkPath(id, p).Some?
      :: IndexFromChunkPath(id, p).value
  }

  predicate AllReceived(r: set<nat>, n: nat) { |r| == n && forall i: nat :: i < n ==> i in r }

  /** The first n chunks read one after the other, or nothing if one cannot be opened. */
  function Assembled(files: Files, id: string, n: nat): Option<seq<byte>> {
    if n == 0 then Some([])
    else
      var before := Assembled(files, id, n - 1);
      if before.Some? && ChunkPath(id, n - 1) in files && files[ChunkPath(id, n - 1)].Raw?
      then Some(before.value + files[ChunkPath(id, n - 1)].bytes)
      else None
  }

  // ---------------------------------------------------------------------------
  // Operations
  // ---------------------------------------------------------------------------

  predicate IsHexSHA256(s: string) {
    |s| == 64 && forall i :: 0 <= i < |s| ==> '0' <= s[i] <= '9' || 'a' <= s[i] <= 'f' || 'A' <= s[i] <= 'F'
  }

  function NewSession(cfg: Config, p: Params, id: string, now: int): Result<Session, Error> {
    if p.totalSize == 0 then Failure(InvalidTotalSize)
    else if !IsHexSHA256(p.expectedChecksum) then Failure(InvalidChecksum)
    else if cfg.chunkSize == 0 then Failure(NoChunkSize)
    else
      var n := TotalChunks(p.totalSize, cfg.chunkSize);
      if cfg.maxChunks > 0 && n > cfg.maxChunks then Failure(TooManyChunks)
      else Success(Session(id, p.nodeID, p.userID, p.fullPath, p.suUser, p.totalSize, cfg.chunkSize, n,
                           ToLower(p.expectedChecksum), now, now + cfg.sessionTTL))
  }

  function Create(cfg: Config, w: World, p: Params, id: string, now: int): World {
    match NewSession(cfg, p, id, now)
    case Failure(_) => w.(used := w.used + {id})
    case Success(s) => w.(used := w.used + {id}, files := w.files[MetadataPath(id) := Meta(s)])
  }

  /** A request body: its bytes, then the end, or a read error where it is broken. */
  datatype Body = Body(bytes: seq<byte>, broken: bool)

  function SafeChunkLimit(size: uint64): nat { if size >= MAX_INT64 then MAX_INT64 else size + 1 }

  /** What is read of a body through a reader that stops at the limit. */
  function ReadLimited(body: Body, limit: nat): Option<seq<byte>> {
    if |body.bytes| >= limit then Some(body.bytes[..limit])
    else if body.broken then None
    else Some(body.bytes)
  }

  /** Why a chunk is turned away before its body is read. */
  function ChunkRefused(files: Files, id: string, user: nat, index: nat, now: int): Option<Error> {
    match Load(files, id)
    case Failure(e) => Some(e)
    case Success(s) =>
      var d := Denied(s, user, now);
      if d.Some? then d
      else if DonePath(id) in files then Some(AlreadyDone)
      else if index >= s.totalChunks then Some(InvalidIndex)
      else None
  }

  function WriteChunk(w: World, id: string, user: nat, index: nat, body: Body, now: int): (World, Option<Error>) {
    var refused := ChunkRefused(w.files, id, user, index, now);
    if refused.Some? then (w, refused)
    else
      var expected := Load(w.files, id).value.SizeOf(index);
      var cp := ChunkPath(id, index);
      match ReadLimited(body, SafeChunkLimit(expected))
      case None => (w.(files := Without(w.files, cp)), Some(ReadFailed))
      case Some(content) =>
        if |content| != expected then (w.(files := Without(w.files, cp)), Some(SizeMismatch))
        else (w.(files := w.files[cp := Raw(content)]), None)
  }

  /** Why completion stops before anything is assembled; None inside means already done. */
  function CompletionRefused(files: Files, id: string, user: nat, node: Option<nat>, now: int): Option<Option<Error>> {
    match Load(files, id)
    case Failure(e) => Some(Some(e))
    case Success(s) =>
      var d := Denied(s, user, now);
      if d.Some? then Some(d)
      else if node != Some(s.nodeID) then Some(Some(NodeMismatch))
      else if DonePath(id) in files then Some(None)
      else if !AllReceived(Received(files, id), s.totalChunks) then Some(Some(Incomplete))
      else None
  }

  /** Assembly, the checksum, and the daemon's answer. The daemon's verdict and the fate of
      the marker's write are the environment's choice. */
  function Complete(cfg: Config, w: World, id: string, user: nat, node: Option<nat>, now: int,
                    accepted: bool, doneWritten: bool): (World, Option<Error>)
  {
    var refused := CompletionRefused(w.files, id, user, node, now);
    if refused.Some? then (w, refused.value)
    else
      var s := Load(w.files, id).value;
      var dp := DataPath(id);
      match Assembled(w.files, id, s.totalChunks)
      case None => (w.(files := Without(w.files, dp)), Some(AssembleFailed))
      case Some(data) =>
        if cfg.sha(data) != s.expectedChecksum
        then (w.(files := Without(w.files, dp)), Some(ChecksumMismatch))
        else
          var d := Dispatch(s.uploadID, s.nodeID, s.fullPath, s.suUser, cfg.sha(data), s.totalSize, data, accepted);
          if !accepted
          then (w.(files := Without(w.files, dp), log := w.log + [d]), Some(DispatchFailed))
          else
            var stored := w.files[dp := Raw(data)];
            (w.(files := if doneWritten then stored[DonePath(id) := DoneInfo(cfg.sha(data))] else stored,
                log := w.log + [d], pending := w.pending + multiset{id}), None)
  }

  function Abort(w: World, id: string, user: nat, now: int): (World, Option<Error>) {
    match Load(w.files, id)
    case Failure(e) => (w, if e == NotFound then None else Some(e))
    case Success(s) =>
      var d := Denied(s, user, now);
      if d.Some? then (w, d) else (w.(files := WithoutPrefix(w.files, TransferRoot(id))), None)
  }

  function Cleanup(w: World, id: string): World {
    w.(files := Without(WithoutPrefix(w.files, ChunksPrefix(id)), DataPath(id)), pending := w.pending - multiset{id})
  }

  /** Readable metadata with a set expiry that has been reached. */
  predicate HasExpired(files: Files, id: string, now: int) {
    var r := Load(files, id);
    r.Success? && r.value.expiresAt != 0 && now >= r.value.expiresAt
  }

  predicate Swept(files: Files, now: int, p: string) {
    HasPrefix(p, TRANSFER_PREFIX) &&
    var id := UploadIDFromPath(p);
    id.Some? && HasExpired(files, id.value, now)
  }

  function Sweep(files: Files, now: int): Files {
    map p | p in files && !Swept(files, now, p) :: files[p]
  }

  // ---------------------------------------------------------------------------
  // Runs: the operations one at a time, in any order
  // ---------------------------------------------------------------------------

  datatype Step =
    | CreateStep(params: Params, id: string, now: int)
    | WriteStep(id: string, user: nat, index: nat, body: Body, now: int)
    | CompleteStep(id: string, user: nat, node: Option<nat>, now: int, accepted: bool, doneWritten: bool)
    | AbortStep(id: string, user: nat, now: int)
    | CleanupStep(id: string)
    | SweepStep(now: int)

  /** New IDs are slash-free and never repeat; a clean-up follows a completion. */
  predicate Enabled(w: World, step: Step) {
    match step
    case CreateStep(_, id, _) => id != "" && '/' !in id && id !in w.used
    case CleanupStep(id) => id in w.pending
    case _ => true
  }

  function Apply(cfg: Config, w: World, step: Step): World {
    match step
    case CreateStep(p, id, now) => Create(cfg, w, p, id, now)
    case WriteStep(id, user, index, body, now) => WriteChunk(w, id, user, index, body, now).0
    case CompleteStep(id, user, node, now, accepted, doneWritten) =>
      Complete(cfg, w, id, user, node, now, accepted, doneWritten).0
    case AbortStep(id, user, now) => Abort(w, id, user, now).0
    case CleanupStep(id) => Cleanup(w, id)
    case SweepStep(now) => w.(files := Sweep(w.files, now))
  }

  function Run(cfg: Config, steps: seq<Step>): Option<World> {
    if steps == [] then Some(INIT)
    else
      var before := Run(cfg, steps[..|steps| - 1]);
      var step := steps[|steps| - 1];
      if before.Some? && Enabled(before.value, step) then Some(Apply(cfg, before.value, step)) else None
  }
}
