# A verified model of the GameAP API core

GameAP is a control panel for game servers. Several instances of its API share a database, a message
bus and a storage, and talk to daemons on the nodes that run the servers. This project models the
parts of the API whose correctness is hardest to see from the code, and proves what they promise.

| area | modules | what is proved |
|---|---|---|
| Base62 text | `Bits`, `Base62`, `Base62Integer` | a variable-width bit code that reads and writes its buffers from the end loses nothing, for every byte string and every 64-bit integer |
| Transfer hand-off | `Transfers`, `Streaming` | no wake-up is lost in any interleaving and every answer follows from the history; what a download delivers, when and why it ends, in every run |
| Metrics hub | `MetricsHub`, `MetricsReplay` | the poll loop outlives every mix of events while someone listens and ends when nobody does; replay merging |
| Uploads | `UploadPaths`, `Upload`, `UploadSafety`, `UploadDelivery`, `UploadFinality`, `UploadLifetime`, `UploadService` | a daemon is handed exactly the uploaded bytes, as announced when the upload was created, and a marked delivery is the last one; who may use an upload, until when, and what is left of it |
| Command text | `Text`, `Shortcodes`, `ShellQuote` | exactly which commands expand the same in every map order, and to what; quoting survives the shell |
| Wire format | `ProtoWire`, `DaemonTask` (module `DaemonTaskCodec`), `UnknownFields` | exact size, backward marshalling, exactly which messages survive the parser, unknown fields included |
| Dispatch | `Dispatcher` | answers over an unreliable bus belong to their requests, arrive if nothing fails, and failures name their cause |
| Access control | `Rbac` | what rows decide, what allowing and revoking change, and the cache in front |
| Plugin IDs | `PluginId` | exactly which compact texts parse back |

Protocols are state machines: every locked section, channel operation, storage call or message is one
step, a run is any sequence of enabled steps, and the theorems are about every run. Objects that the
source updates in place are classes whose methods are proved against the steps or against
specification functions. Where Go iterates over a map, the order is arbitrary. Time, generated IDs,
the daemon's verdict, message loss and storage failures are parameters or choices of the environment;
SHA-256, the fallback hash of plugin IDs, and the timestamp codec of `DaemonTask` are function
parameters; so is its field skipper, of which `UnknownFields` has the generated code.

`dafny verify dfyconfig.toml` checks the whole project with Dafny 4.11.

Findings where the code does less than its surroundings suggest, each with a concrete input or run and
the exact condition under which the property does hold:

- The storage-polling download looks for the next part and for the end marker in two storage calls. A
  part stored between the two is missing after a clean end (`Streaming.RemoteCanMissAPart`); the
  download is complete if and only if nothing was stored there (`Streaming.RemoteDownload`).
- A listing shows a chunk under its index if and only if the index is below one million, because it is
  scanned with a width of six digits (`UploadPaths.IndexInverts`); a larger upload never looks complete
  (`UploadSafety.AllStored`).
- If the marker of a completed upload cannot be written, the same completion is accepted again: create,
  write, complete, complete (`UploadFinality.LostMarkerRun`). A delivery is the last of its upload if
  and only if its own completion wrote the marker (`UploadFinality.FinalExactly`).
- An all-digit compact plugin ID parses as a decimal number, which is never the ID
  (`PluginId.LooksDecimal`); a compact text parses back if and only if it has a letter
  (`PluginId.RoundTripExactly`).
- Two different series can have the same identity (`MetricsReplay.BarsCollide`,
  `MetricsReplay.EqualsCollide`). A series shares its key with another if and only if it has labels, or
  its name has a bar and later an equals sign (`MetricsReplay.SharedExactly`).
- Times are merged by their 64-bit nanoseconds, so of two times 2^64 nanoseconds apart the second is
  lost (`MetricsReplay.StampsCollide`). The union is exact if and only if no two times coincide
  (`MetricsReplay.MergedPoints`).
- A placeholder inside another one makes the expanded command depend on the order in which maps are
  walked (`Shortcodes.NestedDependsOnOrder`). All orders agree if and only if no matched pair of braces
  contains another one (`Shortcodes.OrderIndependentExactly`).
- The comment on revoke-or-forbid says that the user cannot use the abilities by any means. A grant
  everywhere among the user's own rows still counts (`Rbac.WiderGrantSurvives`); the exact condition is
  `Rbac.RevokeOrForbidExactly`.

## Model

| member | source | states |
|---|---|---|
| Base62.NewEncoding | pkg/base62/base62.go:25-45 | an alphabet is accepted exactly when it has 62 bytes and no line break; the decode table marks exactly the bytes outside it; it is invertible if and only if the bytes are distinct |
| Base62.WindowBits | pkg/base62/base62.go:110-122 | shifting and joining two neighbouring bytes reads a six-bit window of the big-endian value |
| Base62.Encoder.Get6Bits | pkg/base62/base62.go:110-122 | the result is the six bits of the value that end at the current bit position |
| Base62.SymbolStep | pkg/base62/base62.go:96-104 | the mask tests choose the symbol and width of the reference recursion |
| Base62.Encoder.Encode | pkg/base62/base62.go:93-108 | the loop appends exactly the symbols of the reference recursion on the number |
| Base62.SymbolBits | pkg/base62/base62.go:194-201 | a symbol carries five or six bits, the last one only as many as its value needs |
| Base62.Absorb | pkg/base62/base62.go:193-208 | taking a symbol in keeps written bytes plus pending bits equal to the number read so far |
| Base62.DecodeInto | pkg/base62/base62.go:183-216 | reports the first foreign byte, never writes outside its space on any input, and ends with exactly the bytes the text denotes |
| Base62.SymbolsDenote | pkg/base62/base62.go:93-108 | behind any prefix, the symbols of a number denote that number and fill all but at most six of its bits |
| Base62.RoundTrip | pkg/base62/base62.go:93-216 | decoding an encoding succeeds and gives the same bytes, leading zeros included, for every byte string and invertible alphabet |
| Base62.EncodedInjective | pkg/base62/base62.go:48-60 | no two byte strings share a text |
| Base62.Encode | pkg/base62/base62.go:48-60 | the empty string too |
| Base62.EncodeToBuf | pkg/base62/base62.go:72-79 | appends exactly what Encode returns |
| Base62.Decode | pkg/base62/base62.go:133-145 | the denoted bytes or the position of the first foreign byte; the buffer of six eighths plus one always suffices |
| Base62.DecodeToBuf | pkg/base62/base62.go:157-179 | appends exactly what Decode returns, in place or in a grown buffer, and leaves the old content alone |
| Base62Integer.DigitsDenote | pkg/base62/integer.go:21-39 | positional digits denote their number |
| Base62Integer.ElevenDigits | pkg/base62/integer.go:28-35 | eleven digits hold every 64-bit value |
| Base62Integer.AppendUint | pkg/base62/integer.go:21-39 | appends the digits, most significant first, without leaving the eleven-byte buffer |
| Base62Integer.ParseUint | pkg/base62/integer.go:56-67 | the value modulo 2^64, or the position of the first foreign byte |
| Base62Integer.UintRoundTrip | pkg/base62/integer.go:9-67 | parsing a formatted unsigned integer gives it back |
| Base62Integer.FormatInt | pkg/base62/integer.go:4-6 | the text of the two's complement, which parses back to the same signed number |
| Base62Integer.ParseInt | pkg/base62/integer.go:44-51 | the signed reading of the parsed value |
| Transfers.RunInv | internal/transfers/registry.go:55-121 | in every interleaving every channel but the current one is closed or owned by exactly one pending close |
| Transfers.NoLostWakeUp | internal/transfers/registry.go:55-121 | a blocked waiter holds the current channel with what it saw still true, or a closed one, or one that exactly one thread is about to close |
| Transfers.WaiterCanProceed | internal/transfers/registry.go:93-121 | a waiter with something to return for can wake now or after the one pending close |
| Transfers.NeverClosedTwice | internal/transfers/registry.go:55-87 | no run closes a channel twice |
| Transfers.StateIsHistory | internal/transfers/registry.go:55-87 | in every run the count is the number of AddPart steps, completion is recorded if and only if a Complete step happened, and the error is that of the first SetError step |
| Transfers.CheckExactly | internal/transfers/registry.go:93-121 | a look in any run answers by the steps so far: part added, else first error, else completed, else it blocks |
| Transfers.WaitsForItsPart | internal/transfers/registry.go:93-121 | a waiter looks for, waits for and is answered about the part it last asked for |
| Transfers.TurnIsOwn | internal/transfers/registry.go:55-121 | what a thread is doing follows from its own last step, whatever the others do |
| Transfers.State.AddPart | internal/transfers/registry.go:55-62 | the locked section is the AddPart step and hands out the channel to close |
| Transfers.State.Complete | internal/transfers/registry.go:64-76 | the locked section is the Complete step; a second one has nothing to close |
| Transfers.State.SetError | internal/transfers/registry.go:78-87 | the locked section is the SetError step; the first error stays |
| Transfers.State.WaitForPart | internal/transfers/registry.go:93-121 | one look serves parts before errors before completion, as the step does |
| Streaming.LocalRunInv | internal/daemon/file.go:224-307 | the reader has delivered exactly the parts before its current one, in every run |
| Streaming.LocalDownload | internal/daemon/file.go:224-307 | the pipe carries an in-order prefix, an announced part is always found, and a clean end means every announced part was delivered |
| Streaming.ErrorAfterParts | internal/daemon/file.go:224-307 | an error reaches the reader only after every part announced by then |
| Streaming.EndIsFinal | internal/daemon/file.go:224-307 | nothing after a clean end makes it incomplete |
| Streaming.DownloadFinishes | internal/daemon/file.go:224-307 | from every reachable state in which the transfer is over, the reader by its own looks alone delivers every announced part and ends, with the error if one was set and cleanly otherwise |
| Streaming.BrokenForAReason | internal/daemon/file.go:224-307 | a broken download has its cause in the run: the transfer's error, a cancellation, or a failed copy |
| Streaming.DeliveredAreDeleted | internal/daemon/file.go:224-307 | if no deletion fails, storage holds exactly the parts not yet delivered |
| Streaming.RemoteRunInv | internal/daemon/file.go:360-476 | the polling reader has delivered exactly the parts before its current one, in every run |
| Streaming.RemoteDownload | internal/daemon/file.go:360-476 | an in-order prefix in every run; at a clean end exactly what was stored at the last lookup, so complete if and only if nothing was stored since |
| Streaming.RemoteCanMissAPart | internal/daemon/file.go:436-476 | a run that ends cleanly without its only part |
| Streaming.PollingFinishes | internal/daemon/file.go:360-476 | from every reachable start of a round with a sentinel and no waiting error, everything stored is delivered and the end is clean if and only if the sentinel reports success |
| Streaming.RoundEnds | internal/daemon/file.go:436-476 | from every reachable state the reader comes to its next round, or ends, within three looks of its own |
| Streaming.PollEndsForAReason | internal/daemon/file.go:360-476 | a polling download ends only for a cause in the run: a sentinel, the failure of its task, a time-out, or a failed copy |
| Streaming.TaskErrorSeen | internal/daemon/file.go:436-476 | a waiting failure of the task breaks the download at the next look and is taken once |
| Streaming.SignalsStay | internal/daemon/file.go:360-476 | the sentinel is the one written last, and a failure of the task is never lost |
| Streaming.ReadAreDeleted | internal/daemon/file.go:360-434 | if no deletion fails, storage holds exactly the parts not yet delivered |
| MetricsHub.SumRemove | internal/metrics/hub.go:626-629 | the total of the reports does not depend on the order in which the map is walked |
| MetricsHub.HubInvariant | internal/metrics/hub.go:195-253 | in every run the counter equals the subscribers, reports are positive, an armed timer means a running poll, and at most one poll is not cancelled |
| MetricsHub.StopsOnlyWhenIdle | internal/metrics/hub.go:661-692 | a poll is stopped only by a timer callback that finds no local subscriber and no unexpired report |
| MetricsHub.SubscribersAreHistory | internal/metrics/hub.go:195-253 | in every run the subscribers are those added and not removed since |
| MetricsHub.ReportsAreHistory | internal/metrics/hub.go:483-511 | a stored report is the last one of its instance, and only one that has run out may be missing |
| MetricsHub.ListenersExactly | internal/metrics/hub.go:619-629 | the total is positive if and only if somebody is subscribed or some last report has not run out |
| MetricsHub.AggregateExactly | internal/metrics/hub.go:619-629 | an evaluation records the number of subscribers plus the counts of the live reports |
| MetricsHub.FireExactly | internal/metrics/hub.go:661-692 | in every run a timer callback ends the running poll if and only if nobody listens at that moment |
| MetricsHub.EvaluateExactly | internal/metrics/hub.go:612-659 | an evaluation leaves a poll running if and only if one was or somebody listens; with a poll and nobody listening it leaves a timer armed |
| MetricsHub.IdlePollEnds | internal/metrics/hub.go:612-692 | idle, evaluate, fire: then no poll runs |
| MetricsHub.ReportStored | internal/metrics/hub.go:483-511 | while an instance keeps reporting in time its report stays stored, with a full lifetime from when it was last heard |
| MetricsHub.StepKeepsPoll | internal/metrics/hub.go:612-692 | one more event then neither stops a running poll nor leaves an evaluation without one |
| MetricsHub.PollSurvives | internal/metrics/hub.go:483-692 | while a remote instance keeps listening no mix of purges, timers, unsubscribes and other reports cancels the poll |
| MetricsHub.PollRuns | internal/metrics/hub.go:612-659 | after one evaluation while a remote instance listens, a poll runs to the end of the run |
| MetricsHub.NodeState.AddSubscriber | internal/metrics/hub.go:212-216 | the locked section is the Add step |
| MetricsHub.NodeState.RemoveSubscriber | internal/metrics/hub.go:236-244 | the locked section is the Remove step |
| MetricsHub.NodeState.HandleHeartbeat | internal/metrics/hub.go:497-506 | the locked section is the Heartbeat step |
| MetricsHub.NodeState.Purge | internal/metrics/hub.go:619-624 | exactly the unexpired reports remain, in any order of the walk |
| MetricsHub.NodeState.Aggregate | internal/metrics/hub.go:626-629 | the local count plus the sum of the reports |
| MetricsHub.NodeState.MaybeStartOrStopPoll | internal/metrics/hub.go:612-659 | the locked section is the Evaluate step |
| MetricsHub.NodeState.StopPollIfStillIdle | internal/metrics/hub.go:661-692 | the callback is the Fire step |
| MetricsReplay.Ring.Append | internal/metrics/ring.go:33-49 | the ring holds exactly the last entries up to its capacity; nothing is appended for nil |
| MetricsReplay.Ring.Snapshot | internal/metrics/ring.go:53-78 | the entries from the first fresh one on |
| MetricsReplay.SnapshotExact | internal/metrics/ring.go:53-78 | a suffix that loses no fresh entry, and holds only fresh ones if and only if no stale entry follows a fresh one |
| MetricsReplay.SeriesIdentityKey | internal/metrics/merge.go:91-114 | the key is a function of name and labels alone, whatever the order of the label map |
| MetricsReplay.AscendingUnique | internal/metrics/merge.go:97-101 | a set of keys has only one ascending order |
| MetricsReplay.KeyInjective | internal/metrics/merge.go:91-114 | with no bar anywhere and no equals sign in label keys, equal keys mean equal name and labels |
| MetricsReplay.BarsCollide | internal/metrics/merge.go:91-114 | a bar in a name makes two different series share a key |
| MetricsReplay.EqualsCollide | internal/metrics/merge.go:106-111 | an equals sign in a label key makes two label maps share a key, with no bar anywhere |
| MetricsReplay.SharedExactly | internal/metrics/merge.go:91-114 | some other series has the same key if and only if the key has a bar and later an equals sign, that is, the series has labels or its name reads as if it had |
| MetricsReplay.DedupFacts | internal/metrics/merge.go:53-60 | of every nanosecond stamp exactly the first point stays |
| MetricsReplay.SortFacts | internal/metrics/merge.go:64-71 | sorting keeps exactly the points and makes times strictly increase |
| MetricsReplay.MergedPoints | internal/metrics/merge.go:19-87 | a merged series strictly increases, holds exactly the first-seen points and every stamp; its times are the union if and only if no two times share a stamp |
| MetricsReplay.StampsCollide | internal/metrics/merge.go:53-60 | of two times 2^64 nanoseconds apart the second is lost |
| MetricsReplay.NanoInRange | internal/metrics/merge.go:54-55 | times within signed 64-bit nanoseconds never coincide |
| MetricsReplay.AddPoints | internal/metrics/merge.go:53-60 | the inner loop keeps the bucket equal to the deduplicated points so far |
| MetricsReplay.AddSeries | internal/metrics/merge.go:36-61 | one more series keeps buckets and order equal to the specification of the series so far |
| MetricsReplay.MergeResponses | internal/metrics/merge.go:19-87 | none, the single entry, or one series per identity in first-occurrence order with merged points |
| MetricsReplay.FirstKeysFacts | internal/metrics/merge.go:36-51 | the order lists every identity that occurs, once |
| MetricsReplay.MergeExactly | internal/metrics/merge.go:19-87 | the merged series have different identities, those of the entries; each holds only points some entry reports for it, and one for every reported time stamp |
| MetricsReplay.HeaderIsFirst | internal/metrics/merge.go:36-51 | the header of a merged series is that of the first series with its identity |
| MetricsReplay.WindowIsMax | internal/metrics/merge.go:19-87 | the window covers every entry's and is one of them |
| UploadPaths.LastChunk | internal/upload/service.go:84-87 | what the last chunk takes, in wrapping arithmetic, is exactly what the full chunks leave |
| UploadPaths.ChunkSizesExact | internal/upload/session.go:33-41 | the sizes always add up to the total, even where the ceiling wraps; all lie between one and the chunk size if and only if it does not wrap or one chunk suffices |
| UploadPaths.Pad6Value | internal/upload/session.go:68-70 | a padded index has its own value, and six digits exactly below a million |
| UploadPaths.ScanPad6 | internal/upload/session.go:86-91 | scanning a padded index gives it back if and only if it is below a million |
| UploadPaths.IndexInverts | internal/upload/session.go:72-92 | in each of the three listing forms the index comes back if and only if it is below a million |
| UploadPaths.ChunkPathInjective | internal/upload/session.go:68-70 | different chunks have different paths |
| UploadPaths.RootsDisjoint | internal/upload/session.go:48-50 | no path lies under two uploads with slash-free IDs |
| UploadPaths.IDFromFullPath | internal/upload/janitor.go:140-147 | a full path names the one upload it lies under |
| UploadPaths.IDFromListing | internal/upload/janitor.go:150-155 | a bare name gives its upload; with a trailing slash it does if and only if it is not "transfers" |
| UploadSafety.Isolated | internal/upload/service.go:119-375 | an operation on one upload leaves the files of every other as they were |
| UploadSafety.UnknownIgnored | internal/upload/service.go:328-339 | an ID that was never handed out changes nothing |
| UploadSafety.AllStored | internal/upload/service.go:225-236 | when the listing shows every chunk, every chunk is stored and there are at most a million |
| UploadSafety.AssembledWhole | internal/upload/service.go:238-251 | what completion assembles has exactly the announced size |
| UploadSafety.SweepExact | internal/upload/janitor.go:74-130 | a sweep removes an upload whole if its readable metadata has a set expiry that has been reached, and otherwise leaves all of it |
| UploadSafety.StepInv | internal/upload/service.go:71-375 | every operation keeps each stored chunk at exactly its size, markers only for accepted uploads, and every dispatch of the size, checksum and target that its session announced, with bytes of that size and checksum |
| UploadSafety.RunInv | internal/upload/service.go:71-375 | so does every run |
| UploadDelivery.ChunkTaken | internal/upload/service.go:119-166 | a chunk is taken if and only if it is not refused and its body has the chunk's size and ends there; at the largest signed size a longer body is cut, above it none is taken |
| UploadDelivery.ChunkUploaded | internal/upload/service.go:140-157 | every stored chunk holds the body of a write to that chunk |
| UploadDelivery.SessionCreated | internal/upload/service.go:71-117 | every session that stands was made by a creation of that upload in the run |
| UploadDelivery.DispatchAnnounced | internal/upload/service.go:204-293 | in every run each dispatch has the node, path, user, size and checksum announced by a creation of that upload, and its bytes have that size and checksum |
| UploadDelivery.AssembledParts | internal/upload/service.go:238-251 | the assembled data is the in-order concatenation of the stored chunks |
| UploadDelivery.DeliversUploadedBytes | internal/upload/service.go:204-293 | whatever the daemon is asked to fetch is the in-order concatenation of one uploaded body per chunk, each of the size that the configured chunk size gives it |
| UploadDelivery.ReceivedExactly | internal/upload/service.go:225-236 | the listing is complete if and only if all of at most a million chunks are stored |
| UploadDelivery.DispatchExactly | internal/upload/service.go:204-278 | the daemon is asked if and only if the caller may complete, the node is right, no marker stands, all chunks are stored and the digest matches |
| UploadDelivery.DoneMeansAccepted | internal/upload/service.go:275-300 | a marker stands only beside a session, and only if the daemon accepted the upload with the size, checksum and target that this session announced |
| UploadFinality.FinalStep | internal/upload/service.go:119-375 | once an upload is marked or gone, one more operation of any kind keeps it so and dispatches nothing of it |
| UploadFinality.DoneIsFinal | internal/upload/service.go:133-223 | once the marker stands, in every continuation no chunk of the upload is taken and the daemon is never asked about it again, accepted or not |
| UploadFinality.FinalExactly | internal/upload/service.go:275-300 | an accepted delivery is the last dispatch of its upload in every continuation if and only if its own completion wrote the marker |
| UploadFinality.DeliveredOnce | internal/upload/service.go:204-307 | an upload whose accepted completions wrote their markers is accepted at most once and not dispatched afterwards, whatever happens to other uploads |
| UploadFinality.LostMarkerRepeats | internal/upload/service.go:295-300 | in any state in order, a completion accepted without its marker is accepted again |
| UploadFinality.LostMarkerRun | internal/upload/service.go:295-300 | a run of four steps, under any usual configuration, in which the daemon accepts one upload twice |
| UploadLifetime.CreatedOnce | internal/upload/service.go:71-117 | no run creates an upload ID twice |
| UploadLifetime.StandingSession | internal/upload/service.go:71-117 | the session of an upload that still stands is the one its creation made: owner, node, number of chunks, and an expiry one lifetime after |
| UploadLifetime.SweepByCreation | internal/upload/janitor.go:74-130 | in every run a sweep leaves no file of an upload if and only if its creation plus the lifetime has been reached and is not zero, and otherwise leaves all of them |
| UploadLifetime.SweepByMetadata | internal/upload/janitor.go:102-130 | an upload with missing or unreadable metadata, or without an expiry, keeps all its files |
| UploadLifetime.AccessExactly | internal/upload/service.go:341-350 | writing, completing and aborting are forbidden to everyone but the creator, who is told of the expiry exactly when the lifetime is over; an expiry of zero means none |
| UploadLifetime.AbortRemovesAll | internal/upload/service.go:309-326 | an abort by the creator in time removes every file; any other changes nothing |
| UploadLifetime.AbortUnknown | internal/upload/service.go:309-326 | aborting an upload that is not there succeeds and changes nothing |
| UploadLifetime.FilesOfUpload | internal/upload/service.go:71-375 | in every run an upload has no other files than metadata, marker, data and chunks, and data only while a clean-up is to come |
| UploadLifetime.CleanupLeaves | internal/upload/service.go:367-375 | a clean-up leaves exactly metadata and marker |
| UploadLifetime.CleanUpsBalance | internal/upload/service.go:275-307 | in every run the clean-ups run and still to run are as many as the accepted dispatches |
| UploadLifetime.WriteLeaves | internal/upload/service.go:119-158 | a write changes at most its chunk: the body if it was taken, as before if refused unread, gone otherwise |
| UploadLifetime.CompleteLeaves | internal/upload/service.go:204-307 | a completion changes at most data and marker: nothing if refused, no data if it failed, the chunks in order if accepted |
| UploadLifetime.DoneAnswers | internal/upload/service.go:119-223 | once done, the creator's chunks are refused and completing again from the upload's node succeeds, without any change |
| UploadLifetime.IndexExactly | internal/upload/service.go:133-140 | a chunk is refused for its number if and only if it would start at or beyond the end of the upload; where the ceiling wraps only the first is taken |
| UploadLifetime.CreateExactly | internal/upload/service.go:71-95 | an upload is accepted if and only if it is not empty, its checksum is hexadecimal, chunks are cut, and it fits into the allowed number of them |
| UploadLifetime.ChecksumExactly | internal/upload/service.go:377-392 | the accepted checksums are exactly the hexadecimal texts of 32-byte digests, in either case |
| UploadService.Service.DeleteByPrefix | internal/files/inmemory.go:126-137 | exactly the files outside the prefix remain, in any order of the walk |
| UploadService.Service.Create | internal/upload/service.go:71-117 | the Create step, with the session or the reason for refusal |
| UploadService.IsHexSHA256 | internal/upload/service.go:377-392 | accepts exactly 64 hexadecimal digits |
| UploadService.Service.WriteChunk | internal/upload/service.go:119-158 | the write step: the new storage and the error |
| UploadService.Service.ReceivedChunks | internal/upload/service.go:352-365 | exactly the indices of the listed chunks |
| UploadService.Service.GetStatus | internal/upload/service.go:168-202 | received and missing partition the chunks in ascending order; the uploaded bytes are the sizes of those received |
| UploadService.SplitChunks | internal/upload/service.go:182-193 | the loop splits the range by the listing |
| UploadService.UploadedWithinTotal | internal/upload/service.go:184-192 | the uploaded bytes never exceed the total, so their sum does not wrap |
| UploadService.Service.Assemble | internal/upload/service.go:238-251 | the chunks read one after the other, or nothing where one cannot be opened |
| UploadService.Service.Complete | internal/upload/service.go:204-307 | the completion step: storage, dispatch and error |
| UploadService.Service.Abort | internal/upload/service.go:309-326 | the abort step |
| UploadService.Service.CleanupAfterComplete | internal/upload/service.go:367-375 | the clean-up step |
| UploadService.Service.Sweep | internal/upload/janitor.go:74-94 | the loop over the listing, in any order, removes exactly the expired uploads |
| UploadService.Service.MaybeRemove | internal/upload/janitor.go:102-130 | removes one upload exactly when it has expired |
| Shortcodes.NothingToExpand | internal/domain/server.go:95-135 | a text with no known name is its own expansion |
| Shortcodes.ReplaceIsExpand | internal/domain/server.go:96-96 | one ReplaceAll of a brace-free key replaces exactly the placeholders of that name, in any text |
| Shortcodes.ExpandTwice | internal/domain/server.go:95-135 | in an unnested text an expansion leaves exactly the other names, opens no new placeholder, and a second one acts as if both were simultaneous |
| Shortcodes.ReplaceServerShortcodes | internal/domain/server.go:93-138 | the loops compute the walk of both maps in the orders in which they were visited, whatever keys and values hold; for an unnested command and brace-free maps that is the simultaneous substitution |
| Shortcodes.AnyOrder | internal/domain/server.go:93-138 | for brace-free keys and values and an unnested command, every order of both maps gives the simultaneous substitution, extras first |
| Shortcodes.PlaceholderBecomes | internal/domain/server.go:93-138 | a command that is one placeholder becomes its value in every order, or stays if it has none |
| Shortcodes.ServerShows | internal/domain/server.go:99-135 | which field each of the twelve shortcodes shows, in lower and upper case, unless an extra has the name |
| Shortcodes.NestedDependsOnOrder | internal/domain/server.go:95-135 | every command with a nested pair has brace-free extras and two orders of them that give different results, whatever the server's values and their order |
| Shortcodes.OrderIndependentExactly | internal/domain/server.go:93-138 | all orders agree for all brace-free maps if and only if no matched pair of braces in the command contains another one |
| Shortcodes.NestingExamples | internal/domain/server.go:95-135 | an unmatched brace before a placeholder is plain text; a matched one nests |
| ProtoWire.SizeIsLength | pkg/proto/daemontask_vtproto.pb.go:127-173 | the size formula is the length of the varint |
| ProtoWire.EncodeVarint | pkg/proto/daemontask_vtproto.pb.go:41-125 | the varint is written so that it ends where it should, before what is there |
| ProtoWire.ReadVarint | pkg/proto/daemontask_vtproto.pb.go:181-194 | the read loop gives the value modulo the width, or the same error as the reference reader |
| ProtoWire.VarintReads | pkg/proto/daemontask_vtproto.pb.go:181-194 | reading a written varint gives the value and its end |
| DaemonTaskCodec.SizeVT | pkg/proto/daemontask_vtproto.pb.go:127-173 | exactly the length of the wire text |
| DaemonTaskCodec.MarshalToSizedBufferVT | pkg/proto/daemontask_vtproto.pb.go:41-125 | fills the end of the buffer with exactly the wire text |
| DaemonTaskCodec.MarshalVT | pkg/proto/daemontask_vtproto.pb.go:23-34 | a buffer of SizeVT bytes is filled exactly |
| DaemonTaskCodec.UnmarshalVT | pkg/proto/daemontask_vtproto.pb.go:175-512 | the loop over fields computes the reference parse, errors included |
| DaemonTaskCodec.ReadTag | pkg/proto/daemontask_vtproto.pb.go:180-202 | field number and wire type, or the error |
| DaemonTaskCodec.ReadBytes | pkg/proto/daemontask_vtproto.pb.go:301-333 | a length-delimited field, with every bound check |
| DaemonTaskCodec.ReadNumber | pkg/proto/daemontask_vtproto.pb.go:204-300 | the numeric fields, enums truncated to 32 bits |
| DaemonTaskCodec.ReadTime | pkg/proto/daemontask_vtproto.pb.go:419-454 | a timestamp field merged into the value before it |
| DaemonTaskCodec.SkipUnknown | pkg/proto/daemontask_vtproto.pb.go:491-504 | an unknown field is kept as it came |
| DaemonTaskCodec.RoundTrip | pkg/proto/daemontask_vtproto.pb.go:41-512 | parsing the wire text gives the message back if and only if its unknown bytes are whole unknown fields; optional zeros and negative enums included |
| UnknownFields.Skip | pkg/plugin/proto/plugin_vtproto.pb.go:6403-6481 | the loop with its group depth computes the reference skip, errors included |
| UnknownFields.SkipValue | pkg/plugin/proto/plugin_vtproto.pb.go:6425-6471 | the value behind a tag, for each wire type |
| UnknownFields.SkipExactly | pkg/plugin/proto/plugin_vtproto.pb.go:6403-6481 | a skip succeeds inside the text if and only if it covers exactly one field of the encoding, nested groups and padded varints included |
| UnknownFields.KeptExactly | pkg/proto/daemontask_vtproto.pb.go:491-505 | the unknown bytes that survive are exactly the texts of sequences of fields the message does not define |
| UnknownFields.ParsedIsKept | pkg/proto/daemontask_vtproto.pb.go:175-512 | whatever is parsed, the collected unknown bytes are such a sequence |
| UnknownFields.ParsedRoundTrip | pkg/proto/daemontask_vtproto.pb.go:41-512 | what a text parses to is what its own wire form parses to, for every text |
| Dispatcher.RunInv | internal/daemon/file_dispatcher.go:73-490 | over all runs of several instances with lost, repeated and delayed messages, pending maps are exact and every response is honest |
| Dispatcher.SucceedsWithOwnResponse | internal/daemon/file_dispatcher.go:73-116 | a dispatch succeeds only with a response to its own request, telling what an execution of that request answered |
| Dispatcher.PendingExactly | internal/daemon/file_dispatcher.go:81-89 | each pending map holds exactly its instance's calls in flight |
| Dispatcher.SendFillsOwnChannel | internal/daemon/file_dispatcher.go:470-490 | the channel a response handler sends to exists; its one non-blocking step leaves a response there, ends the handler and touches nothing else |
| Dispatcher.ResolvesHonestly | internal/daemon/httpproxy_dispatcher.go:111-135 | fetching an answer always succeeds, with bytes some execution of the request gave |
| Dispatcher.ProxyGetsExecutorsBytes | internal/daemon/httpproxy_dispatcher.go:198-232 | if all executions of a request gave one outcome, the proxy caller gets its bytes, inline or through storage |
| Dispatcher.FaultFreeDelivers | internal/daemon/httpproxy_dispatcher.go:80-276 | from every reachable state, for every new request and outcome: if nothing fails the dispatch returns the executor's answer or its error, a proxy call ends with the executor's bytes, inline or through storage, and leaves nothing in storage |
| Dispatcher.FirstResponseWins | internal/daemon/file_dispatcher.go:470-490 | the first response in a call's channel stays until the call takes it |
| Dispatcher.FailsExactly | internal/daemon/file_dispatcher.go:91-109 | in every run a call fails as unpublished, cancelled or timed out if and only if that happened to it |
| Dispatcher.RemoteFailure | internal/daemon/file_dispatcher.go:106-114 | every other failure is an error that an execution of its request gave |
| Dispatcher.PendingRequests.Insert | internal/daemon/file_dispatcher.go:81-83 | the locked insertion is the Register step on this instance's map |
| Dispatcher.PendingRequests.Remove | internal/daemon/file_dispatcher.go:85-89 | the deferred removal is the Return step |
| Dispatcher.PendingRequests.Lookup | internal/daemon/file_dispatcher.go:478-480 | a handler starts exactly when the request is pending here |
| Dispatcher.PendingRequests.Offer | internal/daemon/file_dispatcher.go:482-487 | the send fills an empty channel and is dropped at a full one |
| Rbac.UndecidedIff | internal/rbac/rbac.go:116-150 | whether rows decide at all does not depend on their order |
| Rbac.GrantHoldsExactly | internal/rbac/rbac.go:128-148 | a single grant holds on exactly the entity, the type, or everything, that its row names |
| Rbac.AllowedExactly | internal/rbac/rbac.go:116-150 | allowed if and only if some row with the name grants it and none before it with the name grants or forbids |
| Rbac.CanSomeExactly | internal/rbac/rbac.go:71-100 | the any-of check holds if and only if some row grants one of the names bound to nothing; forbidding rows do not matter to it |
| Rbac.OwnRowsFirst | internal/rbac/rbac.go:369-419 | the user's own rows decide before the roles, and the roles in the order in which they are held |
| Rbac.RoleRowsExactly | internal/rbac/rbac.go:385-418 | which rows of a restricted role count, by the restriction on type, ID or both |
| Rbac.RestrictedRoleGrants | internal/rbac/rbac.go:385-418 | a restricted role grants only on entities: those of its type, or those with its ID if it names one |
| Rbac.AllowExactly | internal/rbac/rbac.go:260-293 | after allowing on an entity: the named abilities hold there unless a surviving own row forbids first, and every other target answers as without the added rows |
| Rbac.AllowTakesEffect | internal/rbac/rbac.go:260-293 | without a forbidding own row for the name the ability is allowed on the entity afterwards, whatever the roles say |
| Rbac.CanImplies | internal/rbac/rbac.go:35-153 | Can implies CanForEntity on every entity and, for a non-empty list, CanOneOf |
| Rbac.RevokedExactly | internal/rbac/rbac.go:298-352 | afterwards, with the user's rows in any order, a named ability is allowed if and only if the user's own rows grant it before one forbids it |
| Rbac.RevokedUnlessGranted | internal/rbac/rbac.go:295-352 | nothing is allowed when no surviving row of the user grants it, whatever the roles grant |
| Rbac.RevokedByOwnRows | internal/rbac/rbac.go:338-342 | forbidding rows stored last leave the verdict to the rows that survived the revocation |
| Rbac.RevokeOrForbidExactly | internal/rbac/rbac.go:298-352 | on the repository: allowed afterwards if and only if the surviving own rows grant it before any forbids it |
| Rbac.WiderGrantSurvives | internal/rbac/rbac.go:295-352 | a grant everywhere among the user's own rows survives a revocation on one entity |
| Rbac.DropKeeps | internal/rbac/rbac.go:286-289 | dropping one user's entry keeps the cache coherent when that user's rows change |
| Rbac.FilterRole | internal/rbac/rbac.go:385-418 | the rows that count of a restricted role |
| Rbac.GroupByName | internal/rbac/rbac.go:421-428 | every name maps to exactly its rows, in order |
| Rbac.CheckAll | internal/rbac/rbac.go:41-67 | the counter loop answers the conjunction of the single checks |
| Rbac.CheckSome | internal/rbac/rbac.go:77-99 | true exactly when some named row grants everywhere |
| Rbac.Service.CleanupExpired | internal/rbac/cache.go:121-127 | exactly the expired entries go, in any order of the walk |
| Rbac.Service.CollectRows | internal/rbac/rbac.go:369-419 | the user's own rows, then those of each role |
| Rbac.Service.GetAllPermissionsForUser | internal/rbac/rbac.go:358-436 | cached or not, the grouping of the repository's rows; the cache stays coherent |
| Rbac.Service.Can | internal/rbac/rbac.go:35-68 | the answer the repository's rows give |
| Rbac.Service.CanForEntity | internal/rbac/rbac.go:102-153 | the answer the repository's rows give on the entity |
| Rbac.Service.CanOneOf | internal/rbac/rbac.go:71-100 | the answer the repository's rows give for any of the abilities |
| Rbac.Service.AllowUserAbilitiesForEntity | internal/rbac/rbac.go:260-293 | the user's rows for exactly these abilities are replaced by grants; the cache stays coherent |
| Rbac.Service.RevokeOrForbidUserAbilitiesForEntity | internal/rbac/rbac.go:298-352 | the user's rows become the survivors and one forbidding row per ability still allowed; the cache stays coherent |
| PluginId.DecodesEncoding | pkg/plugin/id.go:12-12 | unpadded base 32 round-trips for every byte string |
| PluginId.CompactPluginID | pkg/plugin/id.go:32-42 | the loop skips leading zero bytes but one, and the text decodes to the ID |
| PluginId.ParsePluginID | pkg/plugin/id.go:14-30 | decimal, then base 32 of at most eight bytes, then the hash |
| PluginId.CompactInjective | pkg/plugin/id.go:32-42 | different IDs have different compact texts |
| PluginId.DecimalMissesId | pkg/plugin/id.go:14-17 | an all-digit compact text read as decimal is smaller than the ID |
| PluginId.RoundTripExactly | pkg/plugin/id.go:14-42 | a compact text parses back if and only if it has a letter |
| PluginId.SmallFirstByte | pkg/plugin/id.go:14-42 | a first byte below 0xD0 suffices |
| PluginId.LooksDecimal | pkg/plugin/id.go:14-17 | the ID 215 has the text "24", which parses as twenty-four |
| ShellQuote.ScanQuote | pkg/shellescape/shellescape.go:11-13 | a quoted string, wherever a word may stand, adds exactly that string to the word |
| ShellQuote.OneWord | pkg/shellescape/shellescape.go:11-13 | a shell reads a quoted string as one word, equal to it |
| ShellQuote.ArgumentsSurvive | pkg/shellescape/shellescape.go:11-13 | arguments quoted one by one are read back in order, whatever they contain |

## Left out

- `Get`, `Set`, `Delete` and `Clear` of the permission cache are modelled but state no more than they do.
- Rbac.Service.GetAllPermissionsForUser: role changes are not part of the coherence claim, because `SetRolesToUser` does not touch the cache; repository errors and rolled-back transactions are left out.
- Rbac.Service.RevokeOrForbidUserAbilitiesForEntity: the repository appends new rows; `Rbac.RevokedExactly` covers every other order of the user's rows.
- `CanAnyForEntity`, `GetRoles` and `SetRolesToUser`: nothing hard to state.
- UploadSafety.RunInv: operations on uploads happen one at a time, on the semantics of the in-memory storage; two completions of one upload that overlap, and other back ends, are not modelled.
- UploadPaths.IndexInverts: names with leading blanks, which no operation writes, are not scanned as fmt does.
- JSON encoding of upload metadata: a stored document is the value it denotes, or does not parse.
- The context, timeouts and logging of `Complete`: a timeout is a refusal by the daemon.
- `lazyChunkReader`: its open, drain and close cycle; chunks are read whole.
- Local, S3, MySQL, Postgres and Redis back ends, the network, TLS and tokens.
- MetricsHub.HubInvariant: `Stop`, live samples, history replies and the delivery to subscription channels are not modelled.
- `downloadStreamLocalChunked` and the clean-up readers of downloads: the same loop over an offset.
- Streaming.LocalDownload: every part is assumed to be stored before it is announced, as the gRPC service does.
- MetricsReplay.SortFacts: sorting is a stable insertion of the deduplicated points, whose times differ, so any sort gives the same result.
- DaemonTaskCodec.RoundTrip: the timestamp payload is a parameter with the law it needs; messages longer than the largest signed 64-bit integer are left out.
- UnknownFields.Skip: `protohelpers.Skip`, which the message calls, is not part of the repository; the model is the same generated function in the plugin protocol. Texts longer than the largest signed 64-bit integer are left out of `SkipExactly`.
- DaemonTaskCodec.UnmarshalVT: UTF-8 validity of text fields is not checked, as in the source.
- Shortcodes.AnyOrder: keys or values with braces are left out of the claim; case changes are those of ASCII, as the server's keys are ASCII.
- `command_dispatcher.go`, `status_dispatcher.go` and `consolelog_dispatcher.go`: the protocol of `Dispatcher` with other payloads.
- Dispatcher.ProxyGetsExecutorsBytes: an executor error with an empty message is indistinguishable from an empty answer, and the contract says so.
- PluginId.ParsePluginID: the FNV-1a hash is a parameter; text is taken to hold no byte 0xFF.
- ShellQuote.OneWord: the reader knows quotes, escapes and blanks, and gives up at other unquoted special characters; no shell expansion is modelled.
- Routing, configuration, migrations, the plugin runtime and generated descriptors.
