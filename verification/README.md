# Synxor: verified model

A Dafny model of Synxor's transfer and presence protocols, with proofs. Synxor lets a Sender open a Room, upload files in
256 KiB chunks, and lets Receivers download them while the upload is still running.

`dafny verify dfyconfig.toml` checks the project.

## What is modelled

**The chunked transfer pipeline** (`Pipeline`, `PipelineSafety`, `PipelineTheorems`, `UploadOpening`, `DownloadOpening`).
Any number of chunk requests, duplicates, downloads, sweeps and Room purges run at once. Each is a process that moves from
one `await` to the next; the scheduler picks the process, the verdict of its storage or database call (done, refused, or
done with its answer lost) and the order of parallel removals. A pick that is not possible changes nothing, so a theorem
about all sequences of picks is a theorem about all runs. The proof is rely-guarantee: each process keeps its own invariant,
and every step keeps everyone else's. Requests carry true slices of the file behind their Transfer id; chunks of a wrong
length, wrong counts and wrong Rooms are all possible.

**The services as they are written** (`UploadSessions`, `ObjectStorage`, `UploadService`, `TransferDownload`,
`CleanupService`, `Gateway`, `Participants`). Classes whose loops and field updates are proved against specification
functions. `UploadRuns`, `CleanupRuns` and `TransferDownload` show that what these services do without interruption is a run
of the machine, so the machine's theorems speak about them. `ChunkedUpload` proves the upload round trip and recovery after a
failed final write, `UploadRecovery` recovery after any failed assembly, and `ResendRuns` that a re-send recovers among other
processes. A request is answered at its first failed removal; the removals still in flight then are part of the model.

**Tearing down** (`Cleanup`). Purge, close, expiry and reaping with a failure possible at any call: retries end like one
clean run, other Rooms and uploads are untouched, and a whole sweep ends and reaps exactly what is due. `SweepTiming` says
when a sweep takes an upload.

**Room presence** (`Presence`, `PresenceTheorems`, `Announcements`). Joins and leaves interleaving at their awaits, sockets
dropping at any moment, several connections of one person, failed joins and leaves, and a restart of the process.

**The web client** (`Typing`, `FileUploads`, `FileQueue`, `TransferLog`, `StreamSources`, `RoomFeed`, `Delivery`). The
typing heartbeat against the peer's safety timer as a timed machine, the one-lane upload scheduler, the drop queue, the
merge of history and live feed, and the delivery flash.

**Smaller pieces**: `TransferHistory` (the batched Log read), `StorageKey` and `Decimals` (keys as text), `RoomCode`.

## Where code and comments differ

- `chunk-assembler.ts:7-9` says a failed assembly leaves everything retryable. Whichever call fails, the session survives
  (`UploadRecovery.FailedAssemblyIsRecoverable`), and once no removal of the failed assembly is pending, re-sending chunks
  completes the upload (`UploadRecovery.ResendsCompleteOnTheLastMissing`). But not everything is left: after a removal failed
  part-way, every chunk whose removal took effect must be sent again. One re-send, enough after a failed final write, is then
  enough only in the case `UploadRecovery.OneResendIsEnoughIff` gives. And the client cannot tell when no removal is pending:
  `Promise.all` (lines 26-30) answers at the first failure with the others in flight, and one that lands during a re-send can
  defeat it (`ResendRuns.StragglerDefeatsResend`). `ResendRuns.ResendAmongOthers` says what a re-send needs of the processes
  around it.
- `expiry-sweeper.service.ts:23-24` says only uploads untouched for an hour are taken for abandoned, so that a slow but live
  sender is safe. The code measures from opening: `SweepTiming.LiveUploadIsQueued` is a run in which an upload is queued for
  reaping at the instant a chunk of it is received, and `SweepTiming.SweepsGoByTheOpening` says over every run that a sweep
  queues an upload exactly when it was opened more than an hour ago.
- `transfer-download.service.ts:78-82` expects a missing chunk only because assembly deleted it, with the session about to
  go. A sweep can have deleted it too (`PipelineTheorems.FetchedChunksAreMissingOnlyIf`), and after a failed removal the session
  stays: the follower polls although the file is stored (`ResendRuns.FailedRemovalsStallFollowers`,
  `TransferDownload.FollowersWaitForTheSlot`).
- `useComposingSignal.ts:5-7` says a still-composing peer never lapses. `Typing.LapsesExactlyWhenJitterExceedsHalfASecond`
  gives the exact limit: delivery jitter of half a second.
- `room.service.ts:102-104` skips the Sender read when no file is unattributed.
  `TransferHistory.SkippingTheSenderReadIsSafeExactlyWhen` says exactly when that is harmless; the foreign key makes it so.

## Model

| member | source | states |
|---|---|---|
| PipelineTheorems.DownloadsAreTrue | apps/api/src/transfer/transfer-download.service.ts:55-91 | In every interleaving of requests, duplicates, assembly, sweeps and purges, with any call failing, what a download has emitted is a prefix of the file; a download that ends normally emitted the whole file; a hop starts strictly inside the file |
| PipelineTheorems.HopFinishesTheFile | apps/api/src/transfer/transfer-download.service.ts:46-69 | Session gone means file there: a reader sent to the assembled object, hopping or from the start, ends with the whole file, unless the opening of the upload was rolled back or a purge or a reap went for the object |
| PipelineTheorems.CountingIsExact | apps/api/src/transfer/chunked-upload.service.ts:68-103 | A session that received anything has the right chunk count, only indices below it, and "received count = total" exactly when no index is missing |
| PipelineTheorems.ReceivedBytesAreKept | apps/api/src/transfer/chunked-upload.service.ts:83-94 | While a Transfer holds its slot and no sweep began to reap it, every received chunk is stored with its true bytes, or the file was assembled and is there unless a purge removed it |
| PipelineTheorems.FinalObjectIsWholeOrAbsent | apps/api/src/transfer/chunk-assembler.ts:16-40 | In every reachable state the final object is absent or exactly the file |
| PipelineTheorems.CompleteMeansStored | apps/api/src/transfer/chunked-upload.service.ts:90-102 | `complete` is answered exactly when every chunk is counted, and from then on, for ever, the stored file is the uploaded one unless a purge or a reap removed it |
| PipelineTheorems.SlotsAreConserved | apps/api/src/transfer/chunked-upload.service.ts:121-161 | A Room never holds more than ten slots and holds the Transfers admitted to it minus those completed, rolled back or collected by a sweep |
| PipelineTheorems.SlotsEndAsTold | apps/api/src/transfer/chunked-upload.service.ts:90-161 | The completed uploads are exactly those some request was answered `complete` for, and their file was assembled; a sweep collects an upload only after going for its final object; no admitted upload loses its slot otherwise |
| PipelineTheorems.RefusedExactlyWhenFull | apps/api/src/transfer/chunked-upload.service.ts:124-138 | An upload within the size limit is refused for capacity exactly when its Room holds ten |
| UploadOpening.FailedOpeningFreesTheSlot | apps/api/src/transfer/chunked-upload.service.ts:140-161 | If either row insert is refused, or reported failed though it took effect, the request is refused, the Transfer holds no session, every other session stays, and no Room holds a slot it did not hold before |
| UploadOpening.WrittenOpeningKeepsTheSlot | apps/api/src/transfer/chunked-upload.service.ts:140-161 | If both inserts are answered the Transfer has both rows, naming its own Room and object, and its slot is not given back |
| UploadOpening.FailedOpeningsHoldNoSlot | apps/api/src/transfer/chunked-upload.service.ts:121-161 | In every run, a Transfer whose opening request was refused without ever being validated was rolled back and holds no slot |
| UploadOpening.OpeningIsRefusedExactlyWhen | apps/api/src/transfer/chunked-upload.service.ts:121-138 | A first request is refused for size exactly when the file is over the limit, for capacity exactly when it is not and the Room holds ten; either way nothing changes |
| UploadOpening.ResumingIsRefusedExactlyWhen | apps/api/src/transfer/chunked-upload.service.ts:112-117 | A later request is refused as unknown exactly when the Transfer holds no session, for its Room exactly when it names another; either way nothing changes |
| UploadOpening.RequestsStayInTheirRoom | apps/api/src/transfer/chunked-upload.service.ts:112-117 | In every run, a later request is let through exactly when the Transfer it names was admitted to the Room it comes from and has not ended |
| UploadOpening.OversizedFilesAreNeverAdmitted | apps/api/src/transfer/chunked-upload.service.ts:121-124 | In every run, no file over the limit was ever admitted |
| UploadOpening.MisshapenChunksChangeNothing | apps/api/src/transfer/chunked-upload.service.ts:74-88 | A chunk is refused for its shape, nothing changed, exactly when its count, index or length is not that of a slice of the file |
| PipelineTheorems.SweepsAreExclusiveAndPatient | apps/api/src/sweeper/expiry-sweeper.service.ts:46-101 | No two sweeps are under way together, and a sweep reaps only sessions opened more than an hour before |
| SweepTiming.SweepsGoByTheOpening | apps/api/src/sweeper/expiry-sweeper.service.ts:88-90 | In every run, an upload still held is queued by a sweep that scans now if and only if it was opened more than an hour ago, whatever was received since |
| SweepTiming.LiveUploadIsQueued | apps/api/src/sweeper/expiry-sweeper.service.ts:88-101 | A run from the start in which the first chunk of a file is marked received and answered, and the sweep that scans at the same instant queues the upload for reaping |
| PipelineSafety.InvHoldsThroughout | apps/api/src/transfer/chunked-upload.service.ts:68-161 | The inductive invariant of the whole machine holds after every sequence of scheduler picks |
| PipelineSafety.StepIsSafe | apps/api/src/transfer/chunked-upload.service.ts:68-161 | Whatever process takes a step, the shared state and every other process keep their invariants |
| TransferDownload.FollowUpload | apps/api/src/transfer/transfer-download.service.ts:55-91 | The generator loop, fed the states it sees, stands where the reader of the machine stands |
| TransferDownload.Download | apps/api/src/transfer/transfer-download.service.ts:40-53 | `open` with its two lookups and the choice between following and reading whole stands where the reader of the machine stands |
| TransferDownload.Hop | apps/api/src/transfer/transfer-download.service.ts:62-69 | The hop continues at the byte offset of the chunks emitted |
| TransferDownload.MachineReadersAreDownloads | apps/api/src/transfer/transfer-download.service.ts:40-91 | Every download of every run of the machine is this loop on what it saw, so the machine theorems speak of it |
| TransferDownload.FollowersStreamTheUpload | apps/api/src/transfer/transfer-download.service.ts:55-91 | A follower whose every look finds its chunk has emitted exactly the file up to there and ends with the whole file at the last chunk, while the upload still holds its session |
| DownloadOpening.DownloadsStayInTheirRoom | apps/api/src/transfer/transfer-download.service.ts:40-53 | In every run, a download asked for in a Room sends a byte, or ends, only if its Transfer was admitted to that Room |
| DownloadOpening.DownloadsFailExactlyWhen | apps/api/src/transfer/transfer-download.service.ts:40-91 | In every run, a step fails a download exactly if storage or database fail, the Transfer is not one of the Room asked for, or the final object is gone, which takes a purge, a reap or a rolled back opening; a missing chunk never fails it |
| PipelineTheorems.FetchedChunksAreMissingOnlyIf | apps/api/src/transfer/transfer-download.service.ts:71-88 | In every run, a chunk that a follower found received is missing at the fetch only if the Transfer was assembled, and then the whole file is stored unless something went to erase it, or a sweep began to reap it |
| TransferDownload.FollowersWaitForTheSlot | apps/api/src/transfer/transfer-download.service.ts:61-88 | A follower at a chunk that counts as received but is gone polls for as long as the session stays, then finishes from the final object, or fails if that is gone too |
| ResendRuns.FailedRemovalsStallFollowers | apps/api/src/transfer/transfer-download.service.ts:71-88 | After a removal failed, every chunk whose removal took effect stalls the followers that reach it, although the final object is stored |
| UploadSessions.ReserveKeepsTheCap | apps/api/src/infrastructure/upload-session/in-memory-upload-session.store.ts:20-32 | Reserving never takes any Room past its limit, and is refused exactly at it |
| UploadSessions.StaleInIsExact | apps/api/src/infrastructure/upload-session/in-memory-upload-session.store.ts:51-56 | `findAbandoned` returns every session opened before the given time, no other, none twice |
| UploadSessions.StaleInKeepsOpeningOrder | apps/api/src/infrastructure/upload-session/in-memory-upload-session.store.ts:51-56 | They come in the order in which they were opened |
| UploadSessions.InMemoryUploadSessionStore.ReserveSlot | apps/api/src/infrastructure/upload-session/in-memory-upload-session.store.ts:20-32 | Count-then-set: either nothing changes and None, or the new session with an empty received set is appended |
| UploadSessions.InMemoryUploadSessionStore.CountActive | apps/api/src/infrastructure/upload-session/in-memory-upload-session.store.ts:23-26 | The counting loop gives the number of sessions of the Room |
| UploadSessions.InMemoryUploadSessionStore.Get | apps/api/src/infrastructure/upload-session/in-memory-upload-session.store.ts:34-37 | A snapshot of the session, or None |
| UploadSessions.InMemoryUploadSessionStore.Mark | apps/api/src/infrastructure/upload-session/in-memory-upload-session.store.ts:39-44 | Adds the index to that session only, idempotently; None for an unknown Transfer |
| UploadSessions.InMemoryUploadSessionStore.Delete | apps/api/src/infrastructure/upload-session/in-memory-upload-session.store.ts:46-49 | Drops that session only and keeps the order of the rest; idempotent |
| UploadSessions.InMemoryUploadSessionStore.FindAbandoned | apps/api/src/infrastructure/upload-session/in-memory-upload-session.store.ts:51-56 | The filter loop returns the stale sessions in opening order |
| ObjectStorage.Storage.PutObject | apps/api/src/domain/storage/object-storage.fake.ts:7-17 | All-or-nothing write of one key |
| ObjectStorage.Storage.GetObject | apps/api/src/domain/storage/object-storage.fake.ts:19-23 | The bytes from an offset on, or None for a missing key |
| ObjectStorage.Storage.RemoveObject | apps/api/src/domain/storage/object-storage.fake.ts:25-28 | Idempotent removal of one key |
| Chunking.ChunkCountFor | apps/api/src/domain/transfer/chunking.ts:9-14 | The count is the least number of chunks that covers the size, refused for sizes below one |
| Chunking.ValidChunkIffTrueShape | apps/api/src/domain/transfer/chunking.ts:25-43 | The validator accepts exactly the count, index range and length that a slice of the file has |
| Chunking.RefusalsNameTheFirstFault | apps/api/src/domain/transfer/chunking.ts:25-43 | A refusal names the first fault: the count, then the index, then the length, each with what was expected |
| ChunkedUpload.AssemblyReadsTheFile | apps/api/src/transfer/chunk-assembler.ts:33-40 | With every chunk stored, the ordered read hands exactly the file to the final write |
| ChunkedUpload.AssemblyNeedsEveryChunk | apps/api/src/transfer/chunk-assembler.ts:33-40 | With any chunk missing, assembly fails and changes nothing |
| ChunkedUpload.AssemblyCompletes | apps/api/src/transfer/chunk-assembler.ts:16-31 | Assembly over stored chunks leaves the file, no chunk and no session, and answers complete |
| ChunkedUpload.FailedFinalWriteKeepsEverything | apps/api/src/transfer/chunk-assembler.ts:16-31 | If the final write is reported failed, at the last chunk or at a duplicate, every chunk and the full received set survive |
| ChunkedUpload.FailedFinalWriteIsRecovered | apps/api/src/transfer/chunked-upload.service.ts:88-94 | After a failed final write, re-sending any one chunk completes the upload with the correct final object |
| ChunkedUpload.ResendCompletesIffNoOtherChunkIsMissing | apps/api/src/transfer/chunk-assembler.ts:26-40 | One re-send completes a fully received upload if and only if no other chunk object is missing; otherwise it is refused and its chunk is stored again |
| PipelineTheorems.AnswersAreFinal | apps/api/src/transfer/chunk-assembler.ts:26-30 | In every run an answer, given at the first removal that fails if one does, never changes, and all the request can still do is let removals land that were in flight |
| UploadRecovery.FailedAssemblyIsRecoverable | apps/api/src/transfer/chunk-assembler.ts:7-31 | Whichever call of an assembly fails, the request is refused, the session keeps its full received set and stored chunks are true; the chunks missing are exactly those whose removal has taken effect, at the answer (with the rest in flight) and once all have landed; none before the final write is answered, and from then on the final object is stored |
| UploadRecovery.ResendsCompleteOnTheLastMissing | apps/api/src/transfer/chunked-upload.service.ts:83-94 | With no removal of the failed assembly pending any more and nothing else running, for any missing chunks and any order of re-sends: each re-send before they are covered is refused and puts its chunk back; the one that covers them, and only that one, completes with the correct final object |
| UploadRecovery.OneResendIsEnoughIff | apps/api/src/transfer/chunk-assembler.ts:7-31 | Once every removal in flight at the failure has landed, a single re-send completes the upload if and only if no removal of another chunk took effect |
| UploadRecovery.PartialRemovalNeedsMoreThanOneResend | apps/api/src/transfer/chunk-assembler.ts:26-30 | The failing input: all removals but the first take effect and have landed, and re-sending the first chunk does not complete a file of several chunks |
| ResendRuns.ResendAmongOthers | apps/api/src/transfer/chunked-upload.service.ts:68-103 | In every run, whatever else is going on: a re-send whose calls are answered completes a fully received upload exactly when it found no other chunk missing, and otherwise puts its chunk back, provided that meanwhile no other request works on the upload, no removal of a failed assembly of it is in flight and no sweep reaps it |
| ResendRuns.OnlyItsOwnProcessesTouchAnUpload | apps/api/src/transfer/chunked-upload.service.ts:68-110 | A step changes the session or the chunks of an admitted upload only if it runs a request at work on it, leftover removals included, or the sweep reaping it |
| ResendRuns.StragglerDefeatsResend | apps/api/src/transfer/chunk-assembler.ts:26-30 | Why that is needed: a run from the start in which the first of two removals is refused, the request is answered with the second in flight and no chunk missing, and the re-send of the second chunk, all its calls answered, is refused because that removal lands under it |
| UploadRuns.SettlingIsARun | apps/api/src/transfer/chunk-assembler.ts:26-30 | The removals in flight at a refusal land as picks of the machine in any order |
| ChunkedUpload.EverySliceIsAccepted | apps/api/src/transfer/chunked-upload.service.ts:68-103 | Slice k of the client is accepted, counted k + 1, and leaves exactly the first k + 1 slices stored |
| ChunkedUpload.UploadRoundTrip | apps/web/src/features/room/services/chunk-upload.service.ts:53-93 | For every file of 1 to max bytes every request is accepted, `complete` is true on the last answer and no other, and the stores end as before plus the file and its rows |
| UploadRuns.AcceptNewIsARun | apps/api/src/transfer/chunked-upload.service.ts:68-161 | A first chunk handled without interruption up to its answer, calls failing as they may, is a run of the interleaving machine |
| UploadRuns.AcceptMoreIsARun | apps/api/src/transfer/chunked-upload.service.ts:68-110 | A later chunk handled without interruption up to its answer is a run of the interleaving machine |
| UploadService.ChunkAssembler.Assemble | apps/api/src/transfer/chunk-assembler.ts:16-31 | Read loop, one final write and the removals leave storage, answer and removals in flight as the assembly specification says |
| UploadService.ChunkAssembler.ClearChunks | apps/api/src/transfer/chunk-assembler.ts:26-30 | Removals started together land in some order: ok when all are reported done; at the first that fails it returns with the rest in flight |
| UploadService.ChunkedUploadService.AcceptFirst | apps/api/src/transfer/chunked-upload.service.ts:68-103 | Opening, validating, storing, marking and perhaps assembling, against the specification, for every failing call: the stores and the removals in flight at the answer, and the answer |
| UploadService.ChunkedUploadService.AcceptNext | apps/api/src/transfer/chunked-upload.service.ts:68-110 | Resuming checks existence and Room, then continues as a first chunk does |
| UploadService.ChunkedUploadService.OpenRows | apps/api/src/transfer/chunked-upload.service.ts:140-161 | Both rows are written, or the slot is given back |
| UploadService.TransferRows.CreateFilePayload | apps/api/prisma/schema.prisma:83-92 | The payload row is refused when its Transfer row is gone |
| UploadService.UploadFileInChunks | apps/web/src/features/room/services/chunk-upload.service.ts:45-94 | The client loop, carrying the id of the first answer, leaves exactly the uploaded file and gets the answers of the round trip |
| UploadService.DownloadReturnsTheUpload | apps/api/src/transfer/transfer-download.service.ts:40-53 | A download after the upload returns the original bytes; no session and no chunk object remains |
| PresenceTheorems.LatestWordAgreesWithPresence | apps/api/src/room/room.gateway.ts:254-318 | Over all interleavings: present implies the last announcement was `joined`; absent with no leave pending implies it was not |
| PresenceTheorems.LatestRosterIsCurrent | apps/api/src/room/room.gateway.ts:274-318 | With no leave of the Room pending, the last roster broadcast names exactly the identities present, each once |
| PresenceTheorems.EveryConnectionLeavesOnce | apps/api/src/room/room.gateway.ts:221-304 | However a drop interleaves with its own join's awaits, exactly one leave runs for the connection and its row is set disconnected once |
| PresenceTheorems.ReceiverCountIsExact | apps/api/src/room/room-presence.service.ts:64-87 | In every state the connected RECEIVER rows of a Room number its live Receiver sockets plus joins not through that have their row plus gone connections whose row is not yet set disconnected; the count is right exactly when there are none of the latter two |
| PresenceTheorems.QuietRoomsCountRight | apps/api/src/room/room-presence.service.ts:64-87 | With no join or leave of the Room in flight or failed, the count is the number of live Receiver sockets |
| Announcements.StepsAnnounceExactly | apps/api/src/room/room.gateway.ts:254-318 | In every run: each join that goes through is announced once, a Receiver's with the number of connected RECEIVER rows at the step that counted, a Sender's without; each leave that goes through once, a Receiver's with the number left; with one roster naming exactly those present; no other step announces anything |
| Announcements.AnsweredJoinsGoThrough | apps/api/src/room/room.gateway.ts:221-265 | A join whose calls are answered is in the map as who it claimed to be |
| Announcements.AnsweredLeavesGoThrough | apps/api/src/room/room.gateway.ts:289-318 | A connection that drops is out of the map at once, and its leave, answered, is announced |
| Announcements.FailedJoinsAreDisconnected | apps/api/src/room/room.gateway.ts:248-252 | In every run a socket whose join failed is disconnected and not in the map |
| Announcements.ConnectionsAreInJoinOrder | apps/api/src/room/room.gateway.ts:259-265 | In every run the map lists connections in the order in which they joined, through any removals |
| Announcements.RostersListTheOldestFirst | apps/api/src/room/room.gateway.ts:323-329 | In every run a roster lists its people by their oldest connection |
| Gateway.RosterIsExact | apps/api/src/room/room.gateway.ts:323-329 | A roster names exactly the identities with a connection in the Room, each once |
| Gateway.RoomGateway.Present | apps/api/src/room/room.gateway.ts:331-336 | The scan answers whether some connection of the Room has the identity |
| Gateway.RoomGateway.CurrentRoster | apps/api/src/room/room.gateway.ts:323-329 | The loop over `connected` builds the roster in order of first connection |
| Gateway.RoomGateway.FinishJoin | apps/api/src/room/room.gateway.ts:254-287 | Presence is read before the entry is set; count, roster and `joined` go out; a socket that dropped meanwhile is removed again |
| Gateway.RoomGateway.BeginLeave | apps/api/src/room/room.gateway.ts:289-293 | The entry goes before any await; without one nothing happens |
| Gateway.RoomGateway.FinishLeave | apps/api/src/room/room.gateway.ts:306-317 | Count, roster and, only for the last connection of an identity, `left` |
| Participants.ParticipantRepository.SetDisconnected | apps/api/src/domain/participant/participant.repository.fake.ts:64-70 | Disconnects that row only; false for an unknown row |
| Participants.ParticipantRepository.CountConnected | apps/api/src/domain/participant/participant.repository.fake.ts:72-77 | The number of connected rows of the Room and role |
| Participants.ParticipantRepository.MarkAllDisconnected | apps/api/src/domain/participant/participant.repository.fake.ts:79-88 | Disconnects every row and returns how many were connected |
| Participants.RoomPresenceService.OnApplicationBootstrap | apps/api/src/room/room-presence.service.ts:55-62 | After boot nobody counts as connected in any Room |
| Participants.RoomPresenceService.RecordJoin | apps/api/src/room/room-presence.service.ts:64-72 | One new connected row, and the Receiver count including it |
| Participants.RoomPresenceService.RecordLeave | apps/api/src/room/room-presence.service.ts:83-87 | That row disconnected, and the Receiver count without it |
| Cleanup.RetriesEndLikeOneCleanRun | apps/api/src/room/room.service.ts:160-174 | Through any number of attempts failing at any call, every stored final object keeps its rows, and the first success ends exactly like one clean run |
| Cleanup.OtherRoomsAreUntouched | apps/api/src/room/room.service.ts:168-174 | Closing or expiring one Room changes nothing of another |
| Cleanup.EndingSetsTheStatus | apps/api/src/room/room.service.ts:160-163 | A close or expiry that succeeds sets the status of that Room and changes no expiry and no other Room; a failed purge changes no status |
| Cleanup.ClosedRoomsSayClosed | apps/api/src/room/room.service.ts:72-79 | After a close that succeeded every later join is told that the Room is closed, whatever happens in between |
| Cleanup.ExpiredRoomsSayExpired | apps/api/src/room/room.service.ts:72-79 | After an expiry that succeeded every later join is told that the Room is expired, until somebody closes it |
| Cleanup.JoinsAreToldWhy | apps/api/src/room/room.service.ts:72-79 | A join is admitted, or told no such Room, closed or expired, each exactly when its status and expiry say so |
| Cleanup.ExpiredActiveIsExact | apps/api/src/infrastructure/persistence/repositories/prisma-room.repository.ts:42-47 | The Rooms due are exactly the ACTIVE ones at or past their expiry, each once |
| Cleanup.SweepsSpareLiveRooms | apps/api/src/sweeper/expiry-sweeper.service.ts:46-101 | Over a whole sweep, a Room that can be joined keeps its status, expiry, rows and objects, except those of uploads opened over an hour ago |
| Cleanup.SweepsEndLapsedRooms | apps/api/src/sweeper/expiry-sweeper.service.ts:46-84 | A sweep attempts every ACTIVE Room that has lapsed; if the calls of its attempt are answered it is EXPIRED with none of its rows and final objects left |
| Cleanup.SweepsReapAbandonedUploads | apps/api/src/sweeper/expiry-sweeper.service.ts:88-115 | A sweep reaps every upload opened over an hour ago; if the calls of its reap are answered nothing of it is left |
| Cleanup.ExpiredCountIsExact | apps/api/src/sweeper/expiry-sweeper.service.ts:63-75 | The count of a batch is the number of attempts that succeeded |
| Cleanup.ReapedCountIsExact | apps/api/src/sweeper/expiry-sweeper.service.ts:88-101 | The count of a batch of reaps is the number of uploads that were reaped |
| Cleanup.LeftRowsKeepTheirOrder | apps/api/src/domain/transfer/transfer.repository.fake.ts:91-107 | The rows left after others are deleted stay in their order |
| Cleanup.EachRoomHasItsOwnAttempt | apps/api/src/sweeper/expiry-sweeper.service.ts:63-84 | One Room's failure never stops the batch; each Room is attempted on its own contents, and becomes EXPIRED, its expiry kept, exactly when its purge succeeded and the status change took effect |
| Cleanup.EndedRoomsStayEnded | apps/api/src/domain/room/room-status.ts:16-18 | A join is admitted exactly while the Room is ACTIVE and before its expiry; once it is not, no later event admits one again |
| Cleanup.ReapIsRetrySafe | apps/api/src/sweeper/expiry-sweeper.service.ts:103-115 | A reap that succeeds leaves no chunk, final object, row or session of the upload; one that fails at any call keeps the session and a state just as good |
| Cleanup.ReapsEndWithNothingLeft | apps/api/src/sweeper/expiry-sweeper.service.ts:88-115 | Any number of failed reaps followed by a success leaves nothing of the upload and everything else untouched |
| Cleanup.StorageKeysAreTheRows | apps/api/src/domain/transfer/transfer.repository.fake.ts:83-89 | The keys listed for a Room are exactly those its payload rows name |
| CleanupRuns.PurgeIsARun | apps/api/src/room/room.service.ts:168-174 | A purge without interruption, calls failing as they may, is a run of the interleaving machine that leaves the same objects, rows and sessions and ends purged exactly when it succeeds |
| CleanupRuns.ReapIsARun | apps/api/src/sweeper/expiry-sweeper.service.ts:103-115 | A reap without interruption, failing at any call, is a run of the machine that leaves the same stores and the sweep at its next upload |
| CleanupRuns.BatchIsARun | apps/api/src/sweeper/expiry-sweeper.service.ts:88-101 | So is the whole batch of abandoned uploads, failures skipped |
| CleanupService.Housekeeper.ListStorageKeys | apps/api/src/domain/transfer/transfer.repository.fake.ts:83-89 | The listing loop returns the keys in row order |
| CleanupService.Housekeeper.PurgeRoomContents | apps/api/src/room/room.service.ts:168-174 | Removals in order, stopping at the first failure, then the rows |
| CleanupService.Housekeeper.End | apps/api/src/room/room.service.ts:160-163 | Purge first, status last, of that Room only; changing the status of no Room fails |
| CleanupService.Housekeeper.ExpireRooms | apps/api/src/sweeper/expiry-sweeper.service.ts:63-84 | The batch loop and its count are the specified fold over the Rooms due |
| CleanupService.Housekeeper.ReapSession | apps/api/src/sweeper/expiry-sweeper.service.ts:103-115 | Received chunks, final object, rows, session, stopping at the first failure |
| CleanupService.Housekeeper.ReapAbandonedUploads | apps/api/src/sweeper/expiry-sweeper.service.ts:88-101 | Every session older than an hour is attempted; the count is of those that succeeded |
| CleanupService.Housekeeper.SweepOnce | apps/api/src/sweeper/expiry-sweeper.service.ts:46-59 | A tick during a sweep does nothing; otherwise the state is that of one whole sweep of the specification, and the flag is down again whatever happened |
| Typing.ComposerIsThrottledAndPrompt | apps/web/src/features/room/hooks/useComposingSignal.ts:30-53 | Within a burst `true` frames are a heartbeat apart, less than 5500 ms pass from any `true` to the next frame, and the composer is quiet an idle period after the last keystroke |
| Typing.PeersSeeTypingAsItIs | apps/web/src/features/room/hooks/useRoomSocket.ts:249-280 | Over a lossless in-order link with at most 500 ms jitter the indicator is lit exactly while the last frame received said so, follows a burst within the delay and goes out an idle period plus the delay after the last keystroke |
| Typing.LapsesExactlyWhenJitterExceedsHalfASecond | apps/web/src/features/room/hooks/useRoomSocket.ts:127-131 | The indicator can lapse while the composer is active if and only if jitter can exceed 500 ms; up to there it never does, whatever the latency |
| Typing.LateHeartbeatLapses | apps/web/src/features/room/hooks/useComposingSignal.ts:41-53 | A concrete run that lapses under an active composer for any jitter above 500 ms: a heartbeat 5499 ms after the only earlier `true`, 501 ms late |
| Typing.LostStopsClear | apps/web/src/features/room/hooks/useRoomSocket.ts:266-280 | Whatever frames are lost, an indicator is out 6000 ms after the last `true` received about that peer |
| Typing.TypingPeersGoByTheirName | apps/web/src/features/room/hooks/useRoomSocket.ts:266-280 | In every run a peer shown typing is shown under the name its frames carry |
| Typing.ComposingSignal.Notify | apps/web/src/features/room/hooks/useComposingSignal.ts:41-53 | First keystroke and due heartbeats emit `true`; the idle timer is re-armed |
| Typing.ComposingSignal.Stop | apps/web/src/features/room/hooks/useComposingSignal.ts:30-39 | Clears the timer and emits `false` only when active |
| Typing.TypingIndicators.OnState | apps/web/src/features/room/hooks/useRoomSocket.ts:266-280 | Lights or refreshes one peer and re-arms its timer, or drops it; other peers' entries stay |
| Typing.TypingIndicators.Drop | apps/web/src/features/room/hooks/useRoomSocket.ts:249-261 | Removes one peer's timer and indicator |
| FileUploads.OneUploadAtATime | apps/web/src/features/room/hooks/useFileUploads.ts:37-90 | At most one uploader call is unsettled, only its row shows progress, and it is aborted exactly when its row left the queue since it began |
| FileUploads.UploadsFollowTheQueue | apps/web/src/features/room/hooks/useFileUploads.ts:48-55 | Every upload was of the first file of its queue not yet uploaded in its stay: nothing skipped, nothing uploaded twice |
| FileUploads.IdleLaneHasNothingToDo | apps/web/src/features/room/hooks/useFileUploads.ts:85-90 | No lost wake-up: with a session and nothing uploading, every queued file has been uploaded to the end in its present stay |
| FileUploads.RowsShowTheirUploads | apps/web/src/features/room/hooks/useFileUploads.ts:57-84 | Every row shows its latest upload's progress or outcome, an error unless the row had been removed when it was rejected, and no other file has a state |
| FileUploads.RowsShowWhatWasReported | apps/web/src/features/room/hooks/useFileUploads.ts:57-84 | In every run a running upload shows the percentage last reported, from 0 on, and an upload ends as its uploader first said it did |
| FileUploads.CallsBeginWithASession | apps/web/src/features/room/hooks/useFileUploads.ts:48-55 | A call begins only while there is a session, and one at a time |
| FileUploads.AbortedUploadsLeaveNoTrace | apps/web/src/features/room/hooks/useFileUploads.ts:69-78 | At any later point of a run, a row whose latest upload was aborted while running shows nothing of it once it is rejected |
| FileUploads.UploadLane.OnFiles | apps/web/src/features/room/hooks/useFileUploads.ts:37-46 | Aborts the active call of a removed row and forgets the marks of all removed rows |
| FileUploads.UploadLane.StartNext | apps/web/src/features/room/hooks/useFileUploads.ts:48-67 | Starts the first unstarted file, or nothing while busy, without a session or with none left |
| FileUploads.UploadLane.Handle | apps/web/src/features/room/hooks/useFileUploads.ts:37-90 | Each page event followed by the effects it triggers is one step of the specification |
| FileQueue.FileKeyIsInjective | apps/web/src/features/room/hooks/useFileQueue.ts:19-21 | The row key tells files apart exactly by name, size and modification time, even with bars in names |
| FileQueue.DropsQueueExactlyTheAcceptable | apps/web/src/features/room/hooks/useFileQueue.ts:37-73 | After a drop a file is queued exactly when it was before, or was dropped and is acceptable; row keys stay distinct |
| FileQueue.AddedRowsSayWhatTheyAre | apps/web/src/features/room/hooks/useFileQueue.ts:37-66 | What a drop adds is no operating system artefact, at most 5 GiB, under its own key, and marked empty exactly when it is |
| FileQueue.OrdinaryFilesAreQueued | apps/web/src/features/room/hooks/useFileQueue.ts:37-66 | Every other file of a drop is queued, whatever its name |
| FileQueue.SilentExactlyWhenNothingTurnedAway | apps/web/src/features/room/hooks/useFileQueue.ts:41-70 | The notice slot is empty after a drop exactly when nothing was turned away |
| FileQueue.NoticeIsAboutTheLastTurnedAway | apps/web/src/features/room/hooks/useFileQueue.ts:48-60 | Otherwise the notice is about the last file turned away: too large if it is, already queued if not |
| FileQueue.RemovalTakesTheRow | apps/web/src/features/room/hooks/useFileQueue.ts:75-77 | Removing takes exactly the named row and keeps the rest in order |
| FileQueue.MovesAreReversible | apps/web/src/features/room/hooks/useFileQueue.ts:86-90 | A move lands the row at its target, keeps the others in order, is a permutation, and the opposite move undoes it |
| FileQueue.DropQueue.AddFiles | apps/web/src/features/room/hooks/useFileQueue.ts:37-73 | The loop with `seen` and `next` appends what joins, in order, and keeps the last objection as notice |
| FileQueue.DropQueue.RemoveFile | apps/web/src/features/room/hooks/useFileQueue.ts:75-77 | The filter keeps the other rows |
| FileQueue.DropQueue.ReorderFiles | apps/web/src/features/room/hooks/useFileQueue.ts:79-91 | Both splices are a move between the two rows; unknown ids change nothing |
| TransferLog.MergeTransferLog | apps/web/src/features/room/utils/transfer-log.ts:182-233 | The three loops over the Map, the sort and the override pass compute the merge that `MergeIsExactlyTheStream` and `StreamSources` describe |
| TransferLog.MergeIsExactlyTheStream | apps/web/src/features/room/utils/transfer-log.ts:173-233 | Before renames the merge is the one list holding, per id mentioned, one summary of its mentions (latest payload, persisted time), in time order with ties in order of first mention; renames change only identities of the renamed |
| StreamSources.RowsShowTheirLatestSource | apps/web/src/features/room/utils/transfer-log.ts:57-160 | Name, body, size, link and author of a row are those of the latest live text about its Transfer, else the latest live file, else its record; an own file has no author, a link leads to its content, a snippet shows its words |
| StreamSources.RowsStandAtTheirTime | apps/web/src/features/room/utils/transfer-log.ts:200-222 | A row with a readable record carries the time that record was created; any other the time it was first seen, or now |
| StreamSources.StreamIsOneRowEachOldestFirst | apps/web/src/features/room/utils/transfer-log.ts:173-233 | The stream has one row per id mentioned in history and feed, oldest first, equal times in the order of first mention |
| TransferLog.RowsSayWhatTheSourcesSay | apps/web/src/features/room/utils/transfer-log.ts:78-140 | A message is shown delivered, and shown as mine, exactly when history, live feed, delivered set or own ids say so |
| TransferLog.NothingRegresses | apps/web/src/features/room/utils/transfer-log.ts:206-215 | As history, feed, delivered set and own ids grow, no row of the returned log vanishes and none stops being delivered or mine |
| TransferLog.PreviewIsOneLine | apps/web/src/features/room/utils/transfer-log.ts:42-44 | A snippet preview is exactly the words of the content, one space apart |
| RoomFeed.EventsGrowTheLog | apps/web/src/features/room/hooks/useRoomSocket.ts:191-227 | Every socket event, echo or newer snapshot grows the input of the merge and keeps one entry per live Transfer |
| RoomFeed.ProgressIsRecorded | apps/web/src/features/room/hooks/useRoomSocket.ts:191-200 | Progress replaces the entry of its Transfer in place, or goes last; every other entry stays where it is |
| RoomFeed.TextsAreRecorded | apps/web/src/features/room/hooks/useRoomSocket.ts:202-217 | A text is appended once, an echo as this client's own and remembered as sent; a retransmit changes nothing |
| RoomFeed.NoMessageRegresses | apps/web/src/features/room/hooks/useRoomSocket.ts:191-227 | Through any sequence of such events a message stays in the returned log, and stays delivered and mine once it is |
| RoomFeed.NewsComesInAnyOrder | apps/web/src/features/room/hooks/useRoomSocket.ts:191-233 | Through any plausible events: once the news of a file, of its delivery and of the own identity key all came, in whatever order, its row is delivered, and mine if it was uploaded under that key |
| RoomFeed.DeliveredIsWhatWasAnnounced | apps/web/src/features/room/hooks/useRoomSocket.ts:219-227 | What is known to be delivered is what was, plus exactly what was announced since |
| TransferHistory.LogDescribesTheRoom | apps/api/src/room/room.service.ts:92-154 | When recorded authors resolve, the Log of the Room with the code asked for lists its Transfers oldest first and says of each exactly what the tables say |
| TransferHistory.RoomTransfersComeOldestFirst | apps/api/src/infrastructure/persistence/repositories/prisma-transfer.repository.ts:33-39 | The Transfers of a Room come in order of creation, none lost or repeated |
| TransferHistory.RoomTransfersKeepTableOrder | apps/api/src/domain/transfer/transfer.repository.fake.ts:35-37 | Before ordering, the Transfers of a Room are those of the table, in table order, each as often as it is there |
| TransferHistory.ListIsOneAtATime | apps/api/src/room/room.service.ts:92-154 | The Room listed has the code asked for, and the batched, indexed reads answer as one lookup per Transfer of it would |
| TransferHistory.NotFoundExactlyWhenNoRoomHasTheCode | apps/api/src/room/room.service.ts:92-94 | No Room is found exactly when none has the code asked for |
| TransferHistory.SkippingTheSenderReadIsSafeExactlyWhen | apps/api/src/room/room.service.ts:102-128 | Skipping the Sender read changes the list if and only if some file has an author that does not resolve, no file is unattributed, and a Sender exists |
| TransferHistory.BatchedReadIsLookups | apps/api/src/room/room.service.ts:113-123 | A batched read turned into a Map answers every wanted key as a single lookup does |
| Delivery.AnnouncedAtMostOnce | apps/api/src/transfer/transfer-delivery.service.ts:20-31 | However downloads interleave, a Transfer is announced at most once; with none in flight, exactly if the first insert of its row to take effect was answered |
| Delivery.FirstAnsweredInsertWins | apps/api/src/infrastructure/persistence/repositories/prisma-delivery.repository.ts:14-23 | Over a whole run, the row exists exactly if some insert took effect, and the call that announces is the first such one, if it was answered |
| Delivery.TransferDeliveryService.ConfirmDelivered | apps/api/src/transfer/transfer-delivery.service.ts:20-31 | Insert then announce; a duplicate is silent, any other failure is thrown |
| Delivery.EachDeliveryFlashesOnceInOrder | apps/web/src/features/room/hooks/useDeliveryFlash.ts:32-50 | Shown plus queued are, in order, exactly the ids delivered since mounting, each once; what shows is the last item shown; nothing waits while nothing shows |
| Delivery.NamesAreThoseKnownAtTheRender | apps/web/src/features/room/hooks/useDeliveryFlash.ts:32-50 | What a render queues is the unseen deliveries with the file names known then; nothing else about shown or queued items ever changes |
| Delivery.EveryDeliveryIsShown | apps/web/src/features/room/hooks/useDeliveryFlash.ts:52-58 | As many display timeouts as queued items show them all |
| Delivery.DeliveryFlash.OnDeliveredChanged | apps/web/src/features/room/hooks/useDeliveryFlash.ts:32-50 | The first run seeds `seen`; later runs queue the unseen ids and show one if idle |
| Delivery.DeliveryFlash.OnDisplayTimeout | apps/web/src/features/room/hooks/useDeliveryFlash.ts:52-58 | Shows the next queued item or nothing |
| StorageKey.KeysAreInjective | apps/api/src/domain/transfer/storage-key.ts:4-11 | For slash-free ids the rendered key determines Room, Transfer, kind and index; a chunk key is never a file key |
| StorageKey.ListingFollowsChunkOrder | apps/api/src/domain/transfer/storage-key.ts:8-11 | Text order of chunk keys is chunk order below index 100000 |
| StorageKey.FiveDigitsOrderExactly100000Chunks | apps/api/src/domain/transfer/storage-key.ts:8-11 | The first n chunks are listed in order if and only if n is at most 100000 |
| StorageKey.SixthDigitBreaksTheOrder | apps/api/src/domain/transfer/storage-key.ts:8-11 | The key of chunk 100000 sorts before the key of chunk 99999 |
| StorageKey.EveryAdmittedFileIsListedInOrder | apps/api/src/domain/transfer/storage-key.ts:8-11 | Every file within the 5 GiB default is listed in chunk order |
| RoomCode.Generate | apps/api/src/infrastructure/security/crypto-code-generator.ts:16-31 | For every byte stream with six acceptable bytes the code is the images of the first six, across refills, and no batch is drawn beyond the one holding the sixth |
| RoomCode.SevenBytesFor | apps/api/src/infrastructure/security/crypto-code-generator.ts:6-12 | Each alphabet character has exactly seven accepted byte values |
| RoomCode.EveryCodeHasEquallyManyDraws | apps/api/src/infrastructure/security/crypto-code-generator.ts:6-31 | Exactly 7^6 draws of acceptable bytes spell each code: no modulo bias |
| RoomCode.SanitizerFindsTheCode | apps/web/src/features/room/utils/room-code.ts:8-14 | The sanitizer recovers the code from any text ending in it, in any case and with punctuation between |
| RoomCode.SpelledCodesAreRecovered | apps/web/src/features/room/utils/room-code.ts:8-14 | Text whose letters and digits are the code's characters in any case, with anything else between, behind any text, is sanitized to the code |
| RoomCode.SanitizedIsStableAndValid | apps/web/src/features/room/utils/room-code.ts:8-14 | Sanitizing is idempotent, a full-length result always matches the server's pattern, and valid codes are kept |
| RoomCode.GeneratedCodesAreRecovered | apps/api/src/infrastructure/security/crypto-code-generator.ts:16-31 | Every generated code matches the pattern and survives the sanitizer behind any text |
| RoomCode.RoomCodes.CreateRoomWithUniqueCode | apps/api/src/room/room.service.ts:178-188 | The first free code of five is taken; another failure ends the search; a taken code is never reused |
| RoomCode.ExhaustedExactlyWhenAllCollide | apps/api/src/room/room.service.ts:178-188 | Creation is exhausted if and only if all five codes collide |
| RoomCode.FirstFreeCodeWins | apps/api/src/room/room.service.ts:178-188 | The first attempt that does not collide decides: its code, or the failure of its insert |

## Left out

- PipelineTheorems.ReceivedBytesAreKept: says nothing once a sweep has begun to reap the Transfer, whose chunks then go one by one.
- PipelineTheorems.DownloadsAreTrue: opening and reading one object is one step, as in the fake storage; bytes within one object read are not interleaved.
- PresenceTheorems.LatestWordAgreesWithPresence: does not claim that `joined` and `left` alternate; two tabs closing together can announce `left` twice (`room.gateway.ts:293-317`).
- PresenceTheorems.LatestRosterIsCurrent: a leave whose recording failed is never announced and counts as pending for ever.
- PresenceTheorems.ReceiverCountIsExact: is about the rows; the last broadcast count may be older, as it is read before later awaits.
- Announcements.StepsAnnounceExactly: says who is announced, to which Room and with which number; display names are left out.
- ChunkedUpload.FailedFinalWriteIsRecovered: is about requests that name a Transfer; a one-chunk upload whose only request fails returns no id to re-send with.
- UploadRecovery.ResendsCompleteOnTheLastMissing: no removal of the failed assembly is pending, nothing else runs and no call fails during the re-sends, and nothing says that the web client makes them.
- UploadRecovery.OneResendIsEnoughIff: is about a re-send made once every removal of the failed assembly has landed; one made earlier can be refused whatever is missing (`ResendRuns.StragglerDefeatsResend`).
- ResendRuns.ResendAmongOthers: says nothing of a re-send during which another request works on the upload, a removal lands or a sweep reaps it.
- UploadService.ChunkAssembler.ClearChunks: the removals in flight when it returns land in the state machine, not in the class.
- TransferDownload.Download: a download that fails ends as failed, whichever of the source's errors it was.
- TransferDownload.FollowersWaitForTheSlot: says that a follower polls, not for how long, and nothing of the pauses between polls.
- SweepTiming.SweepsGoByTheOpening: the scan reads the clock and the sessions at one moment.
- TransferHistory.RoomTransfersComeOldestFirst: Transfers created at the same time keep table order, which the database leaves open.
- Cleanup.RetriesEndLikeOneCleanRun: assumes no upload of the Room in between; a purge concurrent with uploads is in `Pipeline`, where chunk objects and sessions survive it.
- Cleanup.ReapIsRetrySafe: assumes every stored chunk is marked received; a chunk written but not yet marked can outlive a reap that races it.
- Typing.PeersSeeTypingAsItIs: one connection per peer, whole milliseconds, timers that fire on time; a message of the peer's that lands drops its indicator and is not part of these runs.
- TransferLog.MergeIsExactlyTheStream: `Date.now()` is read once per merge; timestamps that do not parse are not modelled.
- UploadService.UploadFileInChunks: every request succeeds and the id is fresh; network failures and aborts end the loop early and are not modelled there.
- FileUploads.OneUploadAtATime: an effect runs once after each change it depends on; React's double invocation is not modelled.
- The author of an upload, display names and renames, and progress broadcasts: they do not influence the bytes, slots or rosters.
- HTTP, Socket.io, tRPC, Prisma, PostgreSQL and MinIO themselves: only their contracts are kept (all-or-nothing put, unique rows, foreign keys, a disconnect event handled at once).
- Tokens: identity keys and token hashes are opaque and fixed per token.
- A crash of the API process during uploads: sessions live in memory and are simply lost.
- Link classification, size and time formatting, rendering, theming and PWA plumbing: library behaviour or easy claims.
