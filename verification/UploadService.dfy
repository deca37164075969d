/** The upload services as classes over the stores: ChunkAssembler
    (apps/api/src/transfer/chunk-assembler.ts), ChunkedUploadService
    (chunked-upload.service.ts) and the web client that drives them. Each method does what
    module ChunkedUpload specifies. */
module UploadService {
  import opened Common
  import opened Chunking
  import opened ObjectStorage
  import opened UploadSessions
  import opened Pipeline
  import opened ChunkedUpload
  import opened TransferDownload

  /** The Transfer and FilePayload rows of transfer.repository.fake.ts. */
  class TransferRows {
    var transfers: map<Id, Id>
    var payloads: map<Id, ObjectKey>

    constructor ()
      ensures transfers == map[] && payloads == map[]
    {
      transfers := map[];
      payloads := map[];
    }

    method Create(id: Id, room: Id, verdict: Verdict) returns (ok: bool)
      modifies this
      ensures transfers == if verdict.TookEffect() then old(transfers)[id := room] else old(transfers)
      ensures payloads == old(payloads) && ok == verdict.Reported()
    {
      if verdict != Refused {
        transfers := transfers[id := room];
      }
      ok := verdict == Done;
    }

    /** The row references its Transfer, so it is refused when that row is gone. */
    method CreateFilePayload(id: Id, key: ObjectKey, verdict: Verdict) returns (ok: bool)
      modifies this
      ensures transfers == old(transfers)
      ensures payloads == if id in old(transfers) && verdict.TookEffect() then old(payloads)[id := key] else old(payloads)
      ensures ok == (id in old(transfers) && verdict.Reported())
    {
      if id in transfers && verdict != Refused {
        payloads := payloads[id := key];
      }
      ok := id in transfers && verdict == Done;
    }
  }

  class ChunkAssembler {
    const storage: Storage

    constructor (storage: Storage)
      ensures this.storage == storage
    {
      this.storage := storage;
    }

    /** Streams the chunk objects in order into the final object, then removes them. `sh` is the
        state the specification starts from; `inFlight` are the removals not landed at the answer. */
    method Assemble(ghost sh: Shared, s: Session, calls: Calls) returns (ok: bool, inFlight: set<nat>)
      requires sh.objects == storage.objects
      modifies storage
      ensures storage.objects == AssembleFrom(sh, s, 0, [], calls).0.objects
      ensures ok <==> AssembleFrom(sh, s, 0, [], calls).1.Accepted?
      ensures inFlight == InFlight(AssembleFrom(sh, s, 0, [], calls).1)
    {
      var bytes: seq<byte> := [];
      var i := 0;
      while i < Size(s)
        invariant i <= Size(s) && storage.objects == sh.objects
        invariant AssembleFrom(sh, s, 0, [], calls) == AssembleFrom(sh, s, i, bytes, calls)
      {
        var chunk := storage.GetObject(ChunkKey(s, i), 0);
        if chunk.None? || !calls.chunkReads(i).Reported() {
          return false, {};
        }
        bytes := bytes + chunk.value;
        i := i + 1;
      }
      var written := storage.PutObject(FileKey(s), bytes, calls.finalPut);
      if !written {
        return false, {};
      }
      ghost var sh1 := WriteFinal(sh, s, bytes, calls.finalPut).0;
      ok, inFlight := ClearChunks(sh1, s, calls);
    }

    /** All removals are started together and land in some order; the first that fails is the answer,
        with the rest in flight. */
    method ClearChunks(ghost sh: Shared, s: Session, calls: Calls) returns (ok: bool, inFlight: set<nat>)
      requires sh.objects == storage.objects
      modifies storage
      ensures var (sh', r) := ClearFrom(sh, s, LandingOrder(calls, Size(s)), calls);
              storage.objects == sh'.objects && ok == r.Accepted? && inFlight == InFlight(r)
    {
      var order := LandingOrder(calls, Size(s));
      ghost var now := sh;
      var i := 0;
      assert order[0..] == order;
      while i < |order|
        invariant i <= |order| && storage.objects == now.objects
        invariant ClearFrom(sh, s, order, calls) == ClearFrom(now, s, order[i..], calls)
      {
        assert order[i..][1..] == order[i + 1..];
        var removed := storage.RemoveObject(ChunkKey(s, order[i]), calls.removes(order[i]));
        now := now.(objects := storage.objects);
        i := i + 1;
        if !removed {
          return false, IndicesOf(order[i..]);
        }
      }
      return true, {};
    }
  }

  /** The stores, the answer and the removals in flight are those of the specification. */
  ghost predicate Serves(sh: Shared, answer: Request, inFlight: set<nat>, out: (Shared, Request)) {
    sh == out.0 && AnswerOf(out.1) == Some(answer) && inFlight == InFlight(out.1)
  }

  class ChunkedUploadService {
    const storage: Storage
    const rows: TransferRows
    const store: InMemoryUploadSessionStore
    const assembler: ChunkAssembler
    const maxFileSizeBytes: int
    ghost var history: Shared  // the clock and what has happened so far

    ghost predicate Valid()
      reads this, store
    {
      store.Valid() && assembler.storage == storage
    }

    /** The stores, with the history beside them. */
    ghost function State(): Shared
      reads this, storage, rows, store
    {
      history.(objects := storage.objects, sessions := store.sessions,
               transfers := rows.transfers, payloads := rows.payloads)
    }

    constructor (maxFileSizeBytes: int)
      ensures Valid() && State() == Empty && this.maxFileSizeBytes == maxFileSizeBytes
      ensures fresh(storage) && fresh(rows) && fresh(store)
    {
      var disk := new Storage();
      storage := disk;
      rows := new TransferRows();
      store := new InMemoryUploadSessionStore();
      assembler := new ChunkAssembler(disk);
      this.maxFileSizeBytes := maxFileSizeBytes;
      history := Empty;
    }

    method AcceptFirst(input: SessionInput, index: nat, chunk: seq<byte>, now: int, calls: Calls)
      returns (answer: Request, inFlight: set<nat>)
      requires Valid() && history.now == now
      modifies this, storage, rows, store
      ensures Valid() && history.now == now
      ensures Serves(State(), answer, inFlight, AcceptNew(maxFileSizeBytes, old(State()), input, index, chunk, calls))
    {
      if input.fileSizeBytes > maxFileSizeBytes {
        return Rejected(FileTooLarge), {};
      }
      var granted := store.ReserveSlot(input, MAX_CONCURRENT_TRANSFERS_PER_ROOM, now);
      if granted.None? {
        return Rejected(RoomFull), {};
      }
      var s := granted.value;
      history := history.(admitted := history.admitted[s.Tid() := s.Room()]);
      answer, inFlight := OpenRows(s, index, chunk, calls);
    }

    /** Creates the two rows; when either fails the reserved slot is released. */
    method OpenRows(s: Session, index: nat, chunk: seq<byte>, calls: Calls) returns (answer: Request, inFlight: set<nat>)
      requires Valid()
      modifies this, storage, rows, store
      ensures Valid() && history.now == old(history.now)
      ensures Serves(State(), answer, inFlight, WriteRows(old(State()), s, index, chunk, calls))
    {
      hide StoreAndMark;
      var ok := rows.Create(s.Tid(), s.Room(), calls.transferRow);
      if ok {
        ok := rows.CreateFilePayload(s.Tid(), FileKey(s), calls.payloadRow);
      }
      if !ok {
        store.Delete(s.Tid());
        history := history.RollBack(s.Tid());
        return Rejected(Broke), {};
      }
      answer, inFlight := StoreChunkAndMark(s, index, chunk, calls);
    }

    method AcceptNext(room: Id, id: Id, index: nat, chunk: seq<byte>, calls: Calls) returns (answer: Request, inFlight: set<nat>)
      requires Valid()
      modifies this, storage, rows, store
      ensures Valid() && history.now == old(history.now)
      ensures Serves(State(), answer, inFlight, AcceptMore(old(State()), room, id, index, chunk, calls))
    {
      hide StoreAndMark;
      var session := store.Get(id);
      if session.None? {
        return Rejected(SessionNotFound), {};
      }
      if session.value.Room() != room {
        return Rejected(RoomMismatch), {};
      }
      answer, inFlight := StoreChunkAndMark(session.value, index, chunk, calls);
    }

    method StoreChunkAndMark(s: Session, index: nat, chunk: seq<byte>, calls: Calls) returns (answer: Request, inFlight: set<nat>)
      requires Valid()
      modifies this, storage, rows, store
      ensures Valid() && history.now == old(history.now)
      ensures Serves(State(), answer, inFlight, StoreAndMark(old(State()), s, index, chunk, calls))
    {
      hide AssembleFrom;
      var invalid := Validated(s, index, chunk);
      if invalid.Some? {
        return Rejected(BadChunk(invalid.value)), {};
      }
      var stored := storage.PutObject(ChunkKey(s, index), chunk, calls.chunkPut);
      if !stored {
        return Rejected(Broke), {};
      }
      var updated := store.Mark(s.Tid(), index);
      if updated.None? {
        return Rejected(SessionNotFound), {};
      }
      var u := updated.value;
      if |u.receivedChunks| == u.Total() {
        answer, inFlight := AssembleAndFree(u, calls);
      } else {
        answer, inFlight := Accepted(u.Tid(), |u.receivedChunks|, u.Total(), false), {};
      }
    }

    method AssembleAndFree(u: Session, calls: Calls) returns (answer: Request, inFlight: set<nat>)
      requires Valid()
      modifies this, storage, store
      ensures Valid() && history.now == old(history.now)
      ensures Serves(State(), answer, inFlight, AssembleFrom(old(State()), u, 0, [], calls))
    {
      ghost var before := State();
      AssemblyTouchesObjectsAndSlot(before, u, 0, [], calls);
      hide AssembleFrom;
      var complete;
      complete, inFlight := assembler.Assemble(before, u, calls);
      history := history.(assembled := AssembleFrom(before, u, 0, [], calls).0.assembled);
      if complete {
        store.Delete(u.Tid());
        history := history.Complete(u.Tid());
        answer := Accepted(u.Tid(), |u.receivedChunks|, u.Total(), true);
      } else {
        answer := Rejected(Broke);
      }
    }
  }

  /** One request of the client: the first opens the upload, the rest carry the id the
      first answer gave. */
  method PostChunk(service: ChunkedUploadService, input: SessionInput, file: seq<byte>, transferId: Option<Id>, chunkIndex: nat, now: int)
    returns (last: Request, inFlight: set<nat>)
    requires service.Valid() && service.history.now == now
    requires transferId == if chunkIndex == 0 then None else Some(input.transferId)
    modifies service, service.storage, service.rows, service.store
    ensures service.Valid() && service.history.now == now
    ensures Serves(service.State(), last, inFlight, SendSlice(service.maxFileSizeBytes, old(service.State()), input, file, chunkIndex))
  {
    hide AcceptNew, AcceptMore;
    var start := chunkIndex * CHUNK_SIZE_BYTES;
    var end := if start + CHUNK_SIZE_BYTES <= |file| then start + CHUNK_SIZE_BYTES else |file|;
    var slice := if start <= |file| then file[start..end] else [];
    assert slice == Slice(file, chunkIndex);
    match transferId
    case None => last, inFlight := service.AcceptFirst(input, chunkIndex, slice, now, AllDone);
    case Some(id) => last, inFlight := service.AcceptNext(input.roomId, id, chunkIndex, slice, AllDone);
  }

  /** Each answer counts one chunk more, and only the last says `complete`. */
  ghost predicate AnswersAre(input: SessionInput, file: seq<byte>, answers: seq<Request>) {
    forall i :: 0 <= i < |answers| ==>
      answers[i] == Accepted(input.transferId, i + 1, Count(file), i + 1 == Count(file))
  }

  /** Where the client's loop stands after `answers`: the stores hold that many slices, and
      the loop knows the id the first answer gave. */
  ghost predicate Progress(start: Shared, now: Shared, input: SessionInput, file: seq<byte>,
                           transferId: Option<Id>, answers: seq<Request>) {
    && AnswersAre(input, file, answers)
    && now == (if answers == [] then start else Uploaded(start, input, file, |answers|))
    && transferId == (if answers == [] then None else Some(input.transferId))
  }

  ghost predicate MayUpload(maxFileSizeBytes: int, start: Shared, input: SessionInput, file: seq<byte>) {
    && ClientInput(input, file) && |file| <= maxFileSizeBytes && Unused(start, input.transferId)
    && |HeldBy(start.sessions, input.roomId)| < MAX_CONCURRENT_TRANSFERS_PER_ROOM
  }

  lemma OneMoreAnswer(maxFileSizeBytes: int, start: Shared, now: Shared, input: SessionInput, file: seq<byte>,
                      transferId: Option<Id>, answers: seq<Request>)
    requires MayUpload(maxFileSizeBytes, start, input, file) && |answers| < Count(file)
    requires Progress(start, now, input, file, transferId, answers)
    ensures var (now', last) := SendSlice(maxFileSizeBytes, now, input, file, |answers|);
            last.Accepted? && Progress(start, now', input, file, Some(last.id), answers + [last])
  {
    hide SendSlice, Uploaded, Unused, ClientInput, HeldBy, Count;
    EverySliceIsAccepted(maxFileSizeBytes, start, now, input, file, |answers|);
  }

  /** The web client's upload of one file, every request succeeding. The first answer names
      the Transfer the later requests continue. */
  method UploadFileInChunks(service: ChunkedUploadService, input: SessionInput, file: seq<byte>, now: int)
    returns (answers: seq<Request>)
    requires service.Valid() && service.history.now == now
    requires MayUpload(service.maxFileSizeBytes, service.State(), input, file)
    modifies service, service.storage, service.rows, service.store
    ensures service.Valid()
    ensures service.State() == Uploaded(old(service.State()), input, file, Count(file))
    ensures |answers| == Count(file) && AnswersAre(input, file, answers)
  {
    ghost var start := service.State();
    var totalChunks := if |file| <= CHUNK_SIZE_BYTES then 1 else (|file| + (CHUNK_SIZE_BYTES - 1)) / CHUNK_SIZE_BYTES;
    answers := [];
    var transferId: Option<Id> := None;
    assert totalChunks == Count(file) && Progress(start, start, input, file, None, []);
    hide SendSlice, Uploaded, MayUpload, AnswersAre;
    for chunkIndex := 0 to totalChunks
      invariant service.Valid() && service.history.now == now && |answers| == chunkIndex
      invariant Progress(start, service.State(), input, file, transferId, answers)
    {
      OneMoreAnswer(service.maxFileSizeBytes, start, service.State(), input, file, transferId, answers);
      var last, _ := PostChunk(service, input, file, transferId, chunkIndex, now);
      transferId := Some(last.id);
      answers := answers + [last];
    }
  }

  /** After the upload, a download of the Transfer from its Room returns the file. */
  lemma DownloadReturnsTheUpload(sh: Shared, input: SessionInput, file: seq<byte>)
    requires ClientInput(input, file) && Unused(sh, input.transferId)
    ensures var after := Uploaded(sh, input, file, Count(file));
            var seen := [(after, true), (after, true), (after, true), (after, true)];
            Follow(FindingPayload(input.transferId, input.roomId), seen) == Ended(input.transferId, file)
    ensures var after := Uploaded(sh, input, file, Count(file));
            && after.sessions == sh.sessions
            && forall k :: k in after.objects && k !in sh.objects ==> k == FileObject(input.roomId, input.transferId)
  {
    var after := Uploaded(sh, input, file, Count(file));
    var start := FindingPayload(input.transferId, input.roomId);
    var s := (after, true);
    assert [s, s, s, s][..3] == [s, s, s];
    assert [s, s, s][..2] == [s, s];
    assert [s, s][..1] == [s];
    assert Follow(start, [s]) == ReaderStep(after, start, true);
    assert Follow(start, [s, s]) == ReaderStep(after, Follow(start, [s]), true);
    assert Follow(start, [s, s, s]) == ReaderStep(after, Follow(start, [s, s]), true);
    assert file[0..] == file;
  }
}
