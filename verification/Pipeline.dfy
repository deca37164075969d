/** The chunked transfer pipeline as a state machine.

    Any number of chunk requests (apps/api/src/transfer/chunked-upload.service.ts and
    chunk-assembler.ts), downloads (transfer-download.service.ts), sweeps
    (apps/api/src/sweeper/expiry-sweeper.service.ts) and Room purges
    (apps/api/src/room/room.service.ts) run at once. Each keeps its own program counter;
    one step runs one process from one `await` to the next. The scheduler picks the
    process, the verdict of the storage or database call it makes, and the order in
    which parallel removals land. A pick that is not possible changes nothing, so every
    sequence of picks is a run. */
module Pipeline {
  import opened Common
  import opened Chunking
  import opened ObjectStorage
  import opened UploadSessions

  /** What never changes: the file behind each Transfer id and the size limit. */
  datatype Config = Config(files: map<Id, seq<byte>>, maxFileSizeBytes: int)

  /** How Transfers gave their slot back: their upload completed, its opening was rolled back, or a
      sweep collected it. */
  datatype Ends = Ends(completed: set<Id>, rolledBack: set<Id>, collected: set<Id>)
  {
    function All(): set<Id> { completed + rolledBack + collected }
  }

  datatype Shared = Shared(
    objects: Objects,
    sessions: Sessions,
    transfers: map<Id, Id>,          // Transfer row: its Room
    payloads: map<Id, ObjectKey>,    // FilePayload row: its storage key
    sweeping: bool,
    now: int,
    // What has happened so far; no process reads these five.
    admitted: map<Id, Id>,             // Transfers ever granted a slot, with their Room
    ends: Ends,                      // Transfers whose slot was given back
    assembled: set<Id>,              // final object written at least once
    reaped: set<Id>,                 // a sweep started to remove its objects
    erased: set<Id>)                 // removal of the final object was attempted
  {
    function Complete(id: Id): Shared {
      this.(sessions := sessions - {id}, ends := ends.(completed := ends.completed + {id}))
    }

    function RollBack(id: Id): Shared {
      this.(sessions := sessions - {id}, ends := ends.(rolledBack := ends.rolledBack + {id}))
    }

    function Collect(id: Id): Shared {
      this.(sessions := sessions - {id}, ends := ends.(collected := ends.collected + {id}))
    }

    function DropRows(ids: set<Id>): Shared {
      this.(transfers := transfers - ids, payloads := payloads - ids)
    }
  }

  // --- Chunk requests -----------------------------------------------------------

  datatype Refusal = FileTooLarge | RoomFull | SessionNotFound | RoomMismatch | BadChunk(ChunkError) | Broke

  datatype Request =
    | CreatingTransfer(session: Session, index: nat, chunk: seq<byte>)
    | CreatingPayload(session: Session, index: nat, chunk: seq<byte>)
    | RollingBack(session: Session)
    | Validating(session: Session, index: nat, chunk: seq<byte>)
    | Marking(session: Session, index: nat)
    | Assembling(session: Session, next: nat, bytes: seq<byte>)
    | Clearing(session: Session, pending: set<nat>, ok: bool)
    | Accepted(id: Id, received: nat, total: int, complete: bool)
    | Rejected(why: Refusal)

  /** One scheduler pick for a process: the verdict of its call; the parallel removal that
      lands; the key a purge removes; or the Map order a sweep sees. */
  datatype Choice =
    | Proceed(verdict: Verdict)
    | Drop(index: nat, verdict: Verdict)
    | Erase(key: ObjectKey, verdict: Verdict)
    | Scan(order: seq<Id>)

  function ChunkKey(s: Session, i: nat): ObjectKey { ChunkObject(s.Room(), s.Tid(), i) }

  function FileKey(s: Session): ObjectKey { FileObject(s.Room(), s.Tid()) }

  function Size(s: Session): nat { if s.Total() < 0 then 0 else s.Total() }

  function OpenRequest(maxFileSizeBytes: int, sh: Shared, input: SessionInput, index: nat, chunk: seq<byte>)
    : (Shared, Request)
  {
    if input.fileSizeBytes > maxFileSizeBytes then (sh, Rejected(FileTooLarge))
    else
      var (sessions, granted) := Reserve(sh.sessions, input, MAX_CONCURRENT_TRANSFERS_PER_ROOM, sh.now);
      match granted
      case None => (sh, Rejected(RoomFull))
      case Some(s) =>
        (sh.(sessions := sessions, admitted := sh.admitted[input.transferId := input.roomId]),
         CreatingTransfer(s, index, chunk))
  }

  function ResumeRequest(sh: Shared, room: Id, id: Id, index: nat, chunk: seq<byte>): Request {
    if id !in sh.sessions then Rejected(SessionNotFound)
    else if sh.sessions[id].Room() != room then Rejected(RoomMismatch)
    else Validating(sh.sessions[id], index, chunk)
  }

  function Validated(s: Session, index: nat, chunk: seq<byte>): Option<ChunkError> {
    ValidateChunk(ChunkShape(s.input.fileSizeBytes, s.Total(), index, |chunk|))
  }

  function CreateTransferRow(sh: Shared, s: Session, index: nat, chunk: seq<byte>, verdict: Verdict)
    : (Shared, Request)
  {
    (if verdict.TookEffect() then sh.(transfers := sh.transfers[s.Tid() := s.Room()]) else sh,
     if verdict.Reported() then CreatingPayload(s, index, chunk) else RollingBack(s))
  }

  /** The payload row references the Transfer row, which a purge may have deleted. */
  function CreatePayloadRow(sh: Shared, s: Session, index: nat, chunk: seq<byte>, verdict: Verdict)
    : (Shared, Request)
  {
    if s.Tid() !in sh.transfers then (sh, RollingBack(s))
    else
      (if verdict.TookEffect() then sh.(payloads := sh.payloads[s.Tid() := FileKey(s)]) else sh,
       if verdict.Reported() then Validating(s, index, chunk) else RollingBack(s))
  }

  function StoreChunk(sh: Shared, s: Session, index: nat, chunk: seq<byte>, verdict: Verdict)
    : (Shared, Request)
  {
    match Validated(s, index, chunk)
    case Some(error) => (sh, Rejected(BadChunk(error)))
    case None =>
      (sh.(objects := Put(sh.objects, ChunkKey(s, index), chunk, verdict)),
       if verdict.Reported() then Marking(s, index) else Rejected(Broke))
  }

  function MarkChunk(sh: Shared, s: Session, index: nat): (Shared, Request) {
    var (sessions, updated) := MarkReceived(sh.sessions, s.Tid(), index);
    match updated
    case None => (sh, Rejected(SessionNotFound))
    case Some(u) =>
      (sh.(sessions := sessions),
       if |u.receivedChunks| == u.Total() then Assembling(u, 0, [])
       else Accepted(u.Tid(), |u.receivedChunks|, u.Total(), false))
  }

  function ReadChunk(sh: Shared, s: Session, next: nat, bytes: seq<byte>, verdict: Verdict): Request {
    var chunk := Get(sh.objects, ChunkKey(s, next), 0);
    if verdict.Reported() && chunk.Some? then Assembling(s, next + 1, bytes + chunk.value)
    else Rejected(Broke)
  }

  function WriteFinal(sh: Shared, s: Session, bytes: seq<byte>, verdict: Verdict): (Shared, Request) {
    (if verdict.TookEffect()
     then sh.(objects := sh.objects[FileKey(s) := bytes], assembled := sh.assembled + {s.Tid()}) else sh,
     if verdict.Reported() then Clearing(s, UpTo(Size(s)), true) else Rejected(Broke))
  }

  /** The removals run in parallel: one that fails keeps the upload from completing, but does not
      stop the others. The request is answered at the first failure (`AnswerOf`) and its leftover
      removals go on. */
  function ClearChunk(sh: Shared, s: Session, pending: set<nat>, ok: bool, i: nat, verdict: Verdict)
    : (Shared, Request)
  {
    (sh.(objects := Remove(sh.objects, ChunkKey(s, i), verdict)),
     Clearing(s, pending - {i}, ok && verdict.Reported()))
  }

  function CompleteUpload(sh: Shared, s: Session): (Shared, Request) {
    (sh.Complete(s.Tid()), Accepted(s.Tid(), |s.receivedChunks|, s.Total(), true))
  }

  function RequestStep(sh: Shared, r: Request, c: Choice): (Shared, Request) {
    match (r, c)
    case (CreatingTransfer(s, index, chunk), Proceed(v)) => CreateTransferRow(sh, s, index, chunk, v)
    case (CreatingPayload(s, index, chunk), Proceed(v)) => CreatePayloadRow(sh, s, index, chunk, v)
    case (RollingBack(s), Proceed(v)) => (sh.RollBack(s.Tid()), Rejected(Broke))
    case (Validating(s, index, chunk), Proceed(v)) => StoreChunk(sh, s, index, chunk, v)
    case (Marking(s, index), Proceed(v)) => MarkChunk(sh, s, index)
    case (Assembling(s, next, bytes), Proceed(v)) =>
      if next < Size(s) then (sh, ReadChunk(sh, s, next, bytes, v)) else WriteFinal(sh, s, bytes, v)
    case (Clearing(s, pending, ok), Drop(i, v)) =>
      if i in pending then ClearChunk(sh, s, pending, ok, i, v) else (sh, r)
    case (Clearing(s, pending, ok), Proceed(v)) =>
      if pending != {} then (sh, r) else if ok then CompleteUpload(sh, s) else (sh, Rejected(Broke))
    case _ => (sh, r)
  }

  /** What the client has been told: `Promise.all` rejects at the first removal that fails. */
  function AnswerOf(r: Request): Option<Request> {
    match r
    case Accepted(_, _, _, _) => Some(r)
    case Rejected(_) => Some(r)
    case Clearing(_, _, ok) => if ok then None else Some(Rejected(Broke))
    case _ => None
  }

  /** The removals of the request that have not landed yet. */
  function InFlight(r: Request): set<nat> {
    if r.Clearing? then r.pending else {}
  }

  // --- Downloads ----------------------------------------------------------------

  datatype Reader =
    | FindingPayload(id: Id, room: Id)
    | FindingTransfer(id: Id, room: Id, key: ObjectKey)
    | Choosing(id: Id, room: Id, key: ObjectKey)
    | ReadingWhole(id: Id, key: ObjectKey)
    | Following(id: Id, room: Id, key: ObjectKey, next: nat, emitted: seq<byte>)
    | Fetching(id: Id, room: Id, key: ObjectKey, next: nat, total: int, emitted: seq<byte>)
    | Hopping(id: Id, key: ObjectKey, next: nat, emitted: seq<byte>)
    | Ended(id: Id, emitted: seq<byte>)
    | Failed(id: Id, emitted: seq<byte>)
  {
    function Emitted(): seq<byte> {
      if Following? || Fetching? || Hopping? || Ended? || Failed? then emitted else []
    }
  }

  /** A reader changes nothing. `fine` is false when storage fails for another reason than
      a missing object. */
  function ReaderStep(sh: Shared, d: Reader, fine: bool): Reader {
    match d
    case FindingPayload(id, room) =>
      if fine && id in sh.payloads then FindingTransfer(id, room, sh.payloads[id]) else Failed(id, [])
    case FindingTransfer(id, room, key) =>
      if fine && id in sh.transfers && sh.transfers[id] == room then Choosing(id, room, key)
      else Failed(id, [])
    case Choosing(id, room, key) =>
      if id in sh.sessions then Following(id, room, key, 0, []) else ReadingWhole(id, key)
    case ReadingWhole(id, key) =>
      var body := Get(sh.objects, key, 0);
      if fine && body.Some? then Ended(id, body.value) else Failed(id, [])
    case Following(id, room, key, next, emitted) =>
      if id !in sh.sessions then Hopping(id, key, next, emitted)
      else if next !in sh.sessions[id].receivedChunks then d
      else Fetching(id, room, key, next, sh.sessions[id].Total(), emitted)
    case Fetching(id, room, key, next, total, emitted) =>
      var chunk := Get(sh.objects, ChunkObject(room, id, next), 0);
      if !fine then Failed(id, emitted)
      else if chunk.None? then Following(id, room, key, next, emitted)
      else if next + 1 == total then Ended(id, emitted + chunk.value)
      else Following(id, room, key, next + 1, emitted + chunk.value)
    case Hopping(id, key, next, emitted) =>
      var rest := Get(sh.objects, key, next * CHUNK_SIZE_BYTES);
      if fine && rest.Some? then Ended(id, emitted + rest.value) else Failed(id, emitted)
    case Ended(_, _) => d
    case Failed(_, _) => d
  }

  // --- Sweeps -------------------------------------------------------------------

  datatype Stage = Chunks | FinalObject | Rows | Slot

  /** `queue` is what is left of the abandoned uploads, the one being reaped first. */
  datatype Sweep = Expiring | Reaping(queue: seq<Session>, todo: set<nat>, stage: Stage) | Swept

  function ReapNext(queue: seq<Session>): Sweep {
    Reaping(queue, if queue == [] then {} else queue[0].receivedChunks, Chunks)
  }

  function BeginReaping(sh: Shared, order: seq<Id>): Sweep {
    if Lists(order, sh.sessions.Keys) then ReapNext(StaleIn(sh.sessions, order, sh.now - ABANDONED_UPLOAD_TTL_MS))
    else Expiring
  }

  function ReapChunk(sh: Shared, queue: seq<Session>, todo: set<nat>, i: nat, verdict: Verdict): (Shared, Sweep)
    requires queue != []
  {
    var s := queue[0];
    (sh.(objects := Remove(sh.objects, ChunkKey(s, i), verdict), reaped := sh.reaped + {s.Tid()}),
     if verdict.Reported() then Reaping(queue, todo - {i}, Chunks) else ReapNext(queue[1..]))
  }

  function ReapOn(sh: Shared, queue: seq<Session>, todo: set<nat>, stage: Stage, verdict: Verdict): (Shared, Sweep)
    requires queue != []
  {
    var s := queue[0];
    var skip := ReapNext(queue[1..]);
    match stage
    case Chunks => (sh, Reaping(queue, todo, if todo == {} then FinalObject else Chunks))
    case FinalObject =>
      (sh.(objects := Remove(sh.objects, FileKey(s), verdict), erased := sh.erased + {s.Tid()}),
       if verdict.Reported() then Reaping(queue, {}, Rows) else skip)
    case Rows =>
      (if verdict.TookEffect() then sh.DropRows({s.Tid()}) else sh,
       if verdict.Reported() then Reaping(queue, {}, Slot) else skip)
    case Slot => (sh.Collect(s.Tid()), skip)
  }

  /** A sweep whose expiry pass fails ends without reaping. */
  function SweepStep(sh: Shared, p: Sweep, c: Choice): (Shared, Sweep) {
    match (p, c)
    case (Expiring, Scan(order)) => (sh, BeginReaping(sh, order))
    case (Expiring, Proceed(v)) => if v.Reported() then (sh, p) else (sh.(sweeping := false), Swept)
    case (Reaping(queue, todo, stage), Proceed(v)) =>
      if queue == [] then (sh.(sweeping := false), Swept) else ReapOn(sh, queue, todo, stage, v)
    case (Reaping(queue, todo, stage), Drop(i, v)) =>
      if queue != [] && stage.Chunks? && i in todo then ReapChunk(sh, queue, todo, i, v) else (sh, p)
    case _ => (sh, p)
  }

  // --- Room purges --------------------------------------------------------------

  datatype Purge = Listing(room: Id) | Purging(room: Id, keys: set<ObjectKey>) | Purged | Aborted

  function RowsOf(sh: Shared, room: Id): set<Id> {
    set id | id in sh.transfers && sh.transfers[id] == room
  }

  function PurgeStep(sh: Shared, p: Purge, c: Choice): (Shared, Purge) {
    match p
    case Listing(room) =>
      (sh, if c.Proceed? && c.verdict.Reported()
           then Purging(room, set id | id in RowsOf(sh, room) && id in sh.payloads :: sh.payloads[id])
           else Aborted)
    case Purging(room, keys) =>
      if c.Erase? && c.key in keys then
        (sh.(objects := Remove(sh.objects, c.key, c.verdict), erased := sh.erased + {c.key.transfer}),
         if c.verdict.Reported() then Purging(room, keys - {c.key}) else Aborted)
      else if c.Proceed? && keys == {} then
        (if c.verdict.TookEffect() then sh.DropRows(RowsOf(sh, room)) else sh,
         if c.verdict.Reported() then Purged else Aborted)
      else (sh, p)
    case Purged => (sh, p)
    case Aborted => (sh, p)
  }

  // --- The whole machine --------------------------------------------------------

  datatype World = World(
    shared: Shared,
    requests: map<nat, Request>,
    readers: map<nat, Reader>,
    sweeps: map<nat, Sweep>,
    purges: map<nat, Purge>)

  datatype Step =
    | OpenUpload(q: nat, input: SessionInput, index: nat, chunk: seq<byte>)
    | ResumeUpload(q: nat, room: Id, id: Id, index: nat, chunk: seq<byte>)
    | Advance(q: nat, choice: Choice)
    | StartDownload(d: nat, id: Id, room: Id)
    | Read(d: nat, fine: bool)
    | StartSweep(p: nat)
    | SweepOn(p: nat, choice: Choice)
    | StartPurge(p: nat, room: Id)
    | PurgeOn(p: nat, choice: Choice)
    | Wait(ms: nat)

  /** Requests carry true slices: a chunk as long as slice `index` of the file is that
      slice. Chunks of any other length may hold anything. */
  predicate Honest(cfg: Config, id: Id, index: nat, chunk: seq<byte>) {
    id in cfg.files && |chunk| == |Slice(cfg.files[id], index)| ==> chunk == Slice(cfg.files[id], index)
  }

  /** A fresh id, the true size, and at least one byte (the request schema's minimum). The
      chunk count and every other field may be anything. */
  predicate MayOpen(cfg: Config, sh: Shared, input: SessionInput) {
    var id := input.transferId;
    id in cfg.files && cfg.files[id] != [] && input.fileSizeBytes == |cfg.files[id]| && id !in sh.admitted
  }

  const Empty := Shared(map[], map[], map[], map[], false, 0, map[], Ends({}, {}, {}), {}, {}, {})

  const Init := World(Empty, map[], map[], map[], map[])

  function Apply(cfg: Config, w: World, step: Step): World {
    var sh := w.shared;
    match step
    case OpenUpload(q, input, index, chunk) =>
      if q !in w.requests && MayOpen(cfg, sh, input) && Honest(cfg, input.transferId, index, chunk) then
        var (sh', r) := OpenRequest(cfg.maxFileSizeBytes, sh, input, index, chunk);
        w.(shared := sh', requests := w.requests[q := r])
      else w
    case ResumeUpload(q, room, id, index, chunk) =>
      if q !in w.requests && Honest(cfg, id, index, chunk) then
        w.(requests := w.requests[q := ResumeRequest(sh, room, id, index, chunk)])
      else w
    case Advance(q, c) =>
      if q in w.requests then
        var (sh', r) := RequestStep(sh, w.requests[q], c);
        w.(shared := sh', requests := w.requests[q := r])
      else w
    case StartDownload(d, id, room) =>
      if d !in w.readers then w.(readers := w.readers[d := FindingPayload(id, room)]) else w
    case Read(d, fine) =>
      if d in w.readers then w.(readers := w.readers[d := ReaderStep(sh, w.readers[d], fine)]) else w
    case StartSweep(p) =>
      if p !in w.sweeps && !sh.sweeping then
        w.(shared := sh.(sweeping := true), sweeps := w.sweeps[p := Expiring])
      else w
    case SweepOn(p, c) =>
      if p in w.sweeps then
        var (sh', s) := SweepStep(sh, w.sweeps[p], c);
        w.(shared := sh', sweeps := w.sweeps[p := s])
      else w
    case StartPurge(p, room) =>
      if p !in w.purges then w.(purges := w.purges[p := Listing(room)]) else w
    case PurgeOn(p, c) =>
      if p in w.purges then
        var (sh', s) := PurgeStep(sh, w.purges[p], c);
        w.(shared := sh', purges := w.purges[p := s])
      else w
    case Wait(ms) => w.(shared := sh.(now := sh.now + ms))
  }

  /** The world after a sequence of scheduler picks. */
  function RunFrom(cfg: Config, w: World, picks: seq<Step>): World {
    if picks == [] then w
    else Apply(cfg, RunFrom(cfg, w, picks[..|picks| - 1]), picks[|picks| - 1])
  }

  function Run(cfg: Config, picks: seq<Step>): World {
    RunFrom(cfg, Init, picks)
  }

  lemma {:induction false} RunsCompose(cfg: Config, w: World, a: seq<Step>, b: seq<Step>)
    ensures RunFrom(cfg, w, a + b) == RunFrom(cfg, RunFrom(cfg, w, a), b)
  {
    if b == [] {
      assert a + b == a;
    } else {
      assert (a + b)[..|a + b| - 1] == a + b[..|b| - 1];
      RunsCompose(cfg, w, a, b[..|b| - 1]);
    }
  }
}
