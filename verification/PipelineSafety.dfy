/** Safety of the transfer pipeline over every run.

    The proof is by rely and guarantee: `SharedOk` is the invariant of the shared state,
    each kind of process has an assertion about its own program counter, every step of a
    process keeps both and stays within `Guarantee`, and no assertion is broken by another
    process that stays within `Guarantee`. */
module PipelineSafety {
  import opened Common
  import opened Chunking
  import opened ObjectStorage
  import opened UploadSessions
  import opened Pipeline

  // --- Assertions ---------------------------------------------------------------

  /** Every stored object holds true bytes of its file. */
  ghost predicate TrueObject(cfg: Config, key: ObjectKey, body: seq<byte>) {
    && key.transfer in cfg.files
    && match key
       case FileObject(_, id) => body == cfg.files[id]
       case ChunkObject(_, id, i) => i < Count(cfg.files[id]) && body == Slice(cfg.files[id], i)
  }

  /** A session's chunk count may be wrong only while it has received nothing. */
  ghost predicate Sound(cfg: Config, s: Session) {
    && s.Tid() in cfg.files
    && cfg.files[s.Tid()] != []
    && s.input.fileSizeBytes == |cfg.files[s.Tid()]|
    && (s.receivedChunks != {} ==> s.Total() == Count(cfg.files[s.Tid()]))
    && (forall i :: i in s.receivedChunks ==> i < Count(cfg.files[s.Tid()]))
  }

  /** A chunk that counts as received is stored, unless its Transfer has been assembled or
      a sweep has begun to reap it. */
  ghost predicate Safe(sh: Shared, s: Session, i: nat) {
    ChunkKey(s, i) in sh.objects || s.Tid() in sh.assembled || s.Tid() in sh.reaped
  }

  ghost predicate ObjectsOk(cfg: Config, objects: Objects) {
    forall k :: k in objects ==> TrueObject(cfg, k, objects[k])
  }

  ghost predicate SessionOk(cfg: Config, sh: Shared, id: Id)
    requires id in sh.sessions
  {
    var s := sh.sessions[id];
    && s.Tid() == id && Sound(cfg, s)
    && id in sh.admitted && sh.admitted[id] == s.Room()
    && (forall i :: i in s.receivedChunks ==> Safe(sh, s, i))
  }

  ghost predicate SessionsOk(cfg: Config, sh: Shared) {
    forall id :: id in sh.sessions ==> SessionOk(cfg, sh, id)
  }

  /** A Room holds a slot for exactly the Transfers admitted and not yet ended, and never
      more than the limit. */
  ghost predicate SlotsOk(sessions: Sessions, admitted: map<Id, Id>, ended: set<Id>) {
    && sessions.Keys == admitted.Keys - ended
    && ended <= admitted.Keys
    && (forall room :: |HeldBy(sessions, room)| <= MAX_CONCURRENT_TRANSFERS_PER_ROOM)
  }

  ghost predicate TrueFileKey(cfg: Config, admitted: map<Id, Id>, id: Id, key: ObjectKey) {
    && id in cfg.files && cfg.files[id] != []
    && id in admitted && key == FileObject(admitted[id], id)
  }

  ghost predicate RowsOk(cfg: Config, admitted: map<Id, Id>, transfers: map<Id, Id>, payloads: map<Id, ObjectKey>) {
    && (forall id :: id in payloads ==> TrueFileKey(cfg, admitted, id, payloads[id]))
    && (forall id :: id in transfers ==> id in admitted && admitted[id] == transfers[id])
  }

  /** An assembled file is stored until something removes it on purpose. */
  ghost predicate FinalsOk(objects: Objects, admitted: map<Id, Id>, assembled: set<Id>, erased: set<Id>) {
    forall id :: id in assembled ==> id in admitted && (FileObject(admitted[id], id) in objects || id in erased)
  }

  /** Only an assembled upload completes, and a sweep collects an upload only after its final
      object. */
  ghost predicate EndsOk(ends: Ends, assembled: set<Id>, erased: set<Id>) {
    ends.completed <= assembled && ends.collected <= erased
  }

  ghost predicate SharedOk(cfg: Config, sh: Shared) {
    && ObjectsOk(cfg, sh.objects)
    && SessionsOk(cfg, sh)
    && SlotsOk(sh.sessions, sh.admitted, sh.ends.All())
    && EndsOk(sh.ends, sh.assembled, sh.erased)
    && RowsOk(cfg, sh.admitted, sh.transfers, sh.payloads)
    && FinalsOk(sh.objects, sh.admitted, sh.assembled, sh.erased)
  }

  /** A snapshot of a session that some process holds on to. */
  ghost predicate Known(cfg: Config, sh: Shared, s: Session) {
    && Sound(cfg, s)
    && s.Tid() in sh.admitted && sh.admitted[s.Tid()] == s.Room()
    && (s.Tid() in sh.sessions ==> sh.sessions[s.Tid()].input == s.input)
  }

  ghost predicate Counted(cfg: Config, s: Session) {
    s.Tid() in cfg.files && s.Total() == Count(cfg.files[s.Tid()])
  }

  ghost predicate RequestOk(cfg: Config, sh: Shared, r: Request) {
    match r
    case CreatingTransfer(s, index, chunk) => Known(cfg, sh, s) && Honest(cfg, s.Tid(), index, chunk)
    case CreatingPayload(s, index, chunk) => Known(cfg, sh, s) && Honest(cfg, s.Tid(), index, chunk)
    case RollingBack(s) => Known(cfg, sh, s)
    case Validating(s, index, chunk) => Known(cfg, sh, s) && Honest(cfg, s.Tid(), index, chunk)
    case Marking(s, index) =>
      Known(cfg, sh, s) && Counted(cfg, s) && index < Count(cfg.files[s.Tid()]) && Safe(sh, s, index)
    case Assembling(s, next, bytes) =>
      && Known(cfg, sh, s) && Counted(cfg, s) && |s.receivedChunks| == s.Total()
      && next <= Count(cfg.files[s.Tid()]) && bytes == Prefix(cfg.files[s.Tid()], next)
    case Clearing(s, pending, ok) =>
      Known(cfg, sh, s) && Counted(cfg, s) && |s.receivedChunks| == s.Total() && s.Tid() in sh.assembled
    case Accepted(id, received, total, complete) =>
      && id in cfg.files && total == Count(cfg.files[id])
      && (complete <==> received == total) && (complete ==> id in sh.ends.completed && id in sh.assembled)
    case Rejected(_) => true
  }

  /** A reader that has passed chunk `next - 1` has emitted exactly the bytes before chunk
      `next`, and there are bytes left. */
  ghost predicate Midway(cfg: Config, id: Id, next: nat, emitted: seq<byte>) {
    id in cfg.files && next < Count(cfg.files[id]) && emitted == Prefix(cfg.files[id], next)
  }

  ghost predicate ReaderOk(cfg: Config, sh: Shared, d: Reader) {
    match d
    case FindingPayload(_, _) => true
    case FindingTransfer(id, room, key) => TrueFileKey(cfg, sh.admitted, id, key)
    case Choosing(id, room, key) => TrueFileKey(cfg, sh.admitted, id, key) && sh.admitted[id] == room
    case ReadingWhole(id, key) => TrueFileKey(cfg, sh.admitted, id, key) && id !in sh.sessions
    case Following(id, room, key, next, emitted) =>
      TrueFileKey(cfg, sh.admitted, id, key) && sh.admitted[id] == room && Midway(cfg, id, next, emitted)
    case Fetching(id, room, key, next, total, emitted) =>
      && TrueFileKey(cfg, sh.admitted, id, key) && sh.admitted[id] == room && Midway(cfg, id, next, emitted)
      && total == Count(cfg.files[id])
      && (ChunkObject(room, id, next) in sh.objects || id in sh.assembled || id in sh.reaped)
    case Hopping(id, key, next, emitted) =>
      TrueFileKey(cfg, sh.admitted, id, key) && Midway(cfg, id, next, emitted) && id !in sh.sessions
    case Ended(id, emitted) => id in cfg.files && emitted == cfg.files[id]
    case Failed(id, emitted) => emitted == [] || (id in cfg.files && emitted <= cfg.files[id])
  }

  ghost predicate SweepOk(cfg: Config, sh: Shared, p: Sweep) {
    p.Reaping? ==> forall i :: 0 <= i < |p.queue| ==>
      && Known(cfg, sh, p.queue[i])
      && Stale(p.queue[i], sh.now - ABANDONED_UPLOAD_TTL_MS)
      && (i == 0 && (p.stage.Rows? || p.stage.Slot?) ==> p.queue[i].Tid() in sh.erased)
  }

  ghost predicate PurgeOk(cfg: Config, sh: Shared, p: Purge) {
    p.Purging? ==> forall k :: k in p.keys ==> TrueFileKey(cfg, sh.admitted, k.transfer, k)
  }

  /** What every step promises the other processes. */
  ghost predicate Guarantee(sh: Shared, sh': Shared) {
    && (forall id :: id in sh.admitted ==> id in sh'.admitted && sh'.admitted[id] == sh.admitted[id])
    && sh.assembled <= sh'.assembled && sh.reaped <= sh'.reaped
    && sh.erased <= sh'.erased
    && sh.ends.completed <= sh'.ends.completed && sh.ends.rolledBack <= sh'.ends.rolledBack
    && sh.ends.collected <= sh'.ends.collected
    && sh.now <= sh'.now
    && (forall id :: id in sh'.sessions ==>
          if id in sh.sessions then sh'.sessions[id].input == sh.sessions[id].input else id !in sh.admitted)
    && (forall k :: k in sh.objects && k !in sh'.objects ==>
          if k.FileObject? then k.transfer in sh'.erased
          else k.transfer in sh'.assembled || k.transfer in sh'.reaped)
  }

  // --- Each step keeps its assertions and the guarantee ---------------------------

  ghost predicate RequestMoveOk(cfg: Config, sh: Shared, next: (Shared, Request)) {
    SharedOk(cfg, next.0) && RequestOk(cfg, next.0, next.1) && Guarantee(sh, next.0)
  }

  ghost predicate SweepMoveOk(cfg: Config, sh: Shared, next: (Shared, Sweep)) {
    SharedOk(cfg, next.0) && SweepOk(cfg, next.0, next.1) && Guarantee(sh, next.0)
  }

  ghost predicate PurgeMoveOk(cfg: Config, sh: Shared, next: (Shared, Purge)) {
    SharedOk(cfg, next.0) && PurgeOk(cfg, next.0, next.1) && Guarantee(sh, next.0)
  }

  /** The sessions stay sound under a step that leaves them as they are. */
  lemma SessionsStable(cfg: Config, sh: Shared, sh': Shared)
    requires SessionsOk(cfg, sh) && Guarantee(sh, sh')
    requires forall id :: id in sh'.sessions ==> id in sh.sessions && sh'.sessions[id] == sh.sessions[id]
    ensures SessionsOk(cfg, sh')
  {
  }

  lemma ReleaseKeepsSlots(sessions: Sessions, admitted: map<Id, Id>, ended: set<Id>, id: Id)
    requires SlotsOk(sessions, admitted, ended) && id in admitted
    ensures SlotsOk(sessions - {id}, admitted, ended + {id})
  {
    forall room ensures |HeldBy(sessions - {id}, room)| <= MAX_CONCURRENT_TRANSFERS_PER_ROOM {
      SubsetSize(HeldBy(sessions - {id}, room), HeldBy(sessions, room));
    }
  }

  lemma ReleaseStaysWithin(sh: Shared, sh': Shared, id: Id)
    requires sh' == sh.RollBack(id) || sh' == sh.Complete(id) || sh' == sh.Collect(id)
    ensures Guarantee(sh, sh')
  {
  }

  lemma ReleaseIsSafe(cfg: Config, sh: Shared, sh': Shared, id: Id)
    requires SharedOk(cfg, sh) && id in sh.admitted
    requires || sh' == sh.RollBack(id)
             || (sh' == sh.Complete(id) && id in sh.assembled)
             || (sh' == sh.Collect(id) && id in sh.erased)
    ensures SharedOk(cfg, sh') && Guarantee(sh, sh')
  {
    hide ObjectsOk, SlotsOk, RowsOk, FinalsOk, SessionsOk, Guarantee;
    ReleaseKeepsSlots(sh.sessions, sh.admitted, sh.ends.All(), id);
    assert sh'.ends.All() == sh.ends.All() + {id};
    ReleaseStaysWithin(sh, sh', id);
    SessionsStable(cfg, sh, sh');
  }

  lemma StayingIsSafe(cfg: Config, sh: Shared, r: Request)
    requires SharedOk(cfg, sh) && RequestOk(cfg, sh, r)
    ensures RequestMoveOk(cfg, sh, (sh, r)) && RequestMoveOk(cfg, sh, (sh, Rejected(Broke)))
  {
  }

  /** The state once a slot is granted. */
  function Granted(sh: Shared, input: SessionInput): Shared {
    sh.(sessions := sh.sessions[input.transferId := Session(input, {}, sh.now)],
        admitted := sh.admitted[input.transferId := input.roomId])
  }

  lemma GrantKeepsSlots(sh: Shared, input: SessionInput)
    requires SlotsOk(sh.sessions, sh.admitted, sh.ends.All()) && input.transferId !in sh.admitted
    requires |HeldBy(sh.sessions, input.roomId)| < MAX_CONCURRENT_TRANSFERS_PER_ROOM
    ensures SlotsOk(Granted(sh, input).sessions, Granted(sh, input).admitted, sh.ends.All())
  {
    var sh' := Granted(sh, input);
    assert sh'.sessions.Keys == sh.sessions.Keys + {input.transferId};
    assert sh'.admitted.Keys == sh.admitted.Keys + {input.transferId};
    forall room ensures |HeldBy(sh'.sessions, room)| <= MAX_CONCURRENT_TRANSFERS_PER_ROOM {
      ReserveKeepsTheCap(sh.sessions, input, MAX_CONCURRENT_TRANSFERS_PER_ROOM, sh.now, room);
    }
  }

  lemma GrantKeepsSessions(cfg: Config, sh: Shared, input: SessionInput)
    requires SessionsOk(cfg, sh) && MayOpen(cfg, sh, input)
    ensures SessionsOk(cfg, Granted(sh, input)) && Known(cfg, Granted(sh, input), Session(input, {}, sh.now))
  {
    var sh' := Granted(sh, input);
    forall id | id in sh'.sessions ensures SessionOk(cfg, sh', id) {
      if id != input.transferId { assert SessionOk(cfg, sh, id); }
    }
  }

  lemma GrantKeepsTheRest(cfg: Config, sh: Shared, input: SessionInput)
    requires SharedOk(cfg, sh) && input.transferId !in sh.admitted
    ensures var sh' := Granted(sh, input);
            && RowsOk(cfg, sh'.admitted, sh.transfers, sh.payloads)
            && FinalsOk(sh.objects, sh'.admitted, sh.assembled, sh.erased)
            && Guarantee(sh, sh')
  {
    assert input.transferId !in sh.sessions.Keys;
    hide ObjectsOk, SessionsOk, SlotsOk, EndsOk;
  }

  lemma OpenIsSafe(cfg: Config, sh: Shared, input: SessionInput, index: nat, chunk: seq<byte>)
    requires SharedOk(cfg, sh) && MayOpen(cfg, sh, input) && Honest(cfg, input.transferId, index, chunk)
    ensures RequestMoveOk(cfg, sh, OpenRequest(cfg.maxFileSizeBytes, sh, input, index, chunk))
  {
    StayingIsSafe(cfg, sh, Rejected(RoomFull));
    GrantKeepsTheRest(cfg, sh, input);
    GrantKeepsSessions(cfg, sh, input);
    assert input.transferId !in sh.admitted;
    hide ObjectsOk, SessionsOk, SlotsOk, RowsOk, FinalsOk, EndsOk, Guarantee, Known, HeldBy, MayOpen, Honest;
    var (sh', r) := OpenRequest(cfg.maxFileSizeBytes, sh, input, index, chunk);
    if r.CreatingTransfer? {
      GrantKeepsSlots(sh, input);
      assert sh' == Granted(sh, input);
    }
  }

  lemma ResumeIsSafe(cfg: Config, sh: Shared, room: Id, id: Id, index: nat, chunk: seq<byte>)
    requires SharedOk(cfg, sh)
    ensures Honest(cfg, id, index, chunk) ==> RequestOk(cfg, sh, ResumeRequest(sh, room, id, index, chunk))
  {
  }

  lemma WriteIsSafe(cfg: Config, sh: Shared, sh': Shared, key: ObjectKey, body: seq<byte>)
    requires SharedOk(cfg, sh) && TrueObject(cfg, key, body)
    requires sh' == sh.(objects := sh.objects[key := body], assembled := sh'.assembled)
    requires sh'.assembled == sh.assembled
             || (sh'.assembled == sh.assembled + {key.transfer}
                 && key.transfer in sh.admitted && key == FileObject(sh.admitted[key.transfer], key.transfer))
    ensures SharedOk(cfg, sh') && Guarantee(sh, sh')
  {
  }

  lemma StoreChunkIsSafe(cfg: Config, sh: Shared, s: Session, index: nat, chunk: seq<byte>, v: Verdict)
    requires SharedOk(cfg, sh) && Known(cfg, sh, s) && Honest(cfg, s.Tid(), index, chunk)
    ensures RequestMoveOk(cfg, sh, StoreChunk(sh, s, index, chunk, v))
  {
    var (sh', r) := StoreChunk(sh, s, index, chunk, v);
    ValidChunkIffTrueShape(cfg.files[s.Tid()], s.Total(), index, |chunk|);
    if Validated(s, index, chunk).None? && v.TookEffect() {
      WriteIsSafe(cfg, sh, sh', ChunkKey(s, index), chunk);
    }
  }

  lemma MarkKeepsSlots(sh: Shared, id: Id, index: nat)
    requires SlotsOk(sh.sessions, sh.admitted, sh.ends.All())
    ensures SlotsOk(MarkReceived(sh.sessions, id, index).0, sh.admitted, sh.ends.All())
  {
    var sessions := MarkReceived(sh.sessions, id, index).0;
    assert sessions.Keys == sh.sessions.Keys;
    forall room ensures HeldBy(sessions, room) == HeldBy(sh.sessions, room) {
    }
  }

  lemma MarkKeepsSessions(cfg: Config, sh: Shared, sh': Shared, s: Session, index: nat)
    requires SessionsOk(cfg, sh) && Known(cfg, sh, s) && Counted(cfg, s)
    requires index < Count(cfg.files[s.Tid()]) && Safe(sh, s, index) && s.Tid() in sh.sessions
    requires sh' == sh.(sessions := MarkReceived(sh.sessions, s.Tid(), index).0)
    ensures SessionsOk(cfg, sh') && Guarantee(sh, sh')
  {
    hide Count;
    var u := sh'.sessions[s.Tid()];
    assert SessionOk(cfg, sh, s.Tid());
    forall i | i in u.receivedChunks ensures Safe(sh', u, i) {
      assert i == index || Safe(sh, sh.sessions[s.Tid()], i);
    }
    forall id | id in sh'.sessions ensures SessionOk(cfg, sh', id) {
      assert SessionOk(cfg, sh, id);
    }
  }

  /** Marking a stored chunk keeps the sessions sound. */
  lemma MarkIsSafe(cfg: Config, sh: Shared, sh': Shared, s: Session, index: nat)
    requires SharedOk(cfg, sh) && Known(cfg, sh, s) && Counted(cfg, s)
    requires index < Count(cfg.files[s.Tid()]) && Safe(sh, s, index) && s.Tid() in sh.sessions
    requires sh' == sh.(sessions := MarkReceived(sh.sessions, s.Tid(), index).0)
    ensures SharedOk(cfg, sh') && Guarantee(sh, sh')
  {
    hide ObjectsOk, SessionsOk, SlotsOk, RowsOk, FinalsOk, EndsOk, Guarantee, Known, Counted, Safe;
    MarkKeepsSessions(cfg, sh, sh', s, index);
    MarkKeepsSlots(sh, s.Tid(), index);
  }

  lemma MarkChunkIsSafe(cfg: Config, sh: Shared, s: Session, index: nat)
    requires SharedOk(cfg, sh) && RequestOk(cfg, sh, Marking(s, index))
    ensures RequestMoveOk(cfg, sh, MarkChunk(sh, s, index))
  {
    var (sh', r) := MarkChunk(sh, s, index);
    if s.Tid() in sh.sessions {
      MarkIsSafe(cfg, sh, sh', s, index);
      var u := sh'.sessions[s.Tid()];
      assert SessionOk(cfg, sh', s.Tid());
      assert Prefix(cfg.files[s.Tid()], 0) == [];
    }
  }

  lemma ReadChunkIsSafe(cfg: Config, sh: Shared, s: Session, next: nat, bytes: seq<byte>, v: Verdict)
    requires SharedOk(cfg, sh) && RequestOk(cfg, sh, Assembling(s, next, bytes)) && next < Size(s)
    ensures RequestMoveOk(cfg, sh, (sh, ReadChunk(sh, s, next, bytes, v)))
  {
    PrefixGrowsBySlice(cfg.files[s.Tid()], next);
  }

  lemma WriteFinalIsSafe(cfg: Config, sh: Shared, s: Session, bytes: seq<byte>, v: Verdict)
    requires SharedOk(cfg, sh) && RequestOk(cfg, sh, Assembling(s, Size(s), bytes))
    ensures RequestMoveOk(cfg, sh, WriteFinal(sh, s, bytes, v))
  {
    PrefixOfAllChunksIsFile(cfg.files[s.Tid()], Size(s));
    if v.TookEffect() {
      WriteIsSafe(cfg, sh, WriteFinal(sh, s, bytes, v).0, FileKey(s), bytes);
    }
  }

  lemma RemoveChunkIsSafe(cfg: Config, sh: Shared, sh': Shared, s: Session, i: nat)
    requires SharedOk(cfg, sh) && s.Tid() in sh.admitted
    requires sh'.objects == sh.objects || sh'.objects == sh.objects - {ChunkKey(s, i)}
    requires sh' == sh.(objects := sh'.objects, reaped := sh'.reaped)
    requires sh.reaped <= sh'.reaped && (s.Tid() in sh.assembled || s.Tid() in sh'.reaped)
    ensures SharedOk(cfg, sh') && Guarantee(sh, sh')
  {
    SessionsStable(cfg, sh, sh');
  }

  lemma RemoveFinalIsSafe(cfg: Config, sh: Shared, sh': Shared, key: ObjectKey)
    requires SharedOk(cfg, sh) && key.FileObject?
    requires sh'.objects == sh.objects || sh'.objects == sh.objects - {key}
    requires sh' == sh.(objects := sh'.objects, erased := sh.erased + {key.transfer})
    ensures SharedOk(cfg, sh') && Guarantee(sh, sh')
  {
    SessionsStable(cfg, sh, sh');
  }

  lemma RowChangeIsSafe(cfg: Config, sh: Shared, sh': Shared)
    requires SharedOk(cfg, sh)
    requires sh' == sh.(transfers := sh'.transfers, payloads := sh'.payloads, sweeping := sh'.sweeping, now := sh'.now)
    requires sh.now <= sh'.now
    requires RowsOk(cfg, sh.admitted, sh'.transfers, sh'.payloads)
    ensures SharedOk(cfg, sh') && Guarantee(sh, sh')
  {
  }

  lemma TransferRowIsSafe(cfg: Config, sh: Shared, s: Session, index: nat, chunk: seq<byte>, v: Verdict)
    requires SharedOk(cfg, sh) && Known(cfg, sh, s) && Honest(cfg, s.Tid(), index, chunk)
    ensures RequestMoveOk(cfg, sh, CreateTransferRow(sh, s, index, chunk, v))
  {
    RowChangeIsSafe(cfg, sh, CreateTransferRow(sh, s, index, chunk, v).0);
  }

  lemma PayloadRowIsSafe(cfg: Config, sh: Shared, s: Session, index: nat, chunk: seq<byte>, v: Verdict)
    requires SharedOk(cfg, sh) && Known(cfg, sh, s) && Honest(cfg, s.Tid(), index, chunk)
    ensures RequestMoveOk(cfg, sh, CreatePayloadRow(sh, s, index, chunk, v))
  {
    RowChangeIsSafe(cfg, sh, CreatePayloadRow(sh, s, index, chunk, v).0);
  }

  lemma ClearChunkIsSafe(cfg: Config, sh: Shared, s: Session, pending: set<nat>, ok: bool, i: nat, v: Verdict)
    requires SharedOk(cfg, sh) && RequestOk(cfg, sh, Clearing(s, pending, ok))
    ensures RequestMoveOk(cfg, sh, ClearChunk(sh, s, pending, ok, i, v))
  {
    RemoveChunkIsSafe(cfg, sh, ClearChunk(sh, s, pending, ok, i, v).0, s, i);
  }

  lemma CompleteUploadIsSafe(cfg: Config, sh: Shared, s: Session, pending: set<nat>)
    requires SharedOk(cfg, sh) && RequestOk(cfg, sh, Clearing(s, pending, true))
    ensures RequestMoveOk(cfg, sh, CompleteUpload(sh, s))
  {
    ReleaseIsSafe(cfg, sh, sh.Complete(s.Tid()), s.Tid());
  }

  lemma RollingBackIsSafe(cfg: Config, sh: Shared, s: Session)
    requires SharedOk(cfg, sh) && Known(cfg, sh, s)
    ensures RequestMoveOk(cfg, sh, (sh.RollBack(s.Tid()), Rejected(Broke)))
  {
    ReleaseIsSafe(cfg, sh, sh.RollBack(s.Tid()), s.Tid());
  }

  lemma RequestStepIsSafe(cfg: Config, sh: Shared, r: Request, c: Choice)
    requires SharedOk(cfg, sh) && RequestOk(cfg, sh, r)
    ensures RequestMoveOk(cfg, sh, RequestStep(sh, r, c))
  {
    StayingIsSafe(cfg, sh, r);
    hide RequestMoveOk, SharedOk, StoreChunk, MarkChunk, WriteFinal, ReadChunk, CreateTransferRow, CreatePayloadRow;
    if c.Proceed? {
      match r
      case CreatingTransfer(s, index, chunk) => TransferRowIsSafe(cfg, sh, s, index, chunk, c.verdict);
      case CreatingPayload(s, index, chunk) => PayloadRowIsSafe(cfg, sh, s, index, chunk, c.verdict);
      case RollingBack(s) => RollingBackIsSafe(cfg, sh, s);
      case Validating(s, index, chunk) => StoreChunkIsSafe(cfg, sh, s, index, chunk, c.verdict);
      case Marking(s, index) => MarkChunkIsSafe(cfg, sh, s, index);
      case Assembling(s, next, bytes) =>
        if next < Size(s) { ReadChunkIsSafe(cfg, sh, s, next, bytes, c.verdict); }
        else { WriteFinalIsSafe(cfg, sh, s, bytes, c.verdict); }
      case Clearing(s, pending, ok) =>
        if pending == {} && ok { CompleteUploadIsSafe(cfg, sh, s, pending); }
      case _ =>
    } else if c.Drop? && r.Clearing? && c.index in r.pending {
      ClearChunkIsSafe(cfg, sh, r.session, r.pending, r.ok, c.index, c.verdict);
    }
  }

  lemma FetchIsSafe(cfg: Config, sh: Shared, d: Reader, fine: bool)
    requires SharedOk(cfg, sh) && ReaderOk(cfg, sh, d) && (d.Fetching? || d.Hopping?)
    ensures ReaderOk(cfg, sh, ReaderStep(sh, d, fine))
  {
    var file := cfg.files[d.id];
    PrefixGrowsBySlice(file, d.next);
    PrefixOfAllChunksIsFile(file, Count(file));
    IndexInRangeMeansBytesLeft(file, d.next);
    assert file[..d.next * CHUNK_SIZE_BYTES] + file[d.next * CHUNK_SIZE_BYTES..] == file;
  }

  lemma ReaderStepIsSafe(cfg: Config, sh: Shared, d: Reader, fine: bool)
    requires SharedOk(cfg, sh) && ReaderOk(cfg, sh, d)
    ensures ReaderOk(cfg, sh, ReaderStep(sh, d, fine))
  {
    if d.Fetching? || d.Hopping? {
      FetchIsSafe(cfg, sh, d, fine);
    } else if d.Following? {
      if d.id in sh.sessions && d.next in sh.sessions[d.id].receivedChunks {
        assert SessionOk(cfg, sh, d.id) && Safe(sh, sh.sessions[d.id], d.next);
      }
    } else if d.Choosing? {
      assert Prefix(cfg.files[d.id], 0) == [];
    } else if d.ReadingWhole? {
      assert cfg.files[d.id][0..] == cfg.files[d.id];
    }
  }

  lemma BeginReapingIsSafe(cfg: Config, sh: Shared, order: seq<Id>)
    requires SharedOk(cfg, sh)
    ensures SweepOk(cfg, sh, BeginReaping(sh, order))
  {
    var p := BeginReaping(sh, order);
    if p.Reaping? {
      forall id | id in sh.sessions ensures sh.sessions[id].Tid() == id {
        assert SessionOk(cfg, sh, id);
      }
      StaleInIsExact(sh.sessions, order, sh.now - ABANDONED_UPLOAD_TTL_MS);
      forall i | 0 <= i < |p.queue|
        ensures Known(cfg, sh, p.queue[i]) && Stale(p.queue[i], sh.now - ABANDONED_UPLOAD_TTL_MS)
      {
        assert p.queue[i] in p.queue;
        assert SessionOk(cfg, sh, p.queue[i].Tid());
      }
    }
  }

  lemma ReapOnIsSafe(cfg: Config, sh: Shared, queue: seq<Session>, todo: set<nat>, stage: Stage, v: Verdict)
    requires SharedOk(cfg, sh) && SweepOk(cfg, sh, Reaping(queue, todo, stage)) && queue != []
    ensures SweepMoveOk(cfg, sh, ReapOn(sh, queue, todo, stage, v))
  {
    var (sh', p) := ReapOn(sh, queue, todo, stage, v);
    assert Known(cfg, sh, queue[0]);
    match stage {
      case FinalObject => RemoveFinalIsSafe(cfg, sh, sh', FileKey(queue[0]));
      case Slot => ReleaseIsSafe(cfg, sh, sh', queue[0].Tid());
      case _ => RowChangeIsSafe(cfg, sh, sh');
    }
    SweepIsStable(cfg, sh, sh', Reaping(queue, todo, stage));
    assert stage.FinalObject? ==> queue[0].Tid() in sh'.erased;
    hide SharedOk, Guarantee, Known;
    assert SweepOk(cfg, sh', p);
  }

  lemma ReapChunkIsSafe(cfg: Config, sh: Shared, queue: seq<Session>, todo: set<nat>, i: nat, v: Verdict)
    requires SharedOk(cfg, sh) && SweepOk(cfg, sh, Reaping(queue, todo, Chunks)) && queue != []
    ensures SweepMoveOk(cfg, sh, ReapChunk(sh, queue, todo, i, v))
  {
    var (sh', p) := ReapChunk(sh, queue, todo, i, v);
    assert Known(cfg, sh, queue[0]);
    RemoveChunkIsSafe(cfg, sh, sh', queue[0], i);
    SweepIsStable(cfg, sh, sh', p);
  }

  lemma EndSweepIsSafe(cfg: Config, sh: Shared)
    requires SharedOk(cfg, sh)
    ensures SweepMoveOk(cfg, sh, (sh.(sweeping := false), Swept))
  {
  }

  lemma SweepStepIsSafe(cfg: Config, sh: Shared, p: Sweep, c: Choice)
    requires SharedOk(cfg, sh) && SweepOk(cfg, sh, p)
    ensures SweepMoveOk(cfg, sh, SweepStep(sh, p, c))
  {
    RowChangeIsSafe(cfg, sh, sh);
    EndSweepIsSafe(cfg, sh);
    if p.Expiring? && c.Scan? {
      BeginReapingIsSafe(cfg, sh, c.order);
    } else if p.Reaping? && p.queue != [] {
      if c.Proceed? {
        ReapOnIsSafe(cfg, sh, p.queue, p.todo, p.stage, c.verdict);
      } else if c.Drop? && p.stage.Chunks? && c.index in p.todo {
        ReapChunkIsSafe(cfg, sh, p.queue, p.todo, c.index, c.verdict);
      }
    }
  }

  lemma PurgeKeepsKeys(cfg: Config, sh: Shared, p: Purge, c: Choice)
    requires SharedOk(cfg, sh) && PurgeOk(cfg, sh, p)
    ensures PurgeOk(cfg, PurgeStep(sh, p, c).0, PurgeStep(sh, p, c).1)
    ensures p.Purging? && c.Erase? && c.key in p.keys ==> c.key.FileObject?
  {
    hide ObjectsOk, SessionsOk, SlotsOk, EndsOk, FinalsOk, Remove;
  }

  lemma PurgeKeepsRows(cfg: Config, sh: Shared, p: Purge, c: Choice)
    requires SharedOk(cfg, sh)
    ensures var sh' := PurgeStep(sh, p, c).0; RowsOk(cfg, sh'.admitted, sh'.transfers, sh'.payloads)
  {
    hide ObjectsOk, SessionsOk, SlotsOk, EndsOk, FinalsOk, TrueFileKey, Remove, RowsOf;
  }

  lemma PurgeStepIsSafe(cfg: Config, sh: Shared, p: Purge, c: Choice)
    requires SharedOk(cfg, sh) && PurgeOk(cfg, sh, p)
    ensures PurgeMoveOk(cfg, sh, PurgeStep(sh, p, c))
  {
    PurgeKeepsKeys(cfg, sh, p, c);
    PurgeKeepsRows(cfg, sh, p, c);
    var (sh', p') := PurgeStep(sh, p, c);
    hide SharedOk, Guarantee, PurgeOk, RowsOf;
    if p.Purging? && c.Erase? && c.key in p.keys {
      RemoveFinalIsSafe(cfg, sh, sh', c.key);
    } else {
      RowChangeIsSafe(cfg, sh, sh');
    }
  }

  // --- No process can break another's assertion ------------------------------------

  lemma RequestIsStable(cfg: Config, sh: Shared, sh': Shared, r: Request)
    requires Guarantee(sh, sh') && RequestOk(cfg, sh, r)
    ensures RequestOk(cfg, sh', r)
  {
  }

  lemma ReaderIsStable(cfg: Config, sh: Shared, sh': Shared, d: Reader)
    requires Guarantee(sh, sh') && ReaderOk(cfg, sh, d)
    ensures ReaderOk(cfg, sh', d)
  {
  }

  lemma SweepIsStable(cfg: Config, sh: Shared, sh': Shared, p: Sweep)
    requires Guarantee(sh, sh') && SweepOk(cfg, sh, p)
    ensures SweepOk(cfg, sh', p)
  {
  }

  lemma PurgeIsStable(cfg: Config, sh: Shared, sh': Shared, p: Purge)
    requires Guarantee(sh, sh') && PurgeOk(cfg, sh, p)
    ensures PurgeOk(cfg, sh', p)
  {
  }

  // --- The invariant of the machine ------------------------------------------------

  ghost predicate ProcessesOk(cfg: Config, sh: Shared, w: World) {
    && (forall q :: q in w.requests ==> RequestOk(cfg, sh, w.requests[q]))
    && (forall d :: d in w.readers ==> ReaderOk(cfg, sh, w.readers[d]))
    && (forall p :: p in w.sweeps ==> SweepOk(cfg, sh, w.sweeps[p]))
    && (forall p :: p in w.purges ==> PurgeOk(cfg, sh, w.purges[p]))
  }

  /** At most one sweep is under way, and the flag says whether one is. */
  ghost predicate OneSweep(w: World) {
    && (forall p :: p in w.sweeps && !w.sweeps[p].Swept? ==> w.shared.sweeping)
    && (forall p, q :: p in w.sweeps && q in w.sweeps && !w.sweeps[p].Swept? && !w.sweeps[q].Swept? ==> p == q)
  }

  ghost predicate Inv(cfg: Config, w: World) {
    SharedOk(cfg, w.shared) && ProcessesOk(cfg, w.shared, w) && OneSweep(w)
  }

  lemma AllStable(cfg: Config, sh: Shared, sh': Shared, w: World)
    requires Guarantee(sh, sh') && ProcessesOk(cfg, sh, w)
    ensures ProcessesOk(cfg, sh', w)
  {
    forall q | q in w.requests ensures RequestOk(cfg, sh', w.requests[q]) {
      RequestIsStable(cfg, sh, sh', w.requests[q]);
    }
    forall d | d in w.readers ensures ReaderOk(cfg, sh', w.readers[d]) {
      ReaderIsStable(cfg, sh, sh', w.readers[d]);
    }
    forall p | p in w.sweeps ensures SweepOk(cfg, sh', w.sweeps[p]) {
      SweepIsStable(cfg, sh, sh', w.sweeps[p]);
    }
    forall p | p in w.purges ensures PurgeOk(cfg, sh', w.purges[p]) {
      PurgeIsStable(cfg, sh, sh', w.purges[p]);
    }
  }

  lemma SweepKeepsFlag(sh: Shared, p: Sweep, c: Choice)
    ensures var (sh', p') := SweepStep(sh, p, c);
            && (p.Swept? ==> p'.Swept? && sh' == sh)
            && (sh'.sweeping != sh.sweeping ==> p'.Swept?)
            && (sh'.sweeping ==> sh.sweeping)
  {
  }

  lemma OpeningKeepsFlag(sh: Shared, max: int, input: SessionInput, index: nat, chunk: seq<byte>)
    ensures OpenRequest(max, sh, input, index, chunk).0.sweeping == sh.sweeping
  {
  }

  lemma PurgeKeepsFlag(sh: Shared, p: Purge, c: Choice)
    ensures PurgeStep(sh, p, c).0.sweeping == sh.sweeping
  {
  }

  lemma OneSweepIsKept(cfg: Config, w: World, step: Step)
    requires OneSweep(w)
    ensures OneSweep(Apply(cfg, w, step))
  {
    hide RequestStep, SweepStep, PurgeStep, OpenRequest, ResumeRequest, ReaderStep, MayOpen, Honest;
    if step.SweepOn? && step.p in w.sweeps {
      SweepKeepsFlag(w.shared, w.sweeps[step.p], step.choice);
    } else if step.OpenUpload? {
      OpeningKeepsFlag(w.shared, cfg.maxFileSizeBytes, step.input, step.index, step.chunk);
    } else if step.Advance? && step.q in w.requests {
      RequestKeepsFlag(w.shared, w.requests[step.q], step.choice);
    } else if step.PurgeOn? && step.p in w.purges {
      PurgeKeepsFlag(w.shared, w.purges[step.p], step.choice);
    }
  }

  lemma RequestKeepsFlag(sh: Shared, r: Request, c: Choice)
    ensures RequestStep(sh, r, c).0.sweeping == sh.sweeping
  {
  }

  /** What one step owes the whole machine. */
  ghost predicate Kept(cfg: Config, w: World, w': World) {
    SharedOk(cfg, w'.shared) && Guarantee(w.shared, w'.shared) && ProcessesOk(cfg, w'.shared, w')
  }

  lemma OpenKeepsAll(cfg: Config, w: World, q: nat, input: SessionInput, index: nat, chunk: seq<byte>)
    requires SharedOk(cfg, w.shared) && ProcessesOk(cfg, w.shared, w)
    ensures Kept(cfg, w, Apply(cfg, w, OpenUpload(q, input, index, chunk)))
  {
    var w' := Apply(cfg, w, OpenUpload(q, input, index, chunk));
    if w' != w {
      OpenIsSafe(cfg, w.shared, input, index, chunk);
      AllStable(cfg, w.shared, w'.shared, w);
    }
  }

  lemma ResumeKeepsAll(cfg: Config, w: World, q: nat, room: Id, id: Id, index: nat, chunk: seq<byte>)
    requires SharedOk(cfg, w.shared) && ProcessesOk(cfg, w.shared, w)
    ensures Kept(cfg, w, Apply(cfg, w, ResumeUpload(q, room, id, index, chunk)))
  {
    ResumeIsSafe(cfg, w.shared, room, id, index, chunk);
    hide SharedOk, RequestOk, ReaderOk, SweepOk, PurgeOk, ResumeRequest;
  }

  lemma AdvanceKeepsAll(cfg: Config, w: World, q: nat, c: Choice)
    requires SharedOk(cfg, w.shared) && ProcessesOk(cfg, w.shared, w)
    ensures Kept(cfg, w, Apply(cfg, w, Advance(q, c)))
  {
    if q in w.requests {
      RequestStepIsSafe(cfg, w.shared, w.requests[q], c);
      AllStable(cfg, w.shared, RequestStep(w.shared, w.requests[q], c).0, w);
    }
  }

  lemma ReadKeepsAll(cfg: Config, w: World, d: nat, fine: bool)
    requires SharedOk(cfg, w.shared) && ProcessesOk(cfg, w.shared, w)
    ensures Kept(cfg, w, Apply(cfg, w, Read(d, fine)))
  {
    if d in w.readers {
      ReaderStepIsSafe(cfg, w.shared, w.readers[d], fine);
    }
  }

  lemma SweepKeepsAll(cfg: Config, w: World, p: nat, c: Choice)
    requires SharedOk(cfg, w.shared) && ProcessesOk(cfg, w.shared, w)
    ensures Kept(cfg, w, Apply(cfg, w, SweepOn(p, c)))
  {
    if p in w.sweeps {
      SweepStepIsSafe(cfg, w.shared, w.sweeps[p], c);
      AllStable(cfg, w.shared, SweepStep(w.shared, w.sweeps[p], c).0, w);
    }
  }

  lemma PurgeKeepsAll(cfg: Config, w: World, p: nat, c: Choice)
    requires SharedOk(cfg, w.shared) && ProcessesOk(cfg, w.shared, w)
    ensures Kept(cfg, w, Apply(cfg, w, PurgeOn(p, c)))
  {
    if p in w.purges {
      PurgeStepIsSafe(cfg, w.shared, w.purges[p], c);
      AllStable(cfg, w.shared, PurgeStep(w.shared, w.purges[p], c).0, w);
    }
  }

  lemma WaitKeepsAll(cfg: Config, w: World, sh': Shared)
    requires SharedOk(cfg, w.shared) && ProcessesOk(cfg, w.shared, w)
    requires sh' == w.shared.(now := sh'.now) && sh'.now >= w.shared.now
    ensures Kept(cfg, w, w.(shared := sh'))
  {
    RowChangeIsSafe(cfg, w.shared, sh');
    AllStable(cfg, w.shared, sh', w);
  }

  lemma StartSweepKeepsAll(cfg: Config, w: World, p: nat)
    requires SharedOk(cfg, w.shared) && ProcessesOk(cfg, w.shared, w)
    ensures Kept(cfg, w, w)
    ensures Kept(cfg, w, w.(shared := w.shared.(sweeping := true), sweeps := w.sweeps[p := Expiring]))
  {
    var sh' := w.shared.(sweeping := true);
    RowChangeIsSafe(cfg, w.shared, sh');
    RowChangeIsSafe(cfg, w.shared, w.shared);
    AllStable(cfg, w.shared, sh', w);
  }

  lemma StartKeepsAll(cfg: Config, w: World, step: Step)
    requires SharedOk(cfg, w.shared) && ProcessesOk(cfg, w.shared, w)
    requires step.StartDownload? || step.StartPurge?
    ensures Kept(cfg, w, Apply(cfg, w, step))
  {
    assert Apply(cfg, w, step).shared == w.shared;
  }

  lemma StepIsSafe(cfg: Config, w: World, step: Step, w': World)
    requires SharedOk(cfg, w.shared) && ProcessesOk(cfg, w.shared, w) && w' == Apply(cfg, w, step)
    ensures Kept(cfg, w, w')
  {
    hide Kept, SharedOk, ProcessesOk;
    match step
    case OpenUpload(q, input, index, chunk) => OpenKeepsAll(cfg, w, q, input, index, chunk);
    case ResumeUpload(q, room, id, index, chunk) => ResumeKeepsAll(cfg, w, q, room, id, index, chunk);
    case Advance(q, c) => AdvanceKeepsAll(cfg, w, q, c);
    case Read(d, fine) => ReadKeepsAll(cfg, w, d, fine);
    case SweepOn(p, c) => SweepKeepsAll(cfg, w, p, c);
    case PurgeOn(p, c) => PurgeKeepsAll(cfg, w, p, c);
    case StartDownload(_, _, _) => StartKeepsAll(cfg, w, step);
    case StartPurge(_, _) => StartKeepsAll(cfg, w, step);
    case StartSweep(p) => StartSweepKeepsAll(cfg, w, p);
    case Wait(ms) => WaitKeepsAll(cfg, w, w.shared.(now := w.shared.now + ms));
  }

  lemma {:induction false} InvIsKept(cfg: Config, w: World, picks: seq<Step>)
    requires Inv(cfg, w)
    ensures Inv(cfg, RunFrom(cfg, w, picks))
    ensures Guarantee(w.shared, RunFrom(cfg, w, picks).shared)
  {
    if picks != [] {
      var before := RunFrom(cfg, w, picks[..|picks| - 1]);
      var last := picks[|picks| - 1];
      InvIsKept(cfg, w, picks[..|picks| - 1]);
      StepIsSafe(cfg, before, last, Apply(cfg, before, last));
      OneSweepIsKept(cfg, before, last);
      GuaranteesCompose(w.shared, before.shared, Apply(cfg, before, last).shared);
    }
  }

  lemma GuaranteesCompose(a: Shared, b: Shared, c: Shared)
    requires Guarantee(a, b) && Guarantee(b, c) && a.sessions.Keys <= a.admitted.Keys
    ensures Guarantee(a, c)
  {
  }

  lemma InvHoldsThroughout(cfg: Config, picks: seq<Step>)
    ensures Inv(cfg, Run(cfg, picks))
  {
    assert forall room: Id :: HeldBy(Empty.sessions, room) == {};
    InvIsKept(cfg, Init, picks);
  }
}
