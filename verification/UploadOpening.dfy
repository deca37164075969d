/** Opening an upload and resuming one (apps/api/src/transfer/chunked-upload.service.ts): who is
    refused, and what an opening that fails gives back. */
module UploadOpening {
  import opened Common
  import opened Chunking
  import opened ObjectStorage
  import opened UploadSessions
  import opened Pipeline
  import opened PipelineSafety
  import opened PipelineTheorems
  import opened ChunkedUpload
  import opened UploadRuns

  // --- One request, served alone -----------------------------------------------------

  predicate RowsWritten(calls: Calls) {
    calls.transferRow.Reported() && calls.payloadRow.Reported()
  }

  ghost predicate MayReserve(max: int, sh: Shared, input: SessionInput) {
    && input.fileSizeBytes <= max && input.transferId !in sh.sessions
    && |HeldBy(sh.sessions, input.roomId)| < MAX_CONCURRENT_TRANSFERS_PER_ROOM
  }

  lemma RowInsertsTouchRows(sh: Shared, s: Session, index: nat, chunk: seq<byte>, v: Verdict)
    ensures var (sh', r) := CreateTransferRow(sh, s, index, chunk, v);
            sh' == sh.(transfers := sh'.transfers) && (r.RollingBack? <==> !v.Reported())
    ensures var (sh', r) := CreatePayloadRow(sh, s, index, chunk, v);
            sh' == sh.(payloads := sh'.payloads) && (!v.Reported() ==> r.RollingBack?)
  {
  }

  lemma UnwrittenRowsRollBack(sh: Shared, s: Session, index: nat, chunk: seq<byte>, calls: Calls)
    requires !RowsWritten(calls)
    ensures var (sh', r) := WriteRows(sh, s, index, chunk, calls);
            && r == Rejected(Broke) && sh'.sessions == sh.sessions - {s.Tid()} && sh'.objects == sh.objects
            && sh'.ends.rolledBack == sh.ends.rolledBack + {s.Tid()}
  {
    hide StoreAndMark, CreateTransferRow, CreatePayloadRow;
    RowInsertsTouchRows(sh, s, index, chunk, calls.transferRow);
    RowInsertsTouchRows(CreateTransferRow(sh, s, index, chunk, calls.transferRow).0, s, index, chunk, calls.payloadRow);
  }

  /** If either row insert is refused, or reported failed although it took effect, the request is
      refused and the slot it had reserved is free again. */
  lemma FailedOpeningFreesTheSlot(max: int, sh: Shared, input: SessionInput, index: nat, chunk: seq<byte>, calls: Calls)
    requires MayReserve(max, sh, input) && !RowsWritten(calls)
    ensures var (sh', r) := AcceptNew(max, sh, input, index, chunk, calls);
            && r == Rejected(Broke)
            && input.transferId !in sh'.sessions && sh'.sessions == sh.sessions && sh'.objects == sh.objects
            && input.transferId in sh'.ends.rolledBack
            && (forall room :: HeldBy(sh'.sessions, room) == HeldBy(sh.sessions, room))
  {
    hide StoreAndMark, HeldBy;
    var s := Session(input, {}, sh.now);
    var reserved := sh.(sessions := sh.sessions[s.Tid() := s], admitted := sh.admitted[s.Tid() := s.Room()]);
    assert OpenRequest(max, sh, input, index, chunk) == (reserved, CreatingTransfer(s, index, chunk));
    UnwrittenRowsRollBack(reserved, s, index, chunk, calls);
    assert reserved.sessions - {s.Tid()} == sh.sessions;
  }

  /** What an opening whose rows were written keeps through the rest of its request. */
  ghost predicate KeepsItsRows(sh: Shared, sh': Shared, input: SessionInput) {
    var id := input.transferId;
    && id in sh'.transfers && sh'.transfers[id] == input.roomId
    && id in sh'.payloads && sh'.payloads[id] == FileObject(input.roomId, id)
    && sh'.ends.rolledBack == sh.ends.rolledBack
    && (id in sh'.sessions || id in sh'.ends.completed)
  }

  lemma StoringKeepsRows(sh: Shared, s: Session, index: nat, chunk: seq<byte>, calls: Calls)
    requires s.Tid() in sh.sessions && sh.sessions[s.Tid()] == s
    ensures var (sh', r) := StoreAndMark(sh, s, index, chunk, calls);
            && sh'.transfers == sh.transfers && sh'.payloads == sh.payloads && sh'.ends.rolledBack == sh.ends.rolledBack
            && (s.Tid() in sh'.sessions || s.Tid() in sh'.ends.completed)
            && r != Rejected(FileTooLarge) && r != Rejected(RoomFull) && r != Rejected(SessionNotFound)
            && r != Rejected(RoomMismatch)
  {
    hide AssembleFrom, Validated, Put;
    var (stored, r1) := StoreChunk(sh, s, index, chunk, calls.chunkPut);
    if r1.Marking? {
      var (marked, r2) := MarkChunk(stored, s, index);
      if r2.Assembling? {
        AssemblyTouchesObjectsAndSlot(marked, r2.session, 0, [], calls);
      }
    }
  }

  /** If both inserts are answered the Transfer has its rows, and its slot is not given back. */
  lemma WrittenOpeningKeepsTheSlot(max: int, sh: Shared, input: SessionInput, index: nat, chunk: seq<byte>, calls: Calls)
    requires MayReserve(max, sh, input) && RowsWritten(calls)
    ensures KeepsItsRows(sh, AcceptNew(max, sh, input, index, chunk, calls).0, input)
  {
    var id, s := input.transferId, Session(input, {}, sh.now);
    var described := sh.(sessions := sh.sessions[id := s], admitted := sh.admitted[id := input.roomId],
                         transfers := sh.transfers[id := input.roomId],
                         payloads := sh.payloads[id := FileObject(input.roomId, id)]);
    hide StoreAndMark;
    assert AcceptNew(max, sh, input, index, chunk, calls) == StoreAndMark(described, s, index, chunk, calls);
    StoringKeepsRows(described, s, index, chunk, calls);
  }

  /** A first request is refused for its size exactly when the file is over the limit, and for
      capacity exactly when it is not and the Room is full; either way nothing has changed. */
  lemma OpeningIsRefusedExactlyWhen(max: int, sh: Shared, input: SessionInput, index: nat, chunk: seq<byte>, calls: Calls)
    ensures var (sh', r) := AcceptNew(max, sh, input, index, chunk, calls);
            && (r == Rejected(FileTooLarge) <==> input.fileSizeBytes > max)
            && (r == Rejected(RoomFull) <==>
                  input.fileSizeBytes <= max && |HeldBy(sh.sessions, input.roomId)| >= 10)
            && (r == Rejected(FileTooLarge) || r == Rejected(RoomFull) ==> sh' == sh)
  {
    var s := Session(input, {}, sh.now);
    hide StoreAndMark, HeldBy;
    var (reserved, r0) := OpenRequest(max, sh, input, index, chunk);
    if r0.CreatingTransfer? {
      var created := CreateTransferRow(reserved, s, index, chunk, calls.transferRow);
      if created.1.CreatingPayload? {
        var described := CreatePayloadRow(created.0, s, index, chunk, calls.payloadRow);
        if described.1.Validating? {
          StoringKeepsRows(described.0, s, index, chunk, calls);
        }
      }
    }
  }

  /** A later request is refused as unknown exactly when the Transfer holds no session, and for its
      Room exactly when it names another one; either way nothing has changed. */
  lemma ResumingIsRefusedExactlyWhen(sh: Shared, room: Id, id: Id, index: nat, chunk: seq<byte>, calls: Calls)
    requires id in sh.sessions ==> sh.sessions[id].Tid() == id
    ensures var (sh', r) := AcceptMore(sh, room, id, index, chunk, calls);
            && (r == Rejected(SessionNotFound) <==> id !in sh.sessions)
            && (r == Rejected(RoomMismatch) <==> id in sh.sessions && sh.sessions[id].Room() != room)
            && (r == Rejected(SessionNotFound) || r == Rejected(RoomMismatch) ==> sh' == sh)
  {
    hide StoreAndMark;
    if id in sh.sessions {
      StoringKeepsRows(sh, sh.sessions[id], index, chunk, calls);
    }
  }

  // --- Over every run --------------------------------------------------------------

  /** A request that opens Transfer `id` and has not been validated: under way, or refused with its
      slot given back. */
  ghost predicate OpeningStands(sh: Shared, r: Request, id: Id) {
    match r
    case CreatingTransfer(s, _, _) => s.Tid() == id
    case CreatingPayload(s, _, _) => s.Tid() == id
    case RollingBack(s) => s.Tid() == id
    case Rejected(why) => why == Broke && id in sh.ends.rolledBack
    case _ => false
  }

  lemma OpeningMovesOn(sh: Shared, r: Request, c: Choice, id: Id)
    requires OpeningStands(sh, r, id)
    ensures var (sh', r') := RequestStep(sh, r, c); r'.Validating? || OpeningStands(sh', r', id)
  {
  }

  lemma OpeningIsStable(sh: Shared, sh': Shared, r: Request, id: Id)
    requires OpeningStands(sh, r, id) && Guarantee(sh, sh')
    ensures OpeningStands(sh', r, id)
  {
  }

  /** Request q is never validated on the way. */
  ghost predicate NeverValidated(cfg: Config, w: World, picks: seq<Step>, q: nat) {
    forall n :: 0 <= n <= |picks| ==>
      q in RunFrom(cfg, w, picks[..n]).requests && !RunFrom(cfg, w, picks[..n]).requests[q].Validating?
  }

  lemma OneStepOfTheOpening(cfg: Config, w: World, step: Step, q: nat, id: Id)
    requires Inv(cfg, w) && q in w.requests && OpeningStands(w.shared, w.requests[q], id)
    requires q in Apply(cfg, w, step).requests && !Apply(cfg, w, step).requests[q].Validating?
    ensures OpeningStands(Apply(cfg, w, step).shared, Apply(cfg, w, step).requests[q], id)
  {
    hide OpeningStands, RequestStep, SharedOk, ProcessesOk, OneSweep, Guarantee;
    if step.Advance? && step.q == q {
      OpeningMovesOn(w.shared, w.requests[q], step.choice, id);
    } else {
      StepIsSafe(cfg, w, step, Apply(cfg, w, step));
      SameRequest(cfg, w, step, q);
      OpeningIsStable(w.shared, Apply(cfg, w, step).shared, w.requests[q], id);
    }
  }

  lemma SameRequest(cfg: Config, w: World, step: Step, q: nat)
    requires q in w.requests && !(step.Advance? && step.q == q)
    ensures q in Apply(cfg, w, step).requests && Apply(cfg, w, step).requests[q] == w.requests[q]
  {
    hide RequestStep, SweepStep, PurgeStep, OpenRequest, ReaderStep, ResumeRequest, Honest, MayOpen;
  }

  lemma {:induction false} OpeningIsKept(cfg: Config, w: World, picks: seq<Step>, q: nat, id: Id)
    requires Inv(cfg, w) && q in w.requests && OpeningStands(w.shared, w.requests[q], id)
    requires NeverValidated(cfg, w, picks, q)
    ensures var after := RunFrom(cfg, w, picks);
            q in after.requests && OpeningStands(after.shared, after.requests[q], id) && Inv(cfg, after)
  {
    hide Apply, Inv, OpeningStands;
    if picks != [] {
      var init := picks[..|picks| - 1];
      assert picks[..|picks|] == picks;
      forall n | 0 <= n <= |init| ensures init[..n] == picks[..n] {
      }
      OpeningIsKept(cfg, w, init, q, id);
      OneStepOfTheOpening(cfg, RunFrom(cfg, w, init), picks[|picks| - 1], q, id);
    }
    InvIsKept(cfg, w, picks);
  }

  lemma OpensAtTheRows(cfg: Config, w: World, open: Step)
    requires Inv(cfg, w) && Opens(cfg, w, open)
    ensures var w' := Apply(cfg, w, open);
            && Inv(cfg, w') && open.q in w'.requests
            && OpeningStands(w'.shared, w'.requests[open.q], open.input.transferId)
  {
    assert open.input.transferId !in w.shared.sessions.Keys;
    hide HeldBy, ProcessesOk, OneSweep, SharedOk;
    StepIsSafe(cfg, w, open, Apply(cfg, w, open));
    OneSweepIsKept(cfg, w, open);
  }

  lemma RolledBackHoldsNothing(cfg: Config, w: World, id: Id)
    requires Inv(cfg, w) && id in w.shared.ends.rolledBack
    ensures id !in w.shared.sessions
  {
    assert id !in w.shared.sessions.Keys;
  }

  /** In every run: a Transfer whose opening request was refused without ever being validated holds no
      slot, then and for ever. */
  lemma FailedOpeningsHoldNoSlot(cfg: Config, picks: seq<Step>, open: Step, later: seq<Step>)
    requires Opens(cfg, Run(cfg, picks), open)
    requires var begun := Apply(cfg, Run(cfg, picks), open);
             && NeverValidated(cfg, begun, later, open.q)
             && open.q in RunFrom(cfg, begun, later).requests
             && RunFrom(cfg, begun, later).requests[open.q].Rejected?
    ensures var now := RunFrom(cfg, Apply(cfg, Run(cfg, picks), open), later);
            && now.requests[open.q] == Rejected(Broke)
            && open.input.transferId in now.shared.ends.rolledBack
            && open.input.transferId !in now.shared.sessions
  {
    var w := Run(cfg, picks);
    var begun := Apply(cfg, w, open);
    var now := RunFrom(cfg, begun, later);
    assert later[..|later|] == later;
    hide RunFrom, Apply, Inv, Opens;
    InvHoldsThroughout(cfg, picks);
    OpensAtTheRows(cfg, w, open);
    OpeningIsKept(cfg, begun, later, open.q, open.input.transferId);
    hide NeverValidated;
    RolledBackHoldsNothing(cfg, now, open.input.transferId);
  }

  /** In every run: a later request that names a Transfer is let through exactly when that Transfer was
      admitted to the Room the request comes from and has not ended. */
  lemma RequestsStayInTheirRoom(cfg: Config, picks: seq<Step>, q: nat, room: Id, id: Id, index: nat, chunk: seq<byte>)
    requires q !in Run(cfg, picks).requests && Honest(cfg, id, index, chunk)
    ensures var sh := Run(cfg, picks).shared;
            var after := Apply(cfg, Run(cfg, picks), ResumeUpload(q, room, id, index, chunk));
            var held := id in sh.admitted && id !in sh.ends.All();
            && after.shared == sh && q in after.requests
            && (after.requests[q] == Rejected(SessionNotFound) <==> !held)
            && (after.requests[q] == Rejected(RoomMismatch) <==> held && sh.admitted[id] != room)
            && (after.requests[q].Validating? <==> held && sh.admitted[id] == room)
  {
    InvHoldsThroughout(cfg, picks);
    var sh := Run(cfg, picks).shared;
    assert id in sh.sessions.Keys <==> id in sh.admitted.Keys - sh.ends.All();
    if id in sh.sessions { assert SessionOk(cfg, sh, id); }
  }

  ghost predicate Fit(cfg: Config, admitted: map<Id, Id>) {
    forall id :: id in admitted ==> id in cfg.files && |cfg.files[id]| <= cfg.maxFileSizeBytes
  }

  lemma StepAdmitsWhatFits(cfg: Config, w: World, step: Step)
    requires Fit(cfg, w.shared.admitted)
    ensures Fit(cfg, Apply(cfg, w, step).shared.admitted)
  {
    hide HeldBy, ReaderStep, ResumeRequest, Honest;
    if step.Advance? && step.q in w.requests {
      RequestAdmitsNothing(w.shared, w.requests[step.q], step.choice);
      hide RequestStep;
    } else if step.SweepOn? && step.p in w.sweeps {
      SweepAdmitsNothing(w.shared, w.sweeps[step.p], step.choice);
      hide SweepStep;
    }
  }

  lemma RequestAdmitsNothing(sh: Shared, r: Request, c: Choice)
    ensures RequestStep(sh, r, c).0.admitted == sh.admitted
  {
  }

  lemma SweepAdmitsNothing(sh: Shared, p: Sweep, c: Choice)
    ensures SweepStep(sh, p, c).0.admitted == sh.admitted
  {
    hide BeginReaping, ReapNext, Remove;
  }

  /** In every run: no file over the limit is ever admitted. */
  lemma {:induction false} OversizedFilesAreNeverAdmitted(cfg: Config, picks: seq<Step>)
    ensures Fit(cfg, Run(cfg, picks).shared.admitted)
  {
    if picks != [] {
      OversizedFilesAreNeverAdmitted(cfg, picks[..|picks| - 1]);
      StepAdmitsWhatFits(cfg, Run(cfg, picks[..|picks| - 1]), picks[|picks| - 1]);
    }
  }

  /** A chunk that is not a slice of the file, by count, index or length, is refused and changes
      nothing; any other is not refused for its shape. */
  lemma MisshapenChunksChangeNothing(sh: Shared, id: Id, file: seq<byte>, index: nat, chunk: seq<byte>, calls: Calls)
    requires file != [] && id in sh.sessions && sh.sessions[id].Tid() == id && sh.sessions[id].input.fileSizeBytes == |file|
    ensures var s := sh.sessions[id];
            var (sh', r) := AcceptMore(sh, s.Room(), id, index, chunk, calls);
            var shaped := s.Total() == Count(file) && index < Count(file) && |chunk| == |Slice(file, index)|;
            && (!shaped <==> r.Rejected? && r.why.BadChunk?)
            && (!shaped ==> sh' == sh)
  {
    var s := sh.sessions[id];
    ValidChunkIffTrueShape(file, s.Total(), index, |chunk|);
    hide AssembleFrom, Slice, Count;
    var (stored, r1) := StoreChunk(sh, s, index, chunk, calls.chunkPut);
    if r1.Marking? {
      var (marked, r2) := MarkChunk(stored, s, index);
      if r2.Assembling? {
        AssemblyTouchesObjectsAndSlot(marked, r2.session, 0, [], calls);
      }
    }
  }
}
