/** Re-sending a chunk of a fully received upload while other processes of the machine run: what
    it needs of them, and a run in which a removal left in flight by a failed assembly
    (apps/api/src/transfer/chunk-assembler.ts) defeats it. */
module ResendRuns {
  import opened Common
  import opened Chunking
  import opened ObjectStorage
  import opened UploadSessions
  import opened Pipeline
  import opened PipelineSafety
  import opened ChunkedUpload
  import opened UploadRecovery
  import opened UploadRuns
  import TransferDownload

  // --- Who can touch an upload -----------------------------------------------------

  /** The request is not through with the Transfer: it has not been answered, or it was refused at a
      removal and others are in flight. */
  ghost predicate Working(r: Request, id: Id) {
    match r
    case Accepted(_, _, _, _) => false
    case Rejected(_) => false
    case Clearing(s, pending, ok) => s.Tid() == id && (ok || pending != {})
    case _ => r.session.Tid() == id
  }

  /** The step runs a request that works on the Transfer, or the sweep that is reaping it. */
  ghost predicate Touches(w: World, step: Step, id: Id) {
    || (step.Advance? && step.q in w.requests && Working(w.requests[step.q], id))
    || (step.SweepOn? && step.p in w.sweeps && w.sweeps[step.p].Reaping?
        && w.sweeps[step.p].queue != [] && w.sweeps[step.p].queue[0].Tid() == id)
  }

  ghost predicate SameChunks(objects: Objects, objects': Objects, id: Id) {
    forall k: ObjectKey :: k.ChunkObject? && k.transfer == id ==> SameAt(objects, objects', k)
  }

  /** The Transfer's session and chunks are as before. */
  ghost predicate Spares(sh: Shared, sh': Shared, id: Id) {
    SameAt(sh.sessions, sh'.sessions, id) && SameChunks(sh.objects, sh'.objects, id)
  }

  lemma OtherKeysSpare(objects: Objects, id: Id, key: ObjectKey, body: seq<byte>, v: Verdict)
    requires key.FileObject? || key.transfer != id
    ensures SameChunks(objects, objects, id) && SameChunks(objects, objects[key := body], id)
    ensures SameChunks(objects, Put(objects, key, body, v), id) && SameChunks(objects, Remove(objects, key, v), id)
  {
  }

  lemma WritingSpares(sh: Shared, s: Session, index: nat, chunk: seq<byte>, v: Verdict, id: Id)
    ensures Spares(sh, WriteFinal(sh, s, chunk, v).0, id)
    ensures s.Tid() != id ==> Spares(sh, StoreChunk(sh, s, index, chunk, v).0, id)
  {
    OtherKeysSpare(sh.objects, id, FileKey(s), chunk, v);
    if s.Tid() != id { OtherKeysSpare(sh.objects, id, ChunkKey(s, index), chunk, v); }
    hide SameChunks, Put, Validated;
  }

  lemma MarkingSpares(sh: Shared, s: Session, index: nat, id: Id)
    requires s.Tid() != id
    ensures Spares(sh, MarkChunk(sh, s, index).0, id)
  {
    OtherKeysSpare(sh.objects, id, FileKey(s), [], Done);
    hide SameChunks;
  }

  lemma RowsSpare(sh: Shared, s: Session, index: nat, chunk: seq<byte>, v: Verdict, id: Id)
    ensures Spares(sh, CreateTransferRow(sh, s, index, chunk, v).0, id)
    ensures Spares(sh, CreatePayloadRow(sh, s, index, chunk, v).0, id)
  {
    OtherKeysSpare(sh.objects, id, FileKey(s), [], Done);
    hide SameChunks;
  }

  lemma OtherRequestSpares(sh: Shared, r: Request, c: Choice, id: Id)
    requires !Working(r, id)
    ensures Spares(sh, RequestStep(sh, r, c).0, id)
  {
    OtherKeysSpare(sh.objects, id, FileObject(id, id), [], Done);
    hide SameChunks, Put, Remove, StoreChunk, WriteFinal, MarkChunk, ReadChunk, CreateTransferRow, CreatePayloadRow;
    if c.Proceed? {
      match r
      case CreatingTransfer(s, index, chunk) => RowsSpare(sh, s, index, chunk, c.verdict, id);
      case CreatingPayload(s, index, chunk) => RowsSpare(sh, s, index, chunk, c.verdict, id);
      case Validating(s, index, chunk) => WritingSpares(sh, s, index, chunk, c.verdict, id);
      case Marking(s, index) => MarkingSpares(sh, s, index, id);
      case Assembling(s, next, bytes) => WritingSpares(sh, s, next, bytes, c.verdict, id);
      case _ =>
    } else if c.Drop? && r.Clearing? && r.session.Tid() != id {
      OtherKeysSpare(sh.objects, id, ChunkKey(r.session, c.index), [], c.verdict);
    }
  }

  lemma OtherReapSpares(sh: Shared, queue: seq<Session>, todo: set<nat>, stage: Stage, i: nat, v: Verdict, id: Id)
    requires queue != [] && queue[0].Tid() != id
    ensures Spares(sh, ReapOn(sh, queue, todo, stage, v).0, id)
    ensures Spares(sh, ReapChunk(sh, queue, todo, i, v).0, id)
  {
    OtherKeysSpare(sh.objects, id, FileKey(queue[0]), [], v);
    OtherKeysSpare(sh.objects, id, ChunkKey(queue[0], i), [], v);
    hide SameChunks, Remove, ReapNext;
  }

  lemma OtherSweepSpares(sh: Shared, p: Sweep, c: Choice, id: Id)
    requires !(p.Reaping? && p.queue != [] && p.queue[0].Tid() == id)
    ensures Spares(sh, SweepStep(sh, p, c).0, id)
  {
    if p.Reaping? && p.queue != [] {
      if c.Proceed? { OtherReapSpares(sh, p.queue, p.todo, p.stage, 0, c.verdict, id); }
      if c.Drop? { OtherReapSpares(sh, p.queue, p.todo, p.stage, c.index, c.verdict, id); }
    }
    OtherKeysSpare(sh.objects, id, FileObject(id, id), [], Done);
    hide SameChunks, ReapOn, ReapChunk, BeginReaping;
  }

  lemma PurgeSpares(cfg: Config, sh: Shared, p: Purge, c: Choice, id: Id)
    requires PurgeOk(cfg, sh, p)
    ensures Spares(sh, PurgeStep(sh, p, c).0, id)
  {
    OtherKeysSpare(sh.objects, id, if c.Erase? && c.key.FileObject? then c.key else FileObject(id, id), [],
                   if c.Erase? then c.verdict else Done);
    hide SameChunks, Remove;
  }

  lemma OpeningSpares(max: int, sh: Shared, input: SessionInput, index: nat, chunk: seq<byte>, id: Id)
    requires input.transferId != id
    ensures Spares(sh, OpenRequest(max, sh, input, index, chunk).0, id)
  {
    OtherKeysSpare(sh.objects, id, FileObject(id, id), [], Done);
    hide SameChunks, HeldBy;
  }

  /** Only a request at work on an admitted upload, or the sweep that reaps it, changes its session or
      its chunks. */
  lemma OnlyItsOwnProcessesTouchAnUpload(cfg: Config, w: World, step: Step, id: Id)
    requires ProcessesOk(cfg, w.shared, w) && id in w.shared.admitted && !Touches(w, step, id)
    ensures Spares(w.shared, Apply(cfg, w, step).shared, id)
  {
    hide RequestStep, SweepStep, PurgeStep, OpenRequest, ReaderStep, ResumeRequest, RequestOk, ReaderOk, SweepOk, Honest, Working;
    match step
    case OpenUpload(q, input, index, chunk) =>
      if input.transferId != id { OpeningSpares(cfg.maxFileSizeBytes, w.shared, input, index, chunk, id); }
    case Advance(q, c) =>
      if q in w.requests { OtherRequestSpares(w.shared, w.requests[q], c, id); }
    case SweepOn(p, c) =>
      if p in w.sweeps { OtherSweepSpares(w.shared, w.sweeps[p], c, id); }
    case PurgeOn(p, c) =>
      if p in w.purges {
        hide PurgeOk;
        PurgeSpares(cfg, w.shared, w.purges[p], c, id);
      }
    case _ =>
  }

  // --- A re-send among other processes -----------------------------------------------

  /** The upload is fully received and misses the given chunks. */
  ghost predicate StandsAt(sh: Shared, id: Id, file: seq<byte>, missing: set<nat>) {
    Recoverable(sh, id, file) && MissingFrom(sh.objects, sh.sessions[id], file) == missing
  }

  /** Where a re-send of chunk j stands that found the given chunks missing. */
  ghost predicate Resending(sh: Shared, r: Request, id: Id, file: seq<byte>, j: nat, missing: set<nat>) {
    match r
    case Validating(s, index, chunk) =>
      StandsAt(sh, id, file, missing) && s == sh.sessions[id] && index == j && chunk == Slice(file, j)
    case Marking(s, index) =>
      StandsAt(sh, id, file, missing - {j}) && s == sh.sessions[id] && index == j
    case Assembling(s, next, bytes) =>
      && StandsAt(sh, id, file, missing - {j}) && s == sh.sessions[id]
      && next <= Count(file) && forall i :: i in missing - {j} ==> next <= i
    case Clearing(s, pending, ok) =>
      ok && missing <= {j} && s.Tid() == id && s.Total() == Count(file) && |s.receivedChunks| == Count(file)
    case Accepted(_, _, _, _) => r == Accepted(id, Count(file), Count(file), true) && missing <= {j}
    case Rejected(why) => why == Broke && !(missing <= {j}) && StandsAt(sh, id, file, missing - {j})
    case _ => false
  }

  lemma SparedStands(sh: Shared, sh': Shared, id: Id, file: seq<byte>, missing: set<nat>)
    requires StandsAt(sh, id, file, missing) && Spares(sh, sh', id)
    ensures StandsAt(sh', id, file, missing)
  {
    hide Slice, Count;
    var s := sh.sessions[id];
    forall i: nat ensures ChunkKey(s, i) in sh'.objects <==> ChunkKey(s, i) in sh.objects {
      assert SameAt(sh.objects, sh'.objects, ChunkKey(s, i));
    }
    forall i: nat | i < Count(file) && ChunkKey(s, i) in sh'.objects ensures ChunkStored(sh', s, file, i) {
      assert SameAt(sh.objects, sh'.objects, ChunkKey(s, i)) && ChunkStored(sh, s, file, i);
    }
  }

  lemma SparedResending(sh: Shared, sh': Shared, r: Request, id: Id, file: seq<byte>, j: nat, missing: set<nat>)
    requires Resending(sh, r, id, file, j, missing) && Spares(sh, sh', id)
    ensures Resending(sh', r, id, file, j, missing)
  {
    if StandsAt(sh, id, file, missing) { SparedStands(sh, sh', id, file, missing); }
    if StandsAt(sh, id, file, missing - {j}) { SparedStands(sh, sh', id, file, missing - {j}); }
    assert StandsAt(sh, id, file, missing) || StandsAt(sh, id, file, missing - {j}) ==> id in sh.sessions;
    hide StandsAt;
  }

  lemma ResentIsStored(sh: Shared, id: Id, file: seq<byte>, j: nat, missing: set<nat>)
    requires StandsAt(sh, id, file, missing) && j < Count(file)
    ensures var s := sh.sessions[id];
            && Validated(s, j, Slice(file, j)).None?
            && StandsAt(sh.(objects := sh.objects[ChunkKey(s, j) := Slice(file, j)]), id, file, missing - {j})
  {
    var s := sh.sessions[id];
    ValidChunkIffTrueShape(file, s.Total(), j, |Slice(file, j)|);
    hide Slice, Count;
    var now := sh.(objects := sh.objects[ChunkKey(s, j) := Slice(file, j)]);
    forall i: nat | i < Count(file) && ChunkKey(s, i) in now.objects ensures ChunkStored(now, s, file, i) {
      assert i == j || ChunkStored(sh, s, file, i);
    }
  }

  lemma ChunkIsStoredAgain(sh: Shared, s: Session, id: Id, file: seq<byte>, j: nat, missing: set<nat>)
    requires Resending(sh, Validating(s, j, Slice(file, j)), id, file, j, missing) && j < Count(file)
    ensures var (sh', r) := StoreChunk(sh, s, j, Slice(file, j), Done);
            Resending(sh', r, id, file, j, missing)
  {
    ResentIsStored(sh, id, file, j, missing);
    hide StandsAt, Slice, Count;
  }

  lemma MarkingAgainChangesNothing(sh: Shared, id: Id, file: seq<byte>, j: nat)
    requires AllReceived(sh, id, file) && j < Count(file)
    ensures MarkChunk(sh, sh.sessions[id], j) == (sh, Assembling(sh.sessions[id], 0, []))
  {
    var s := sh.sessions[id];
    assert s.receivedChunks + {j} == s.receivedChunks;
    assert sh.sessions[id := s] == sh.sessions;
  }

  lemma ChunkIsMarkedAgain(sh: Shared, s: Session, id: Id, file: seq<byte>, j: nat, missing: set<nat>)
    requires Resending(sh, Marking(s, j), id, file, j, missing) && j < Count(file)
    ensures MarkChunk(sh, s, j).0 == sh && Resending(sh, MarkChunk(sh, s, j).1, id, file, j, missing)
  {
    MarkingAgainChangesNothing(sh, id, file, j);
    hide MarkChunk, TrueChunks, MissingFrom;
  }

  lemma FullAndMissing(sh: Shared, id: Id, file: seq<byte>, missing: set<nat>)
    requires StandsAt(sh, id, file, missing)
    ensures id in sh.sessions
    ensures var s := sh.sessions[id];
            && s.Tid() == id && s.Total() == Count(file) && |s.receivedChunks| == Count(file)
            && (forall i: nat :: i in missing <==> i < Count(file) && ChunkKey(s, i) !in sh.objects)
  {
    hide Count, TrueChunks;
  }

  lemma NextRead(sh: Shared, s: Session, next: nat, bytes: seq<byte>, id: Id, file: seq<byte>, j: nat, missing: set<nat>)
    requires Resending(sh, Assembling(s, next, bytes), id, file, j, missing) && next < Size(s)
    ensures Resending(sh, ReadChunk(sh, s, next, bytes, Done), id, file, j, missing)
  {
    FullAndMissing(sh, id, file, missing - {j});
    hide StandsAt, Count;
    assert next in missing - {j} <==> ChunkKey(s, next) !in sh.objects;
  }

  lemma NothingBetween(rest: set<nat>, next: nat, n: nat)
    requires n <= next && forall i :: i in rest ==> next <= i < n
    ensures rest == {}
  {
  }

  lemma WrittenAndClearing(sh: Shared, s: Session, bytes: seq<byte>)
    ensures WriteFinal(sh, s, bytes, Done).1 == Clearing(s, UpTo(Size(s)), true)
  {
  }

  lemma EverythingRead(sh: Shared, s: Session, next: nat, bytes: seq<byte>, id: Id, file: seq<byte>, j: nat, missing: set<nat>)
    requires Resending(sh, Assembling(s, next, bytes), id, file, j, missing) && next >= Size(s)
    ensures Resending(WriteFinal(sh, s, bytes, Done).0, WriteFinal(sh, s, bytes, Done).1, id, file, j, missing)
  {
    hide StandsAt, Count, UpTo, WriteFinal;
    FullAndMissing(sh, id, file, missing - {j});
    NothingBetween(missing - {j}, next, Size(s));
    WrittenAndClearing(sh, s, bytes);
  }

  /** One served step of the re-send. */
  lemma ResendGoesOn(sh: Shared, r: Request, c: Choice, id: Id, file: seq<byte>, j: nat, missing: set<nat>)
    requires Resending(sh, r, id, file, j, missing) && j < Count(file)
    requires c.Proceed? || c.Drop? ==> c.verdict == Done
    ensures Resending(RequestStep(sh, r, c).0, RequestStep(sh, r, c).1, id, file, j, missing)
  {
    hide StandsAt, Slice, Count, StoreChunk, MarkChunk, ReadChunk, WriteFinal;
    match r
    case Validating(s, index, chunk) => ChunkIsStoredAgain(sh, s, id, file, j, missing);
    case Marking(s, index) => ChunkIsMarkedAgain(sh, s, id, file, j, missing);
    case Assembling(s, next, bytes) =>
      if next < Size(s) { NextRead(sh, s, next, bytes, id, file, j, missing); }
      else { EverythingRead(sh, s, next, bytes, id, file, j, missing); }
      hide Resending;
    case _ =>
  }

  /** Every call of request q is answered, and no other request works on the Transfer and no sweep
      reaps it in the meantime. */
  ghost predicate Undisturbed(cfg: Config, w: World, picks: seq<Step>, q: nat, id: Id) {
    picks == [] ||
    (&& Undisturbed(cfg, w, picks[..|picks| - 1], q, id)
     && var before, last := RunFrom(cfg, w, picks[..|picks| - 1]), picks[|picks| - 1];
        if last.Advance? && last.q == q then last.choice.Proceed? || last.choice.Drop? ==> last.choice.verdict == Done
        else !Touches(before, last, id))
  }

  lemma StepOfOthers(cfg: Config, w: World, step: Step, q: nat)
    requires q in w.requests && !(step.Advance? && step.q == q)
    ensures q in Apply(cfg, w, step).requests && Apply(cfg, w, step).requests[q] == w.requests[q]
  {
    hide RequestStep, SweepStep, PurgeStep, OpenRequest, ReaderStep, ResumeRequest, Honest, MayOpen;
  }

  lemma {:induction false} ResendIsKept(cfg: Config, w: World, picks: seq<Step>, q: nat, id: Id, file: seq<byte>, j: nat, missing: set<nat>)
    requires Inv(cfg, w) && id in w.shared.admitted && q in w.requests && j < Count(file)
    requires Resending(w.shared, w.requests[q], id, file, j, missing) && Undisturbed(cfg, w, picks, q, id)
    ensures var after := RunFrom(cfg, w, picks);
            q in after.requests && Resending(after.shared, after.requests[q], id, file, j, missing)
  {
    hide Apply, Resending, Touches, Inv;
    if picks != [] {
      var before, last := RunFrom(cfg, w, picks[..|picks| - 1]), picks[|picks| - 1];
      ResendIsKept(cfg, w, picks[..|picks| - 1], q, id, file, j, missing);
      StandsReady(cfg, w, picks[..|picks| - 1], id);
      NextOfRun(cfg, before, last, q, id, file, j, missing);
    }
  }

  lemma StandsReady(cfg: Config, w: World, picks: seq<Step>, id: Id)
    requires Inv(cfg, w) && id in w.shared.admitted
    ensures var now := RunFrom(cfg, w, picks); ProcessesOk(cfg, now.shared, now) && id in now.shared.admitted
  {
    InvIsKept(cfg, w, picks);
    hide ProcessesOk, SharedOk, OneSweep;
  }

  lemma NextOfRun(cfg: Config, w: World, step: Step, q: nat, id: Id, file: seq<byte>, j: nat, missing: set<nat>)
    requires ProcessesOk(cfg, w.shared, w) && id in w.shared.admitted && q in w.requests && j < Count(file)
    requires Resending(w.shared, w.requests[q], id, file, j, missing)
    requires if step.Advance? && step.q == q then step.choice.Proceed? || step.choice.Drop? ==> step.choice.verdict == Done
             else !Touches(w, step, id)
    ensures var after := Apply(cfg, w, step);
            q in after.requests && Resending(after.shared, after.requests[q], id, file, j, missing)
  {
    hide Resending, ProcessesOk, Touches;
    if step.Advance? && step.q == q {
      ResendGoesOn(w.shared, w.requests[q], step.choice, id, file, j, missing);
    } else {
      OnlyItsOwnProcessesTouchAnUpload(cfg, w, step, id);
      StepOfOthers(cfg, w, step, q);
      hide Apply;
      SparedResending(w.shared, Apply(cfg, w, step).shared, w.requests[q], id, file, j, missing);
    }
  }

  lemma ResumedResending(cfg: Config, w: World, q: nat, id: Id, file: seq<byte>, j: nat)
    requires SessionsOk(cfg, w.shared) && q !in w.requests && id in cfg.files && cfg.files[id] == file
    requires Recoverable(w.shared, id, file)
    ensures var missing := MissingFrom(w.shared.objects, w.shared.sessions[id], file);
            var begun := Apply(cfg, w, ResumeUpload(q, w.shared.sessions[id].Room(), id, j, Slice(file, j)));
            && id in begun.shared.admitted && q in begun.requests
            && Resending(begun.shared, begun.requests[q], id, file, j, missing)
  {
    assert SessionOk(cfg, w.shared, id);
    hide Slice, MissingFrom, TrueChunks, Safe;
  }

  lemma ResendBegins(cfg: Config, w: World, q: nat, id: Id, file: seq<byte>, j: nat)
    requires Inv(cfg, w) && q !in w.requests && id in cfg.files && cfg.files[id] == file && Recoverable(w.shared, id, file)
    ensures var missing := MissingFrom(w.shared.objects, w.shared.sessions[id], file);
            var begun := Apply(cfg, w, ResumeUpload(q, w.shared.sessions[id].Room(), id, j, Slice(file, j)));
            && Inv(cfg, begun) && id in begun.shared.admitted && q in begun.requests
            && Resending(begun.shared, begun.requests[q], id, file, j, missing)
  {
    ResumedResending(cfg, w, q, id, file, j);
    hide Slice, Resending, ProcessesOk, OneSweep, MissingFrom, TrueChunks, Guarantee, SessionsOk, Apply;
    var step := ResumeUpload(q, w.shared.sessions[id].Room(), id, j, Slice(file, j));
    StepIsSafe(cfg, w, step, Apply(cfg, w, step));
    OneSweepIsKept(cfg, w, step);
  }

  lemma ResendIsAnswered(sh: Shared, r: Request, id: Id, file: seq<byte>, j: nat, missing: set<nat>)
    requires Resending(sh, r, id, file, j, missing) && AnswerOf(r).Some?
    ensures if missing <= {j} then AnswerOf(r) == Some(Accepted(id, Count(file), Count(file), true))
            else AnswerOf(r) == Some(Rejected(Broke)) && StandsAt(sh, id, file, missing - {j})
  {
    hide StandsAt, Count;
  }

  /** In every run: a re-send of chunk j of a fully received upload, its calls answered, completes the
      upload exactly when no other chunk is missing, whatever else runs, if meanwhile no other request
      works on the upload, no removal of a failed assembly of it is in flight and no sweep reaps it.
      A refused one has put its chunk back. */
  lemma ResendAmongOthers(cfg: Config, picks: seq<Step>, q: nat, id: Id, file: seq<byte>, j: nat, later: seq<Step>)
    requires var w := Run(cfg, picks);
             && q !in w.requests && id in cfg.files && cfg.files[id] == file && j < Count(file)
             && id in w.shared.sessions && Recoverable(w.shared, id, file)
             && Undisturbed(cfg, Apply(cfg, w, ResumeUpload(q, w.shared.sessions[id].Room(), id, j, Slice(file, j))), later, q, id)
    ensures var w := Run(cfg, picks);
            var missing := MissingFrom(w.shared.objects, w.shared.sessions[id], file);
            var after := RunFrom(cfg, Apply(cfg, w, ResumeUpload(q, w.shared.sessions[id].Room(), id, j, Slice(file, j))), later);
            && q in after.requests
            && (AnswerOf(after.requests[q]).Some? ==>
                  if missing <= {j} then AnswerOf(after.requests[q]) == Some(Accepted(id, Count(file), Count(file), true))
                  else AnswerOf(after.requests[q]) == Some(Rejected(Broke)) && StandsAt(after.shared, id, file, missing - {j}))
  {
    hide Slice, Count, Undisturbed, Apply, Inv, MissingFrom, Recoverable, RunFrom, Resending, StandsAt;
    InvHoldsThroughout(cfg, picks);
    var w := Run(cfg, picks);
    var begun := Apply(cfg, w, ResumeUpload(q, w.shared.sessions[id].Room(), id, j, Slice(file, j)));
    var missing := MissingFrom(w.shared.objects, w.shared.sessions[id], file);
    ResendBegins(cfg, w, q, id, file, j);
    ResendIsKept(cfg, begun, later, q, id, file, j, missing);
    var after := RunFrom(cfg, begun, later);
    if AnswerOf(after.requests[q]).Some? {
      ResendIsAnswered(after.shared, after.requests[q], id, file, j, missing);
    }
  }

  /** A removal that took effect before a failed one stalls every follower that reaches its chunk,
      although the final object is stored. */
  lemma FailedRemovalsStallFollowers(sh: Shared, id: Id, file: seq<byte>, j: nat, calls: Calls, next: nat)
    requires CompletesWith(sh, id, file, j) && calls.chunkPut == Done
    requires forall i: nat :: i < Count(file) && i != j ==> ChunkStored(sh, sh.sessions[id], file, i)
    requires !EveryRemovalReported(file, calls) && next in Removed(file, calls) - StillInFlight(file, calls)
    ensures var room := sh.sessions[id].Room();
            var (left, r) := AcceptMore(sh, room, id, j, Slice(file, j), calls);
            && AnswerOf(r) == Some(Rejected(Broke)) && TransferDownload.Stalled(left, id, room, next)
            && FileObject(room, id) in left.objects && left.objects[FileObject(room, id)] == file
  {
    assert ReachesRemovals(file, calls);
    assert WithChunk(sh, id, file, j).sessions[id].input == sh.sessions[id].input;
    hide AcceptMore, Slice, Count, Removed, StillInFlight, ReachesRemovals, EveryRemovalReported;
    hide Settled, TrueChunks, WithChunk, CompletesWith;
    FailedAssemblyIsRecoverable(sh, id, file, j, calls);
    var left := AcceptMore(sh, sh.sessions[id].Room(), id, j, Slice(file, j), calls).0;
    FullAndMissing(left, id, file, Removed(file, calls) - StillInFlight(file, calls));
    assert next in left.sessions[id].receivedChunks;
  }

  // --- A removal in flight -------------------------------------------------------------

  /** A re-send of chunk 1 of two, every call answered, with the removal of chunk 1 that request 1 left
      in flight landing after chunk 0 is read. */
  function Straggling(room: Id, id: Id, file: seq<byte>): seq<Step> {
    [ResumeUpload(2, room, id, 1, Slice(file, 1))]
    + ([Advance(2, Proceed(Done))] + ([Advance(2, Proceed(Done))] + ([Advance(2, Proceed(Done))]
    + ([Advance(1, Drop(1, Done))] + ([Advance(2, Proceed(Done))] + [])))))
  }

  /** Request 1 was refused with the removal of chunk 1 in flight, and no chunk is missing yet. */
  ghost predicate StragglerLeft(w: World, id: Id, file: seq<byte>) {
    && id in w.shared.sessions && StandsAt(w.shared, id, file, {}) && 2 !in w.requests
    && 1 in w.requests && w.requests[1] == Clearing(w.shared.sessions[id], {1}, false)
    && AnswerOf(w.requests[1]) == Some(Rejected(Broke))
  }

  lemma ReSentAndFirstRead(sh: Shared, id: Id, file: seq<byte>)
    requires id in sh.sessions && StandsAt(sh, id, file, {}) && Count(file) == 2
    ensures var s := sh.sessions[id];
            var now := sh.(objects := sh.objects[ChunkKey(s, 1) := Slice(file, 1)]);
            && RequestStep(sh, Validating(s, 1, Slice(file, 1)), Proceed(Done)) == (now, Marking(s, 1))
            && RequestStep(now, Marking(s, 1), Proceed(Done)) == (now, Assembling(s, 0, []))
            && ChunkKey(s, 0) in now.objects && Size(s) == 2
  {
    var s := sh.sessions[id];
    var now := sh.(objects := sh.objects[ChunkKey(s, 1) := Slice(file, 1)]);
    ResentIsStored(sh, id, file, 1, {});
    FullAndMissing(now, id, file, {} - {1});
    hide Slice, Count, TrueChunks, MissingFrom;
    MarkingAgainChangesNothing(now, id, file, 1);
  }

  lemma ReadThenRemoved(sh: Shared, s: Session)
    requires ChunkKey(s, 0) in sh.objects && Size(s) == 2
    ensures var r := RequestStep(sh, Assembling(s, 0, []), Proceed(Done));
            && r.0 == sh && r.1.Assembling?
            && var gone := RequestStep(sh, Clearing(s, {1}, false), Drop(1, Done)).0;
               RequestStep(gone, r.1, Proceed(Done)) == (gone, Rejected(Broke))
  {
  }

  lemma ResumeAt(cfg: Config, w: World, q: nat, id: Id, file: seq<byte>, j: nat)
    requires q !in w.requests && id in cfg.files && cfg.files[id] == file && id in w.shared.sessions
    ensures var s := w.shared.sessions[id];
            (Apply(cfg, w, ResumeUpload(q, s.Room(), id, j, Slice(file, j)))
            == At(w, q, (w.shared, Validating(s, j, Slice(file, j)))))
  {
    hide Slice;
  }

  lemma BackToReading(cfg: Config, w: World, id: Id, file: seq<byte>, rest: seq<Step>)
    requires id in cfg.files && cfg.files[id] == file && Count(file) == 2 && StragglerLeft(w, id, file)
    ensures var s, read := w.shared.sessions[id], Advance(2, Proceed(Done));
            var now := w.shared.(objects := w.shared.objects[ChunkKey(s, 1) := Slice(file, 1)]);
            (RunFrom(cfg, w, [ResumeUpload(2, s.Room(), id, 1, Slice(file, 1))] + ([read] + ([read] + ([read] + rest))))
            == RunFrom(cfg, At(w, 2, RequestStep(now, Assembling(s, 0, []), Proceed(Done))), rest))
  {
    hide RunFrom, RequestStep, Apply, StandsAt, Slice, Count, At;
    var sh := w.shared;
    var s, read := sh.sessions[id], Advance(2, Proceed(Done));
    var now := sh.(objects := sh.objects[ChunkKey(s, 1) := Slice(file, 1)]);
    ReSentAndFirstRead(sh, id, file);
    ResumeAt(cfg, w, 2, id, file, 1);
    OneMore(cfg, w, ResumeUpload(2, s.Room(), id, 1, Slice(file, 1)), [read] + ([read] + ([read] + rest)));
    AdvanceAt(cfg, w, 2, (sh, Validating(s, 1, Slice(file, 1))), Proceed(Done), [read] + ([read] + rest));
    AdvanceAt(cfg, w, 2, (now, Marking(s, 1)), Proceed(Done), [read] + rest);
    AdvanceAt(cfg, w, 2, (now, Assembling(s, 0, [])), Proceed(Done), rest);
  }

  lemma RemovedUnderTheReader(cfg: Config, w: World, reading: (Shared, Request), s: Session)
    requires 1 in w.requests && w.requests[1] == Clearing(s, {1}, false)
    requires RequestStep(RequestStep(reading.0, Clearing(s, {1}, false), Drop(1, Done)).0, reading.1, Proceed(Done)).1 == Rejected(Broke)
    ensures var after := RunFrom(cfg, At(w, 2, reading), [Advance(1, Drop(1, Done))] + ([Advance(2, Proceed(Done))] + []));
            2 in after.requests && after.requests[2] == Rejected(Broke)
  {
    hide RunFrom, RequestStep;
    var drop, read := Advance(1, Drop(1, Done)), Advance(2, Proceed(Done));
    OneMore(cfg, At(w, 2, reading), drop, [read] + []);
    var dropped := Apply(cfg, At(w, 2, reading), drop);
    OneMore(cfg, dropped, read, []);
    NoPicks(cfg, Apply(cfg, dropped, read));
  }

  lemma StragglerLands(cfg: Config, w: World, id: Id, file: seq<byte>)
    requires id in cfg.files && cfg.files[id] == file && Count(file) == 2 && StragglerLeft(w, id, file)
    ensures var after := RunFrom(cfg, w, Straggling(w.shared.sessions[id].Room(), id, file));
            2 in after.requests && after.requests[2] == Rejected(Broke)
  {
    hide RunFrom, RequestStep, StandsAt, Slice, Count, At;
    var s := w.shared.sessions[id];
    var now := w.shared.(objects := w.shared.objects[ChunkKey(s, 1) := Slice(file, 1)]);
    ReSentAndFirstRead(w.shared, id, file);
    ReadThenRemoved(now, s);
    BackToReading(cfg, w, id, file, [Advance(1, Drop(1, Done))] + ([Advance(2, Proceed(Done))] + []));
    RemovedUnderTheReader(cfg, w, RequestStep(now, Assembling(s, 0, []), Proceed(Done)), s);
  }

  const FirstRemovalFails := AllDone.(removes := i => if i == 0 then Refused else Done)

  lemma LandsAscending(calls: Calls, n: nat)
    requires calls.landing(n) == Ascending(n)
    ensures LandingOrder(calls, n) == Ascending(n)
  {
    hide Lists, Ascending;
  }

  lemma FirstOfTwoFails(removes: nat -> Verdict)
    requires removes(0) == Refused
    ensures IndicesOf(AfterFirstFailed(Ascending(2), removes)) == {1}
  {
    hide Lists;
    assert Ascending(1) == [0];
    assert Ascending(2) == [0, 1];
    assert AfterFirstFailed([0, 1], removes) == [1];
  }

  lemma FirstRemovalFailing(calls: Calls, file: seq<byte>)
    requires calls == FirstRemovalFails && Count(file) == 2
    ensures StillInFlight(file, calls) == {1} && Removed(file, calls) == {1} && !EveryRemovalReported(file, calls)
    ensures calls.chunkPut == Done
  {
    hide AfterFirstFailed, LandingOrder, Count, Ascending;
    assert calls.removes(0) == Refused && calls.removes(1) == Done && calls.finalPut == Done;
    LandsAscending(calls, 2);
    FirstOfTwoFails(calls.removes);
    assert ReachesRemovals(file, calls);
    assert !calls.removes(0).Reported();
  }

  lemma OneChunkIn(input: SessionInput, file: seq<byte>)
    requires ClientInput(input, file) && Count(file) == 2
    ensures var sh, id := Uploaded(Empty, input, file, 1), input.transferId;
            && CompletesWith(sh, id, file, 1)
            && (forall i: nat :: i < Count(file) && i != 1 ==> ChunkStored(sh, sh.sessions[id], file, i))
            && WithChunk(sh, id, file, 1).sessions[id].Room() == input.roomId && sh.sessions[id].Room() == input.roomId
  {
    assert UpTo(1) == {0} && UpTo(2) == {0, 1};
    hide Slice;
  }

  /** How the second request ends: refused with one removal in flight, nothing missing. */
  ghost predicate RefusedMidway(out: (Shared, Request), room: Id, id: Id, file: seq<byte>) {
    && id in out.0.sessions && out.0.sessions[id].Room() == room && StandsAt(out.0, id, file, {})
    && out.1 == Clearing(out.0.sessions[id], {1}, false)
  }

  lemma SecondChunkIsRefused(input: SessionInput, file: seq<byte>, calls: Calls)
    requires ClientInput(input, file) && Count(file) == 2
    requires calls == FirstRemovalFails
    ensures var sh := Uploaded(Empty, input, file, 1);
            RefusedMidway(AcceptMore(sh, input.roomId, input.transferId, 1, Slice(file, 1), calls), input.roomId, input.transferId, file)
  {
    hide AcceptMore, Slice, Uploaded, WithChunk, Count, ChunkStored, TrueChunks, MissingFrom, StillInFlight, Removed;
    hide ReachesRemovals, EveryRemovalReported, Settled, CompletesWith, ClientInput, AllReceived;
    OneChunkIn(input, file);
    FirstRemovalFailing(calls, file);
    FailedAssemblyIsRecoverable(Uploaded(Empty, input, file, 1), input.transferId, file, 1, calls);
  }

  lemma RefusedLeavesStraggler(w: World, out: (Shared, Request), room: Id, id: Id, file: seq<byte>)
    requires RefusedMidway(out, room, id, file) && 2 !in w.requests
    ensures StragglerLeft(At(w, 1, out), id, file)
  {
    hide StandsAt;
  }

  lemma TwoChunksRefused(cfg: Config, input: SessionInput, file: seq<byte>) returns (picks: seq<Step>)
    requires input.transferId in cfg.files && file == cfg.files[input.transferId] && ClientInput(input, file)
    requires Count(file) == 2 && input.fileSizeBytes <= cfg.maxFileSizeBytes
    ensures var w := Run(cfg, picks);
            StragglerLeft(w, input.transferId, file) && w.shared.sessions[input.transferId].Room() == input.roomId
  {
    hide RunFrom, Slice, Count, AcceptMore, Uploaded, StandsAt, StragglerLeft;
    var calls := FirstRemovalFails;
    var first := FirstChunkAlone(cfg, input, file);
    var w := Run(cfg, first);
    SecondChunkIsRefused(input, file, calls);
    var second := AcceptMoreIsARun(cfg, w, 1, input.roomId, input.transferId, 1, Slice(file, 1), calls);
    picks := first + second;
    RunsCompose(cfg, Init, first, second);
    RefusedLeavesStraggler(w, AcceptMore(w.shared, input.roomId, input.transferId, 1, Slice(file, 1), calls),
                           input.roomId, input.transferId, file);
  }

  lemma NothingYet(cfg: Config, input: SessionInput, file: seq<byte>)
    requires input.transferId in cfg.files && file == cfg.files[input.transferId] && ClientInput(input, file)
    ensures MayOpen(cfg, Empty, input) && Honest(cfg, input.transferId, 0, Slice(file, 0))
  {
    hide Slice, Count;
  }

  lemma FirstChunkIsAccepted(max: int, input: SessionInput, file: seq<byte>)
    requires ClientInput(input, file) && Count(file) == 2 && input.fileSizeBytes <= max
    ensures AcceptNew(max, Empty, input, 0, Slice(file, 0), AllDone)
         == (Uploaded(Empty, input, file, 1), Accepted(input.transferId, 1, 2, false))
  {
    assert HeldBy(Empty.sessions, input.roomId) == {};
    hide Slice, Count, AcceptNew, Uploaded;
    EverySliceIsAccepted(max, Empty, Empty, input, file, 0);
  }

  lemma FirstChunkAlone(cfg: Config, input: SessionInput, file: seq<byte>) returns (picks: seq<Step>)
    requires input.transferId in cfg.files && file == cfg.files[input.transferId] && ClientInput(input, file)
    requires Count(file) == 2 && input.fileSizeBytes <= cfg.maxFileSizeBytes
    ensures var w := Run(cfg, picks);
            w.requests.Keys == {0} && w.shared == Uploaded(Empty, input, file, 1)
  {
    hide RunFrom, Slice, Count, AcceptNew, Uploaded, MayOpen, Honest, ClientInput;
    NothingYet(cfg, input, file);
    FirstChunkIsAccepted(cfg.maxFileSizeBytes, input, file);
    picks := AcceptNewIsARun(cfg, Init, 0, input, 0, Slice(file, 0), AllDone);
  }

  /** Why no removal may be in flight: the upload of any two-chunk file, the first of its removals
      refused, is answered while the second is in flight. Nothing is missing then, and the re-send of
      chunk 1, every one of its calls answered, is refused all the same. */
  lemma StragglerDefeatsResend(cfg: Config, input: SessionInput) returns (picks: seq<Step>)
    requires input.transferId in cfg.files && ClientInput(input, cfg.files[input.transferId])
    requires Count(cfg.files[input.transferId]) == 2 && input.fileSizeBytes <= cfg.maxFileSizeBytes
    ensures var id, file := input.transferId, cfg.files[input.transferId];
            && StragglerLeft(Run(cfg, picks), id, file)
            && var after := Run(cfg, picks + Straggling(input.roomId, id, file));
               2 in after.requests && after.requests[2] == Rejected(Broke)
  {
    hide RunFrom, Slice, Count, AcceptMore, StandsAt;
    var id, file := input.transferId, cfg.files[input.transferId];
    picks := TwoChunksRefused(cfg, input, file);
    RunsCompose(cfg, Init, picks, Straggling(input.roomId, id, file));
    StragglerLands(cfg, Run(cfg, picks), id, file);
  }
}
