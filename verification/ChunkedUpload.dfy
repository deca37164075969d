/** One chunk request of apps/api/src/transfer/chunked-upload.service.ts from start to
    answer with nothing else running, what it does to the stores, and the client loop of
    apps/web/src/features/room/services/chunk-upload.service.ts on top of it. */
module ChunkedUpload {
  import opened Common
  import opened Chunking
  import opened ObjectStorage
  import opened UploadSessions
  import opened Pipeline

  /** What each storage or database call of one request does, and the order in which n parallel
      removals land. */
  datatype Calls = Calls(
    transferRow: Verdict, payloadRow: Verdict, chunkPut: Verdict,
    chunkReads: nat -> Verdict, finalPut: Verdict, removes: nat -> Verdict, landing: nat -> seq<nat>)

  const AllDone := Calls(Done, Done, Done, _ => Done, Done, _ => Done, Ascending)

  function Ascending(n: nat): (order: seq<nat>)
    ensures Lists(order, UpTo(n))
  {
    if n == 0 then [] else Ascending(n - 1) + [n - 1]
  }

  /** An order that is not one of the n removals counts as ascending. */
  function LandingOrder(calls: Calls, n: nat): (order: seq<nat>)
    ensures Lists(order, UpTo(n))
  {
    var order := calls.landing(n);
    if Lists(order, UpTo(n)) then order else Ascending(n)
  }

  function IndicesOf(order: seq<nat>): set<nat> {
    set i | i in order
  }

  /** The parallel removals, landing in the given order, up to the answer: the first that fails
      answers the request while the rest are in flight. */
  function ClearFrom(sh: Shared, s: Session, order: seq<nat>, calls: Calls): (Shared, Request)
    decreases order
  {
    if order == [] then CompleteUpload(sh, s)
    else
      var verdict := calls.removes(order[0]);
      var sh' := sh.(objects := Remove(sh.objects, ChunkKey(s, order[0]), verdict));
      if verdict.Reported() then ClearFrom(sh', s, order[1..], calls)
      else (sh', Clearing(s, IndicesOf(order[1..]), false))
  }

  function AssembleFrom(sh: Shared, s: Session, next: nat, bytes: seq<byte>, calls: Calls): (Shared, Request)
    decreases Size(s) - next
  {
    if next < Size(s) then
      var r := ReadChunk(sh, s, next, bytes, calls.chunkReads(next));
      if r.Assembling? then AssembleFrom(sh, s, next + 1, r.bytes, calls) else (sh, r)
    else
      var (sh', r) := WriteFinal(sh, s, bytes, calls.finalPut);
      if r.Clearing? then ClearFrom(sh', s, LandingOrder(calls, Size(s)), calls) else (sh', r)
  }

  /** What a request whose chunk set is complete can do: complete, or be refused with only objects
      touched. */
  ghost predicate CompletesOrRefused(sh: Shared, s: Session, out: (Shared, Request)) {
    var touched := sh.(objects := out.0.objects, assembled := out.0.assembled);
    if out.1.Accepted? then out == (touched.Complete(s.Tid()), Accepted(s.Tid(), |s.receivedChunks|, s.Total(), true))
    else out.0 == touched && AnswerOf(out.1) == Some(Rejected(Broke))
  }

  lemma {:induction false} ClearingTouchesObjectsAndSlot(sh: Shared, s: Session, order: seq<nat>, calls: Calls)
    ensures CompletesOrRefused(sh, s, ClearFrom(sh, s, order, calls))
    ensures ClearFrom(sh, s, order, calls).0.assembled == sh.assembled
    decreases order
  {
    if order != [] {
      var landed := Remove(sh.objects, ChunkKey(s, order[0]), calls.removes(order[0]));
      ClearingTouchesObjectsAndSlot(sh.(objects := landed), s, order[1..], calls);
    }
  }

  lemma ClearingAfterTheWrite(sh: Shared, s: Session, bytes: seq<byte>, calls: Calls)
    requires calls.finalPut.Reported()
    ensures CompletesOrRefused(sh, s, ClearFrom(WriteFinal(sh, s, bytes, calls.finalPut).0, s, LandingOrder(calls, Size(s)), calls))
  {
    hide ClearFrom, LandingOrder;
    ClearingTouchesObjectsAndSlot(WriteFinal(sh, s, bytes, calls.finalPut).0, s, LandingOrder(calls, Size(s)), calls);
  }

  lemma {:induction false} AssemblyTouchesObjectsAndSlot(sh: Shared, s: Session, next: nat, bytes: seq<byte>, calls: Calls)
    ensures CompletesOrRefused(sh, s, AssembleFrom(sh, s, next, bytes, calls))
    decreases Size(s) - next
  {
    hide ClearFrom, LandingOrder;
    if next < Size(s) {
      var r := ReadChunk(sh, s, next, bytes, calls.chunkReads(next));
      if r.Assembling? {
        AssemblyTouchesObjectsAndSlot(sh, s, next + 1, r.bytes, calls);
      }
    } else if calls.finalPut.Reported() {
      ClearingAfterTheWrite(sh, s, bytes, calls);
      hide CompletesOrRefused;
    }
  }

  function StoreAndMark(sh: Shared, s: Session, index: nat, chunk: seq<byte>, calls: Calls): (Shared, Request) {
    var (stored, r1) := StoreChunk(sh, s, index, chunk, calls.chunkPut);
    if !r1.Marking? then (stored, r1)
    else
      var (marked, r2) := MarkChunk(stored, s, index);
      if r2.Assembling? then AssembleFrom(marked, r2.session, 0, [], calls) else (marked, r2)
  }

  /** The rows of a new upload, written once its slot is granted; a failure gives it back. */
  function WriteRows(sh: Shared, s: Session, index: nat, chunk: seq<byte>, calls: Calls): (Shared, Request) {
    var (created, r1) := CreateTransferRow(sh, s, index, chunk, calls.transferRow);
    if r1.RollingBack? then (created.RollBack(s.Tid()), Rejected(Broke))
    else
      var (described, r2) := CreatePayloadRow(created, s, index, chunk, calls.payloadRow);
      if r2.RollingBack? then (described.RollBack(s.Tid()), Rejected(Broke))
      else StoreAndMark(described, s, index, chunk, calls)
  }

  /** `acceptChunk` without a transferId: open a session first. */
  function AcceptNew(maxFileSizeBytes: int, sh: Shared, input: SessionInput, index: nat, chunk: seq<byte>, calls: Calls)
    : (Shared, Request)
  {
    var (reserved, r) := OpenRequest(maxFileSizeBytes, sh, input, index, chunk);
    if r.CreatingTransfer? then WriteRows(reserved, r.session, index, chunk, calls) else (reserved, r)
  }

  /** `acceptChunk` with a transferId. */
  function AcceptMore(sh: Shared, room: Id, id: Id, index: nat, chunk: seq<byte>, calls: Calls): (Shared, Request) {
    var r := ResumeRequest(sh, room, id, index, chunk);
    if r.Validating? then StoreAndMark(sh, r.session, index, chunk, calls) else (sh, r)
  }

  // --- Assembly ------------------------------------------------------------------

  ghost predicate ChunkStored(sh: Shared, s: Session, file: seq<byte>, i: nat) {
    ChunkKey(s, i) in sh.objects && sh.objects[ChunkKey(s, i)] == Slice(file, i)
  }

  function WithoutChunks(objects: Objects, s: Session): Objects {
    map k | k in objects && !(k.ChunkObject? && k.room == s.Room() && k.transfer == s.Tid() && k.index < Size(s))
          :: objects[k]
  }

  /** The state a completed upload leaves. */
  function Completed(sh: Shared, s: Session, file: seq<byte>): Shared {
    sh.(objects := WithoutChunks(sh.objects, s)[FileKey(s) := file], assembled := sh.assembled + {s.Tid()})
      .Complete(s.Tid())
  }

  lemma {:induction false} ClearingRemovesEveryChunk(sh: Shared, s: Session, order: seq<nat>)
    requires forall i: nat :: i < Size(s) && i !in order ==> ChunkKey(s, i) !in sh.objects
    requires forall i :: i in order ==> i < Size(s)
    ensures ClearFrom(sh, s, order, AllDone)
         == CompleteUpload(sh.(objects := WithoutChunks(sh.objects, s)), s)
    decreases order
  {
    if order == [] {
      forall k | k in sh.objects ensures k in WithoutChunks(sh.objects, s) {
        if k.ChunkObject? && k.index < Size(s) { assert ChunkKey(s, k.index) !in sh.objects; }
      }
      assert WithoutChunks(sh.objects, s) == sh.objects;
    } else {
      var next := sh.(objects := sh.objects - {ChunkKey(s, order[0])});
      assert order == [order[0]] + order[1..];
      assert order[0] in order;
      assert forall i :: i in order[1..] ==> i in order;
      ClearingRemovesEveryChunk(next, s, order[1..]);
      assert WithoutChunks(next.objects, s) == WithoutChunks(sh.objects, s);
    }
  }

  /** With every chunk stored, assembly hands exactly the file to the final write. */
  lemma {:induction false} AssemblyReadsTheFile(sh: Shared, s: Session, file: seq<byte>, next: nat, calls: Calls)
    requires s.Total() == Count(file) && next <= Count(file)
    requires forall i: nat :: next <= i < Count(file) ==> ChunkStored(sh, s, file, i) && calls.chunkReads(i).Reported()
    ensures AssembleFrom(sh, s, next, Prefix(file, next), calls)
         == AssembleFrom(sh, s, Count(file), file, calls)
    decreases Count(file) - next
  {
    if next < Count(file) {
      assert ChunkStored(sh, s, file, next);
      PrefixGrowsBySlice(file, next);
      AssemblyReadsTheFile(sh, s, file, next + 1, calls);
    } else {
      PrefixOfAllChunksIsFile(file, next);
    }
  }

  /** With a chunk missing, assembly fails and changes nothing. */
  lemma {:induction false} AssemblyNeedsEveryChunk(sh: Shared, s: Session, next: nat, bytes: seq<byte>, missing: nat, calls: Calls)
    requires next <= missing < Size(s) && ChunkKey(s, missing) !in sh.objects
    ensures AssembleFrom(sh, s, next, bytes, calls) == (sh, Rejected(Broke))
    decreases missing - next
  {
    if next < missing {
      var r := ReadChunk(sh, s, next, bytes, calls.chunkReads(next));
      if r.Assembling? {
        AssemblyNeedsEveryChunk(sh, s, next + 1, r.bytes, missing, calls);
      }
    }
  }

  // --- Re-sending a chunk of a fully received upload ---------------------------------

  /** The Transfer's session counts every chunk of the file as received. */
  ghost predicate AllReceived(sh: Shared, id: Id, file: seq<byte>) {
    && file != [] && id in sh.sessions
    && var s := sh.sessions[id];
       s.Tid() == id && s.input.fileSizeBytes == |file| && s.Total() == Count(file)
       && s.receivedChunks == UpTo(Count(file))
  }

  /** A true slice is always stored and marked; what follows depends on the count. */
  lemma TrueSliceIsMarked(sh: Shared, s: Session, file: seq<byte>, j: nat, calls: Calls)
    requires s.Tid() in sh.sessions && sh.sessions[s.Tid()] == s
    requires file != [] && s.input.fileSizeBytes == |file| && s.Total() == Count(file)
    requires j < Count(file) && calls.chunkPut == Done
    ensures var u := s.(receivedChunks := s.receivedChunks + {j});
            var marked := sh.(objects := sh.objects[ChunkKey(s, j) := Slice(file, j)],
                              sessions := sh.sessions[s.Tid() := u]);
            StoreAndMark(sh, s, j, Slice(file, j), calls) ==
            if |u.receivedChunks| == Count(file) then AssembleFrom(marked, u, 0, [], calls)
            else (marked, Accepted(s.Tid(), |u.receivedChunks|, Count(file), false))
  {
  }

  /** With chunk j, the session counts every chunk of the file as received: j is the last one to
      arrive, or a duplicate after it. */
  ghost predicate CompletesWith(sh: Shared, id: Id, file: seq<byte>, j: nat) {
    && file != [] && id in sh.sessions && j < Count(file)
    && var s := sh.sessions[id];
       s.Tid() == id && s.input.fileSizeBytes == |file| && s.Total() == Count(file)
       && s.receivedChunks + {j} == UpTo(Count(file))
  }

  /** Chunk j stored and marked. */
  function WithChunk(sh: Shared, id: Id, file: seq<byte>, j: nat): Shared
    requires id in sh.sessions
  {
    var s := sh.sessions[id];
    sh.(objects := sh.objects[ChunkKey(s, j) := Slice(file, j)],
        sessions := sh.sessions[id := s.(receivedChunks := s.receivedChunks + {j})])
  }

  lemma LastChunkReachesAssembly(sh: Shared, id: Id, file: seq<byte>, j: nat, calls: Calls)
    requires CompletesWith(sh, id, file, j) && calls.chunkPut == Done
    ensures var now := WithChunk(sh, id, file, j);
            (AcceptMore(sh, sh.sessions[id].Room(), id, j, Slice(file, j), calls)
            == AssembleFrom(now, now.sessions[id], 0, [], calls))
  {
    TrueSliceIsMarked(sh, sh.sessions[id], file, j, calls);
    hide StoreAndMark, AssembleFrom;
  }

  lemma ResendReachesAssembly(sh: Shared, id: Id, file: seq<byte>, j: nat, calls: Calls)
    requires AllReceived(sh, id, file) && j < Count(file) && calls.chunkPut == Done
    ensures var s := sh.sessions[id];
            (AcceptMore(sh, s.Room(), id, j, Slice(file, j), calls)
            == AssembleFrom(sh.(objects := sh.objects[ChunkKey(s, j) := Slice(file, j)]), s, 0, [], calls))
  {
    var s := sh.sessions[id];
    assert s.receivedChunks + {j} == s.receivedChunks;
    LastChunkReachesAssembly(sh, id, file, j, calls);
    hide AcceptMore, AssembleFrom;
    assert s.(receivedChunks := s.receivedChunks + {j}) == s;
    assert sh.sessions[id := s] == sh.sessions;
  }

  /** What a final write that is reported failed leaves: nothing, or the whole file when only its
      answer was lost. */
  function FinalWriteFailed(sh: Shared, id: Id, file: seq<byte>, finalPut: Verdict): Shared
    requires id in sh.sessions
  {
    if finalPut.Refused? then sh
    else sh.(objects := sh.objects[FileKey(sh.sessions[id]) := file], assembled := sh.assembled + {id})
  }

  lemma AssemblyStopsAtTheWrite(sh: Shared, s: Session, file: seq<byte>, calls: Calls)
    requires s.Tid() in sh.sessions && sh.sessions[s.Tid()] == s && s.Total() == Count(file)
    requires forall i: nat :: i < Count(file) ==> ChunkStored(sh, s, file, i) && calls.chunkReads(i).Reported()
    requires !calls.finalPut.Reported()
    ensures AssembleFrom(sh, s, 0, [], calls) == (FinalWriteFailed(sh, s.Tid(), file, calls.finalPut), Rejected(Broke))
  {
    assert Prefix(file, 0) == [];
    AssemblyReadsTheFile(sh, s, file, 0, calls);
    hide ChunkStored, Prefix;
  }

  lemma ChunksSurvive(sh: Shared, id: Id, file: seq<byte>, j: nat, finalPut: Verdict)
    requires CompletesWith(sh, id, file, j)
    requires forall i: nat :: i < Count(file) && i != j ==> ChunkStored(sh, sh.sessions[id], file, i)
    ensures var now := WithChunk(sh, id, file, j);
            var left := FinalWriteFailed(now, id, file, finalPut);
            && AllReceived(left, id, file)
            && (forall i: nat :: i < Count(file) ==> ChunkStored(now, now.sessions[id], file, i))
            && (forall i: nat :: i < Count(file) ==> ChunkStored(left, left.sessions[id], file, i))
  {
    hide Slice, Count;
    var now := WithChunk(sh, id, file, j);
    forall i: nat | i < Count(file) ensures ChunkStored(now, now.sessions[id], file, i) {
      assert i == j || ChunkStored(sh, sh.sessions[id], file, i);
    }
    var left := FinalWriteFailed(now, id, file, finalPut);
    forall i: nat | i < Count(file) ensures ChunkStored(left, left.sessions[id], file, i) {
      assert ChunkStored(now, now.sessions[id], file, i);
    }
  }

  /** A failed final write loses nothing: the request is refused, every chunk is stored and the
      received set holds them all. */
  lemma FailedFinalWriteKeepsEverything(sh: Shared, id: Id, file: seq<byte>, j: nat, calls: Calls)
    requires CompletesWith(sh, id, file, j)
    requires forall i: nat :: i < Count(file) && i != j ==> ChunkStored(sh, sh.sessions[id], file, i)
    requires calls.chunkPut == Done && (forall i: nat :: calls.chunkReads(i).Reported()) && !calls.finalPut.Reported()
    ensures var (sh', r) := AcceptMore(sh, sh.sessions[id].Room(), id, j, Slice(file, j), calls);
            && r == Rejected(Broke)
            && sh' == FinalWriteFailed(WithChunk(sh, id, file, j), id, file, calls.finalPut)
            && AllReceived(sh', id, file)
            && forall i: nat :: i < Count(file) ==> ChunkStored(sh', sh'.sessions[id], file, i)
  {
    var now := WithChunk(sh, id, file, j);
    LastChunkReachesAssembly(sh, id, file, j, calls);
    ChunksSurvive(sh, id, file, j, calls.finalPut);
    hide AcceptMore, AssembleFrom, ChunkStored, Slice, Count, FinalWriteFailed;
    AssemblyStopsAtTheWrite(now, now.sessions[id], file, calls);
  }

  lemma WritingLeadsToClearing(sh: Shared, s: Session, file: seq<byte>)
    requires s.Total() == Count(file)
    ensures AssembleFrom(sh, s, Count(file), file, AllDone)
         == ClearFrom(sh.(objects := sh.objects[FileKey(s) := file], assembled := sh.assembled + {s.Tid()}), s,
                      LandingOrder(AllDone, Size(s)), AllDone)
  {
    hide ClearFrom;
  }

  lemma TheFileIsNoChunk(objects: Objects, s: Session, file: seq<byte>)
    ensures WithoutChunks(objects[FileKey(s) := file], s) == WithoutChunks(objects, s)[FileKey(s) := file]
  {
  }

  /** Assembly over stored chunks with no failure leaves the file and no chunk. */
  lemma AssemblyCompletes(sh: Shared, s: Session, file: seq<byte>)
    requires s.Total() == Count(file) && |s.receivedChunks| == Count(file)
    requires forall i: nat :: i < Count(file) ==> ChunkStored(sh, s, file, i)
    ensures AssembleFrom(sh, s, 0, [], AllDone)
         == (Completed(sh, s, file), Accepted(s.Tid(), Count(file), Count(file), true))
  {
    assert Prefix(file, 0) == [];
    AssemblyReadsTheFile(sh, s, file, 0, AllDone);
    hide AssembleFrom, ClearFrom, ChunkStored, WithoutChunks, Prefix;
    WritingLeadsToClearing(sh, s, file);
    ClearingRemovesEveryChunk(sh.(objects := sh.objects[FileKey(s) := file], assembled := sh.assembled + {s.Tid()}), s,
                              LandingOrder(AllDone, Size(s)));
    TheFileIsNoChunk(sh.objects, s, file);
  }

  ghost predicate TrueChunks(sh: Shared, s: Session, file: seq<byte>) {
    forall i: nat :: i < Count(file) && ChunkKey(s, i) in sh.objects ==> ChunkStored(sh, s, file, i)
  }

  /** The stored chunks of a fully received upload are true. */
  ghost predicate Recoverable(sh: Shared, id: Id, file: seq<byte>) {
    AllReceived(sh, id, file) && TrueChunks(sh, sh.sessions[id], file)
  }

  /** No chunk but j is missing. */
  ghost predicate OthersStored(sh: Shared, s: Session, file: seq<byte>, j: nat) {
    forall i: nat :: i < Count(file) && i != j ==> ChunkKey(s, i) in sh.objects
  }

  lemma ResendStoresEveryChunk(sh: Shared, id: Id, file: seq<byte>, j: nat)
    requires Recoverable(sh, id, file) && OthersStored(sh, sh.sessions[id], file, j)
    ensures var s := sh.sessions[id];
            var now := sh.(objects := sh.objects[ChunkKey(s, j) := Slice(file, j)]);
            && |s.receivedChunks| == Count(file)
            && forall i: nat :: i < Count(file) ==> ChunkStored(now, s, file, i)
  {
    hide Slice, Count;
    var s := sh.sessions[id];
    var now := sh.(objects := sh.objects[ChunkKey(s, j) := Slice(file, j)]);
    forall i: nat | i < Count(file) ensures ChunkStored(now, s, file, i) {
      assert i == j || ChunkStored(sh, s, file, i);
    }
  }

  lemma ResendCompletes(sh: Shared, id: Id, file: seq<byte>, j: nat)
    requires Recoverable(sh, id, file) && j < Count(file) && OthersStored(sh, sh.sessions[id], file, j)
    ensures var s := sh.sessions[id];
            (AcceptMore(sh, s.Room(), id, j, Slice(file, j), AllDone)
            == (Completed(sh, s, file), Accepted(id, Count(file), Count(file), true)))
  {
    var s := sh.sessions[id];
    ResendReachesAssembly(sh, id, file, j, AllDone);
    ResendStoresEveryChunk(sh, id, file, j);
    hide AcceptMore, AssembleFrom, WithoutChunks, ChunkStored, OthersStored, TrueChunks, Slice, Count;
    AssemblyCompletes(sh.(objects := sh.objects[ChunkKey(s, j) := Slice(file, j)]), s, file);
    ChunksDoNotMatter(sh.objects, s, j, Slice(file, j));
  }

  lemma ChunksDoNotMatter(objects: Objects, s: Session, i: nat, body: seq<byte>)
    requires i < Size(s)
    ensures WithoutChunks(objects[ChunkKey(s, i) := body], s) == WithoutChunks(objects, s)
  {
  }

  lemma ResendIsRefused(sh: Shared, id: Id, file: seq<byte>, j: nat)
    requires Recoverable(sh, id, file) && j < Count(file) && !OthersStored(sh, sh.sessions[id], file, j)
    ensures var s := sh.sessions[id];
            (AcceptMore(sh, s.Room(), id, j, Slice(file, j), AllDone)
            == (sh.(objects := sh.objects[ChunkKey(s, j) := Slice(file, j)]), Rejected(Broke)))
  {
    var s := sh.sessions[id];
    ResendReachesAssembly(sh, id, file, j, AllDone);
    hide AcceptMore, AssembleFrom;
    var missing: nat :| missing < Count(file) && missing != j && ChunkKey(s, missing) !in sh.objects;
    AssemblyNeedsEveryChunk(sh.(objects := sh.objects[ChunkKey(s, j) := Slice(file, j)]), s, 0, [], missing, AllDone);
  }

  /** Re-sending chunk j of a fully received upload completes it exactly when no other chunk is
      missing; otherwise it is refused, but chunk j is stored again. */
  lemma ResendCompletesIffNoOtherChunkIsMissing(sh: Shared, id: Id, file: seq<byte>, j: nat)
    requires Recoverable(sh, id, file) && j < Count(file)
    ensures var s := sh.sessions[id];
            var (sh', r) := AcceptMore(sh, s.Room(), id, j, Slice(file, j), AllDone);
            if OthersStored(sh, s, file, j)
            then r == Accepted(id, Count(file), Count(file), true) && sh' == Completed(sh, s, file)
            else r == Rejected(Broke) && sh' == sh.(objects := sh.objects[ChunkKey(s, j) := Slice(file, j)])
  {
    hide AcceptMore, Completed;
    if OthersStored(sh, sh.sessions[id], file, j) {
      ResendCompletes(sh, id, file, j);
    } else {
      ResendIsRefused(sh, id, file, j);
    }
  }

  /** The law of a failed final write: nothing is lost, and re-sending any one chunk then
      completes the upload with the correct final object. */
  lemma FailedFinalWriteIsRecovered(sh: Shared, id: Id, file: seq<byte>, j: nat, calls: Calls, resent: nat)
    requires CompletesWith(sh, id, file, j) && resent < Count(file)
    requires forall i: nat :: i < Count(file) && i != j ==> ChunkStored(sh, sh.sessions[id], file, i)
    requires calls.chunkPut == Done && (forall i: nat :: calls.chunkReads(i).Reported()) && !calls.finalPut.Reported()
    ensures var room := sh.sessions[id].Room();
            var (failed, r1) := AcceptMore(sh, room, id, j, Slice(file, j), calls);
            var (after, r2) := AcceptMore(failed, room, id, resent, Slice(file, resent), AllDone);
            && r1 == Rejected(Broke) && failed == FinalWriteFailed(WithChunk(sh, id, file, j), id, file, calls.finalPut)
            && r2 == Accepted(id, Count(file), Count(file), true) && after == Completed(failed, failed.sessions[id], file)
            && after.objects[FileObject(room, id)] == file
  {
    var failed := FinalWriteFailed(WithChunk(sh, id, file, j), id, file, calls.finalPut);
    FailedFinalWriteKeepsEverything(sh, id, file, j, calls);
    hide AcceptMore, WithoutChunks;
    forall i: nat | i < Count(file) && i != resent ensures ChunkKey(failed.sessions[id], i) in failed.objects {
      assert ChunkStored(failed, failed.sessions[id], file, i);
    }
    ResendCompletes(failed, id, file, resent);
  }

  // --- The client's upload loop ---------------------------------------------------

  /** One request of the client loop: the first opens the upload, the rest name it. */
  function SendSlice(maxFileSizeBytes: int, sh: Shared, input: SessionInput, file: seq<byte>, k: nat)
    : (Shared, Request)
  {
    if k == 0 then AcceptNew(maxFileSizeBytes, sh, input, 0, Slice(file, 0), AllDone)
    else AcceptMore(sh, input.roomId, input.transferId, k, Slice(file, k), AllDone)
  }

  /** The state and answers after the client has sent its first k slices. */
  function ClientUpload(maxFileSizeBytes: int, sh: Shared, input: SessionInput, file: seq<byte>, k: nat)
    : (Shared, seq<Request>)
  {
    if k == 0 then (sh, [])
    else
      var (before, answers) := ClientUpload(maxFileSizeBytes, sh, input, file, k - 1);
      var (after, answer) := SendSlice(maxFileSizeBytes, before, input, file, k - 1);
      (after, answers + [answer])
  }

  /** What the client sends: the true size and the count it computes for it. */
  ghost predicate ClientInput(input: SessionInput, file: seq<byte>) {
    file != [] && input.fileSizeBytes == |file| && input.totalChunks == Count(file)
  }

  /** A random id no store has seen. */
  ghost predicate Unused(sh: Shared, id: Id) {
    && id !in sh.sessions && id !in sh.transfers && id !in sh.payloads && id !in sh.admitted
    && forall k :: k in sh.objects ==> k.transfer != id
  }

  function FirstChunks(input: SessionInput, file: seq<byte>, k: nat): Objects {
    map i: nat | i < k :: ChunkObject(input.roomId, input.transferId, i) := Slice(file, i)
  }

  /** The stores after k slices, 0 < k, of an upload nothing interferes with. */
  function Uploaded(sh: Shared, input: SessionInput, file: seq<byte>, k: nat): Shared {
    var id := input.transferId;
    var recorded := sh.(
      transfers := sh.transfers[id := input.roomId],
      payloads := sh.payloads[id := FileObject(input.roomId, id)],
      admitted := sh.admitted[id := input.roomId]);
    if k < Count(file) then
      recorded.(objects := sh.objects + FirstChunks(input, file, k),
                sessions := sh.sessions[id := Session(input, UpTo(k), sh.now)])
    else
      recorded.(objects := sh.objects[FileObject(input.roomId, id) := file],
                assembled := sh.assembled + {id}, ends := sh.ends.(completed := sh.ends.completed + {id}))
  }

  /** The stores between two slices of the upload. */
  function Underway(sh: Shared, input: SessionInput, file: seq<byte>, k: nat): Shared {
    var id := input.transferId;
    sh.(transfers := sh.transfers[id := input.roomId],
        payloads := sh.payloads[id := FileObject(input.roomId, id)],
        admitted := sh.admitted[id := input.roomId],
        objects := sh.objects + FirstChunks(input, file, k),
        sessions := sh.sessions[id := Session(input, UpTo(k), sh.now)])
  }

  lemma OneMoreChunk(objects: Objects, input: SessionInput, file: seq<byte>, k: nat)
    ensures objects + FirstChunks(input, file, k + 1)
         == (objects + FirstChunks(input, file, k))[ChunkObject(input.roomId, input.transferId, k) := Slice(file, k)]
  {
    hide Slice;
    assert FirstChunks(input, file, k + 1)
        == FirstChunks(input, file, k)[ChunkObject(input.roomId, input.transferId, k) := Slice(file, k)];
  }

  lemma DroppingTheChunks(objects: Objects, s: Session, file: seq<byte>)
    requires forall k :: k in objects ==> k.transfer != s.Tid()
    ensures WithoutChunks(objects + FirstChunks(s.input, file, Size(s)), s) == objects
  {
  }

  lemma NextSlice(sh: Shared, input: SessionInput, file: seq<byte>, k: nat)
    requires ClientInput(input, file) && Unused(sh, input.transferId) && k < Count(file)
    ensures StoreAndMark(Underway(sh, input, file, k), Session(input, UpTo(k), sh.now), k, Slice(file, k), AllDone)
         == (Uploaded(sh, input, file, k + 1), Accepted(input.transferId, k + 1, Count(file), k + 1 == Count(file)))
  {
    var before := Underway(sh, input, file, k);
    var s := Session(input, UpTo(k), sh.now);
    var u := Session(input, UpTo(k + 1), sh.now);
    TrueSliceIsMarked(before, s, file, k, AllDone);
    hide StoreAndMark, AssembleFrom, FirstChunks, WithoutChunks;
    var marked := Underway(sh, input, file, k + 1);
    OneMoreChunk(sh.objects, input, file, k);
    assert marked.sessions == before.sessions[input.transferId := u];
    assert marked == before.(objects := marked.objects, sessions := marked.sessions);
    if k + 1 == Count(file) {
      LastSlice(sh, input, file);
    }
  }

  lemma SlicesAreStored(sh: Shared, input: SessionInput, file: seq<byte>)
    ensures var marked := Underway(sh, input, file, Count(file));
            forall i: nat :: i < Count(file) ==>
              ChunkStored(marked, Session(input, UpTo(Count(file)), sh.now), file, i)
  {
  }

  /** Assembly of the last slice leaves the stores as they were but for the file and rows. */
  lemma LastSlice(sh: Shared, input: SessionInput, file: seq<byte>)
    requires ClientInput(input, file) && Unused(sh, input.transferId)
    ensures AssembleFrom(Underway(sh, input, file, Count(file)), Session(input, UpTo(Count(file)), sh.now), 0, [], AllDone)
         == (Uploaded(sh, input, file, Count(file)), Accepted(input.transferId, Count(file), Count(file), true))
  {
    var marked := Underway(sh, input, file, Count(file));
    var u := Session(input, UpTo(Count(file)), sh.now);
    hide AssembleFrom, FirstChunks, WithoutChunks, ChunkStored;
    SlicesAreStored(sh, input, file);
    AssemblyCompletes(marked, u, file);
    DroppingTheChunks(sh.objects, u, file);
    assert marked.sessions - {input.transferId} == sh.sessions;
  }

  lemma FirstSlice(maxFileSizeBytes: int, sh: Shared, input: SessionInput, file: seq<byte>)
    requires ClientInput(input, file) && |file| <= maxFileSizeBytes && Unused(sh, input.transferId)
    requires |HeldBy(sh.sessions, input.roomId)| < MAX_CONCURRENT_TRANSFERS_PER_ROOM
    ensures AcceptNew(maxFileSizeBytes, sh, input, 0, Slice(file, 0), AllDone)
         == StoreAndMark(Underway(sh, input, file, 0), Session(input, {}, sh.now), 0, Slice(file, 0), AllDone)
  {
    hide StoreAndMark;
    assert FirstChunks(input, file, 0) == map[];
    assert sh.objects + FirstChunks(input, file, 0) == sh.objects;
  }

  lemma ResumedSlice(sh: Shared, input: SessionInput, file: seq<byte>, k: nat)
    ensures var before := Underway(sh, input, file, k);
            (AcceptMore(before, input.roomId, input.transferId, k, Slice(file, k), AllDone)
            == StoreAndMark(before, Session(input, UpTo(k), sh.now), k, Slice(file, k), AllDone))
  {
  }

  lemma EverySliceIsAccepted(maxFileSizeBytes: int, sh: Shared, before: Shared, input: SessionInput, file: seq<byte>, k: nat)
    requires ClientInput(input, file) && |file| <= maxFileSizeBytes && Unused(sh, input.transferId)
    requires |HeldBy(sh.sessions, input.roomId)| < MAX_CONCURRENT_TRANSFERS_PER_ROOM
    requires k < Count(file) && before == if k == 0 then sh else Uploaded(sh, input, file, k)
    ensures SendSlice(maxFileSizeBytes, before, input, file, k)
         == (Uploaded(sh, input, file, k + 1), Accepted(input.transferId, k + 1, Count(file), k + 1 == Count(file)))
  {
    NextSlice(sh, input, file, k);
    hide StoreAndMark, AcceptNew, AcceptMore, FirstChunks;
    if k == 0 {
      FirstSlice(maxFileSizeBytes, sh, input, file);
      assert UpTo(0) == {};
    } else {
      ResumedSlice(sh, input, file, k);
      assert Uploaded(sh, input, file, k) == Underway(sh, input, file, k);
    }
  }

  /** The round trip: every slice is accepted, `complete` is true on the last answer and on
      no other, and the stores end up as before but for the file and its rows. */
  lemma {:induction false} UploadRoundTrip(maxFileSizeBytes: int, sh: Shared, input: SessionInput, file: seq<byte>, k: nat)
    requires ClientInput(input, file) && |file| <= maxFileSizeBytes && Unused(sh, input.transferId)
    requires |HeldBy(sh.sessions, input.roomId)| < MAX_CONCURRENT_TRANSFERS_PER_ROOM
    requires 0 < k <= Count(file)
    ensures var (after, answers) := ClientUpload(maxFileSizeBytes, sh, input, file, k);
            && after == Uploaded(sh, input, file, k)
            && |answers| == k
            && forall i :: 0 <= i < k ==> answers[i] == Accepted(input.transferId, i + 1, Count(file), i + 1 == Count(file))
  {
    hide SendSlice, Uploaded;
    if k == 1 {
      assert ClientUpload(maxFileSizeBytes, sh, input, file, 0) == (sh, []);
      EverySliceIsAccepted(maxFileSizeBytes, sh, sh, input, file, 0);
    } else {
      UploadRoundTrip(maxFileSizeBytes, sh, input, file, k - 1);
      EverySliceIsAccepted(maxFileSizeBytes, sh, Uploaded(sh, input, file, k - 1), input, file, k - 1);
    }
  }
}
