/** Recovering from a failed assembly (apps/api/src/transfer/chunk-assembler.ts): what each failure
    leaves behind, and which re-sent chunks complete the upload. */
module UploadRecovery {
  import opened Common
  import opened Chunking
  import opened ObjectStorage
  import opened UploadSessions
  import opened Pipeline
  import opened ChunkedUpload

  /** The chunks of the file that are not stored. */
  function MissingFrom(objects: Objects, s: Session, file: seq<byte>): set<nat> {
    set i: nat | i < Count(file) && ChunkKey(s, i) !in objects
  }

  /** Landed removals that take effect take their chunks and nothing else. */
  function AfterRemovals(objects: Objects, s: Session, landed: set<nat>, removes: nat -> Verdict): Objects {
    map k | k in objects && !(k.ChunkObject? && k.room == s.Room() && k.transfer == s.Tid()
                              && k.index in landed && removes(k.index).TookEffect())
          :: objects[k]
  }

  /** What of the landing order is in flight once the first removal has failed. */
  function AfterFirstFailed(order: seq<nat>, removes: nat -> Verdict): seq<nat>
    decreases order
  {
    if order == [] then []
    else if removes(order[0]).Reported() then AfterFirstFailed(order[1..], removes)
    else order[1..]
  }

  lemma OneMoreLanded(objects: Objects, s: Session, i: nat, landed: set<nat>, removes: nat -> Verdict)
    ensures AfterRemovals(Remove(objects, ChunkKey(s, i), removes(i)), s, landed, removes)
         == AfterRemovals(objects, s, landed + {i}, removes)
  {
  }

  lemma {:induction false} ClearingTakesWhatTakesEffect(sh: Shared, s: Session, order: seq<nat>, calls: Calls)
    requires Distinct(order)
    ensures var (sh', r) := ClearFrom(sh, s, order, calls);
            var pending := IndicesOf(AfterFirstFailed(order, calls.removes));
            && pending <= IndicesOf(order)
            && (r.Accepted? <==> forall i :: i in order ==> calls.removes(i).Reported())
            && (!r.Accepted? ==>
                  && r == Clearing(s, pending, false)
                  && sh' == sh.(objects := AfterRemovals(sh.objects, s, IndicesOf(order) - pending, calls.removes)))
    decreases order
  {
    if order != [] {
      var i, rest := order[0], order[1..];
      assert order == [i] + rest;
      var next := sh.(objects := Remove(sh.objects, ChunkKey(s, i), calls.removes(i)));
      var pending := IndicesOf(AfterFirstFailed(order, calls.removes));
      hide AfterRemovals, Remove;
      if calls.removes(i).Reported() {
        ClearingTakesWhatTakesEffect(next, s, rest, calls);
        OneMoreLanded(sh.objects, s, i, IndicesOf(rest) - pending, calls.removes);
        assert IndicesOf(order) - pending == IndicesOf(rest) - pending + {i};
      } else {
        assert IndicesOf(order) - pending == {} + {i};
        OneMoreLanded(sh.objects, s, i, {}, calls.removes);
        NoneLanded(next.objects, s, calls.removes);
      }
    }
  }

  lemma NoneLanded(objects: Objects, s: Session, removes: nat -> Verdict)
    ensures AfterRemovals(objects, s, {}, removes) == objects
  {
  }

  lemma {:induction false} FailedReadChangesNothing(sh: Shared, s: Session, next: nat, bytes: seq<byte>, calls: Calls, bad: nat)
    requires next <= bad < Size(s) && !calls.chunkReads(bad).Reported()
    ensures AssembleFrom(sh, s, next, bytes, calls) == (sh, Rejected(Broke))
    decreases bad - next
  {
    if next < bad {
      var r := ReadChunk(sh, s, next, bytes, calls.chunkReads(next));
      if r.Assembling? {
        FailedReadChangesNothing(sh, s, next + 1, r.bytes, calls, bad);
      }
    }
  }

  /** Every chunk was read back and the final write was answered, so removals were made. */
  ghost predicate ReachesRemovals(file: seq<byte>, calls: Calls) {
    (forall i: nat :: i < Count(file) ==> calls.chunkReads(i).Reported()) && calls.finalPut.Reported()
  }

  /** The removals still in flight when the assembly is answered. */
  ghost function StillInFlight(file: seq<byte>, calls: Calls): set<nat> {
    if ReachesRemovals(file, calls) then IndicesOf(AfterFirstFailed(LandingOrder(calls, Count(file)), calls.removes)) else {}
  }

  /** The chunks whose removal takes effect, before the answer or after it. */
  ghost function Removed(file: seq<byte>, calls: Calls): set<nat> {
    set i: nat | i < Count(file) && ReachesRemovals(file, calls) && calls.removes(i).TookEffect()
  }

  ghost predicate EveryRemovalReported(file: seq<byte>, calls: Calls) {
    forall i: nat :: i < Count(file) ==> calls.removes(i).Reported()
  }

  /** The state once the removals still in flight at the answer have landed. */
  function Settled(out: (Shared, Request), removes: nat -> Verdict): Shared {
    if out.1.Clearing? then out.0.(objects := AfterRemovals(out.0.objects, out.1.session, out.1.pending, removes))
    else out.0
  }

  /** What a failed assembly leaves: the sessions it had, the full received set, true chunks, and
      none missing but the given ones. */
  ghost predicate LeavesMissing(left: Shared, sessions: Sessions, id: Id, file: seq<byte>, missing: set<nat>) {
    && left.sessions == sessions && Recoverable(left, id, file)
    && MissingFrom(left.objects, left.sessions[id], file) == missing
  }

  ghost predicate FinalStored(sh: Shared, id: Id, file: seq<byte>) {
    id in sh.sessions && FileKey(sh.sessions[id]) in sh.objects && sh.objects[FileKey(sh.sessions[id])] == file
  }

  lemma RemovalsTakeTheirChunks(sh: Shared, left: Shared, id: Id, file: seq<byte>, calls: Calls, landed: set<nat>)
    requires AllReceived(sh, id, file) && ReachesRemovals(file, calls)
    requires forall i: nat :: i < Count(file) ==> ChunkStored(sh, sh.sessions[id], file, i)
    requires left == sh.(objects := AfterRemovals(sh.objects[FileKey(sh.sessions[id]) := file], sh.sessions[id], landed, calls.removes),
                         assembled := left.assembled)
    ensures LeavesMissing(left, sh.sessions, id, file, Removed(file, calls) * landed)
    ensures FinalStored(left, id, file)
  {
    hide Slice, Count;
    var s := sh.sessions[id];
    forall i: nat | i < Count(file)
      ensures ChunkKey(s, i) !in left.objects <==> i in landed && calls.removes(i).TookEffect()
      ensures ChunkKey(s, i) in left.objects ==> ChunkStored(left, s, file, i)
    {
      assert ChunkStored(sh, s, file, i);
    }
  }

  /** Assembly that got as far as removing chunks and failed there. */
  lemma AssemblyStopsAtARemoval(sh: Shared, s: Session, file: seq<byte>, calls: Calls)
    requires s.Total() == Count(file) && ReachesRemovals(file, calls)
    requires forall i: nat :: i < Count(file) ==> ChunkStored(sh, s, file, i)
    ensures var (sh', r) := AssembleFrom(sh, s, 0, [], calls);
            var pending := StillInFlight(file, calls);
            && pending <= UpTo(Count(file))
            && (r.Accepted? <==> EveryRemovalReported(file, calls))
            && (!r.Accepted? ==>
                  && r == Clearing(s, pending, false)
                  && sh' == sh.(objects := AfterRemovals(sh.objects[FileKey(s) := file], s, UpTo(Count(file)) - pending, calls.removes),
                                assembled := sh.assembled + {s.Tid()}))
  {
    assert Prefix(file, 0) == [];
    AssemblyReadsTheFile(sh, s, file, 0, calls);
    var written := sh.(objects := sh.objects[FileKey(s) := file], assembled := sh.assembled + {s.Tid()});
    hide ClearFrom, ChunkStored, AfterRemovals, Prefix, AfterFirstFailed;
    var order := LandingOrder(calls, Count(file));
    assert AssembleFrom(sh, s, Count(file), file, calls) == ClearFrom(written, s, order, calls);
    ClearingTakesWhatTakesEffect(written, s, order, calls);
    assert IndicesOf(order) == UpTo(Count(file));
  }

  lemma RestLanded(objects: Objects, s: Session, n: nat, pending: set<nat>, removes: nat -> Verdict)
    requires pending <= UpTo(n)
    ensures AfterRemovals(AfterRemovals(objects, s, UpTo(n) - pending, removes), s, pending, removes)
         == AfterRemovals(objects, s, UpTo(n), removes)
  {
  }

  lemma AllStoredMissesNothing(sh: Shared, s: Session, file: seq<byte>)
    requires forall i: nat :: i < Count(file) ==> ChunkStored(sh, s, file, i)
    ensures MissingFrom(sh.objects, s, file) == {}
  {
    forall i: nat | i < Count(file) ensures ChunkKey(s, i) in sh.objects {
      assert ChunkStored(sh, s, file, i);
    }
  }

  /** The answer and what is left of an assembly: at the answer, and once every removal landed. */
  ghost predicate EndsRecoverable(now: Shared, out: (Shared, Request), id: Id, file: seq<byte>, calls: Calls) {
    && (out.1.Accepted? <==> ReachesRemovals(file, calls) && EveryRemovalReported(file, calls))
    && (!out.1.Accepted? ==>
          && AnswerOf(out.1) == Some(Rejected(Broke)) && InFlight(out.1) == StillInFlight(file, calls)
          && (out.1.Clearing? ==> id in now.sessions && out.1.session == now.sessions[id])
          && LeavesMissing(out.0, now.sessions, id, file, Removed(file, calls) - StillInFlight(file, calls))
          && (ReachesRemovals(file, calls) ==> FinalStored(out.0, id, file))
          && LeavesMissing(Settled(out, calls.removes), now.sessions, id, file, Removed(file, calls)))
  }

  lemma FailedRemovalLeaves(now: Shared, id: Id, file: seq<byte>, calls: Calls)
    requires AllReceived(now, id, file) && ReachesRemovals(file, calls)
    requires forall i: nat :: i < Count(file) ==> ChunkStored(now, now.sessions[id], file, i)
    ensures EndsRecoverable(now, AssembleFrom(now, now.sessions[id], 0, [], calls), id, file, calls)
  {
    var s := now.sessions[id];
    AssemblyStopsAtARemoval(now, s, file, calls);
    var out := AssembleFrom(now, s, 0, [], calls);
    if !out.1.Accepted? {
      var all, pending := UpTo(Count(file)), StillInFlight(file, calls);
      assert Removed(file, calls) * (all - pending) == Removed(file, calls) - pending;
      assert Removed(file, calls) * all == Removed(file, calls);
      RestLanded(now.objects[FileKey(s) := file], s, Count(file), pending, calls.removes);
      hide AssembleFrom, AfterRemovals, StillInFlight, Removed, ReachesRemovals, LeavesMissing;
      hide ChunkStored, AllReceived, Count, EveryRemovalReported;
      RemovalsTakeTheirChunks(now, out.0, id, file, calls, all - pending);
      RemovalsTakeTheirChunks(now, Settled(out, calls.removes), id, file, calls, all);
    }
  }

  /** What an assembly that fails before its removals leaves. */
  lemma FailedWriteLeaves(now: Shared, left: Shared, id: Id, file: seq<byte>, calls: Calls)
    requires AllReceived(now, id, file) && left.sessions == now.sessions && !ReachesRemovals(file, calls)
    requires forall i: nat :: i < Count(file) ==> ChunkStored(left, now.sessions[id], file, i)
    ensures EndsRecoverable(now, (left, Rejected(Broke)), id, file, calls)
  {
    AllStoredMissesNothing(left, now.sessions[id], file);
    assert Removed(file, calls) == {};
    hide MissingFrom, Slice, Count, ChunkStored;
    assert LeavesMissing(left, now.sessions, id, file, {});
  }

  /** Completion exactly when every call was answered; otherwise the full received set, true chunks,
      and those missing whose removal took effect. */
  lemma FailedAssemblyLeaves(now: Shared, id: Id, file: seq<byte>, calls: Calls)
    requires AllReceived(now, id, file)
    requires forall i: nat :: i < Count(file) ==> ChunkStored(now, now.sessions[id], file, i)
    requires forall i: nat :: i < Count(file) ==>
               ChunkStored(FinalWriteFailed(now, id, file, calls.finalPut), now.sessions[id], file, i)
    ensures EndsRecoverable(now, AssembleFrom(now, now.sessions[id], 0, [], calls), id, file, calls)
  {
    var s := now.sessions[id];
    hide AssembleFrom, Slice, EndsRecoverable, ChunkStored;
    if ReachesRemovals(file, calls) {
      FailedRemovalLeaves(now, id, file, calls);
    } else if bad: nat :| bad < Count(file) && !calls.chunkReads(bad).Reported() {
      FailedReadChangesNothing(now, s, 0, [], calls, bad);
      FailedWriteLeaves(now, now, id, file, calls);
    } else {
      NotReachedByTheWrite(file, calls);
      AssemblyStopsAtTheWrite(now, s, file, calls);
      FailedWriteLeaves(now, FinalWriteFailed(now, id, file, calls.finalPut), id, file, calls);
    }
  }

  lemma NotReachedByTheWrite(file: seq<byte>, calls: Calls)
    requires !ReachesRemovals(file, calls) && forall i: nat :: i < Count(file) ==> calls.chunkReads(i).Reported()
    ensures !calls.finalPut.Reported()
  {
  }

  /** Whichever call of an assembly fails, the request is refused, the session keeps its full received
      set and what is stored is true. The chunks missing are exactly those whose removal took effect
      (at the answer: so far; the rest are in flight); none is, unless the final write was answered
      before. */
  lemma FailedAssemblyIsRecoverable(sh: Shared, id: Id, file: seq<byte>, j: nat, calls: Calls)
    requires CompletesWith(sh, id, file, j) && calls.chunkPut == Done
    requires forall i: nat :: i < Count(file) && i != j ==> ChunkStored(sh, sh.sessions[id], file, i)
    ensures var out := AcceptMore(sh, sh.sessions[id].Room(), id, j, Slice(file, j), calls);
            EndsRecoverable(WithChunk(sh, id, file, j), out, id, file, calls)
  {
    LastChunkReachesAssembly(sh, id, file, j, calls);
    ChunksSurvive(sh, id, file, j, calls.finalPut);
    FullSetStays(sh, id, file, j);
    hide AcceptMore, AssembleFrom, Slice, ChunkStored, FinalWriteFailed, EndsRecoverable;
    FailedAssemblyLeaves(WithChunk(sh, id, file, j), id, file, calls);
  }

  lemma FullSetStays(sh: Shared, id: Id, file: seq<byte>, j: nat)
    requires CompletesWith(sh, id, file, j)
    ensures AllReceived(WithChunk(sh, id, file, j), id, file)
    ensures forall v: Verdict :: FinalWriteFailed(WithChunk(sh, id, file, j), id, file, v).sessions == WithChunk(sh, id, file, j).sessions
  {
    hide Slice;
  }

  /** The client re-sends chunks in some order, no call failing. */
  function Resends(sh: Shared, room: Id, id: Id, file: seq<byte>, order: seq<nat>): (Shared, seq<Request>) {
    if order == [] then (sh, [])
    else
      var (before, answers) := Resends(sh, room, id, file, order[..|order| - 1]);
      var j := order[|order| - 1];
      var (after, answer) := AcceptMore(before, room, id, j, Slice(file, j), AllDone);
      (after, answers + [answer])
  }

  /** The re-sent chunks are back and nothing else has changed. */
  ghost predicate Refilled(sh: Shared, now: Shared, id: Id, file: seq<byte>, order: seq<nat>)
    requires id in sh.sessions
  {
    var s := sh.sessions[id];
    && now == sh.(objects := now.objects)
    && Recoverable(now, id, file)
    && MissingFrom(now.objects, s, file) == MissingFrom(sh.objects, s, file) - IndicesOf(order)
    && WithoutChunks(now.objects, s) == WithoutChunks(sh.objects, s)
  }

  lemma OthersStoredMeansNoOtherMissing(sh: Shared, s: Session, file: seq<byte>, j: nat)
    ensures OthersStored(sh, s, file, j) <==> MissingFrom(sh.objects, s, file) <= {j}
  {
    if MissingFrom(sh.objects, s, file) <= {j} {
      forall i: nat | i < Count(file) && i != j ensures ChunkKey(s, i) in sh.objects {
        assert i !in MissingFrom(sh.objects, s, file);
      }
    }
  }

  lemma OneMoreRefilled(sh: Shared, now: Shared, id: Id, file: seq<byte>, order: seq<nat>, j: nat)
    requires id in sh.sessions && Refilled(sh, now, id, file, order) && j < Count(file)
    ensures var s := sh.sessions[id];
            Refilled(sh, now.(objects := now.objects[ChunkKey(s, j) := Slice(file, j)]), id, file, order + [j])
  {
    hide Slice, WithoutChunks;
    var s := sh.sessions[id];
    var next := now.(objects := now.objects[ChunkKey(s, j) := Slice(file, j)]);
    ChunksDoNotMatter(now.objects, s, j, Slice(file, j));
    assert IndicesOf(order + [j]) == IndicesOf(order) + {j};
    assert MissingFrom(next.objects, s, file) == MissingFrom(now.objects, s, file) - {j};
    assert Recoverable(next, id, file) by {
      forall i: nat | i < Count(file) && ChunkKey(s, i) in next.objects ensures ChunkStored(next, s, file, i) {
        assert i == j || ChunkStored(now, s, file, i);
      }
    }
  }

  lemma NextResend(sh: Shared, room: Id, id: Id, file: seq<byte>, order: seq<nat>, j: nat)
    ensures var (before, answers) := Resends(sh, room, id, file, order);
            var (after, answer) := AcceptMore(before, room, id, j, Slice(file, j), AllDone);
            Resends(sh, room, id, file, order + [j]) == (after, answers + [answer])
  {
    assert (order + [j])[..|order|] == order;
    hide AcceptMore, Slice;
  }

  lemma RefilledEndsTheSame(sh: Shared, before: Shared, id: Id, file: seq<byte>, order: seq<nat>)
    requires id in sh.sessions && Refilled(sh, before, id, file, order)
    ensures Recoverable(before, id, file) && before.sessions == sh.sessions
    ensures Completed(before, sh.sessions[id], file) == Completed(sh, sh.sessions[id], file)
  {
    hide WithoutChunks, Recoverable, MissingFrom;
  }

  lemma CoveredByOneMore(sh: Shared, before: Shared, id: Id, file: seq<byte>, order: seq<nat>, j: nat)
    requires id in sh.sessions && Refilled(sh, before, id, file, order)
    ensures OthersStored(before, sh.sessions[id], file, j)
       <==> MissingFrom(sh.objects, sh.sessions[id], file) <= IndicesOf(order + [j])
  {
    OthersStoredMeansNoOtherMissing(before, sh.sessions[id], file, j);
    hide MissingFrom, WithoutChunks, Recoverable, OthersStored;
    assert IndicesOf(order + [j]) == IndicesOf(order) + {j};
  }

  /** One more re-send after some that did not complete the upload. */
  lemma ResendAfterOthers(sh: Shared, before: Shared, id: Id, file: seq<byte>, order: seq<nat>, j: nat)
    requires id in sh.sessions && Refilled(sh, before, id, file, order) && j < Count(file)
    ensures var s := sh.sessions[id];
            var (after, answer) := AcceptMore(before, s.Room(), id, j, Slice(file, j), AllDone);
            var done := Accepted(id, Count(file), Count(file), true);
            && (answer == done <==> MissingFrom(sh.objects, s, file) <= IndicesOf(order + [j]))
            && (answer == done ==> after == Completed(sh, s, file))
            && (answer != done ==> answer == Rejected(Broke) && Refilled(sh, after, id, file, order + [j]))
  {
    CoveredByOneMore(sh, before, id, file, order, j);
    OneMoreRefilled(sh, before, id, file, order, j);
    RefilledEndsTheSame(sh, before, id, file, order);
    hide AcceptMore, Slice, Count, IndicesOf, OthersStored, MissingFrom, Recoverable, Refilled, Completed;
    ResendCompletesIffNoOtherChunkIsMissing(before, id, file, j);
  }

  lemma NothingResent(sh: Shared, id: Id, file: seq<byte>)
    requires Recoverable(sh, id, file)
    ensures Refilled(sh, sh, id, file, [])
  {
    assert IndicesOf([]) == {};
  }

  /** The answers and the end of re-sending `order` and then j. */
  ghost predicate EndsAtTheLastMissing(sh: Shared, id: Id, file: seq<byte>, order: seq<nat>, j: nat, end: Shared, answers: seq<Request>)
    requires id in sh.sessions
  {
    var s := sh.sessions[id];
    var done := Accepted(id, Count(file), Count(file), true);
    && |answers| == |order| + 1 && (forall k :: 0 <= k < |order| ==> answers[k] == Rejected(Broke))
    && (answers[|order|] == done <==> MissingFrom(sh.objects, s, file) <= IndicesOf(order + [j]))
    && (answers[|order|] == done ==> end == Completed(sh, s, file))
    && (answers[|order|] != done ==> answers[|order|] == Rejected(Broke) && Refilled(sh, end, id, file, order + [j]))
  }

  lemma OneMoreAnswer(sh: Shared, before: Shared, id: Id, file: seq<byte>, order: seq<nat>, j: nat, answers: seq<Request>)
    requires id in sh.sessions && Refilled(sh, before, id, file, order) && j < Count(file)
    requires |answers| == |order| && forall k :: 0 <= k < |order| ==> answers[k] == Rejected(Broke)
    ensures var (after, answer) := AcceptMore(before, sh.sessions[id].Room(), id, j, Slice(file, j), AllDone);
            EndsAtTheLastMissing(sh, id, file, order, j, after, answers + [answer])
  {
    hide AcceptMore, Slice, Count, MissingFrom, IndicesOf, Refilled, Completed;
    ResendAfterOthers(sh, before, id, file, order, j);
  }

  lemma NotYetMeansRefilled(sh: Shared, id: Id, file: seq<byte>, order: seq<nat>, j: nat, end: Shared, answers: seq<Request>)
    requires id in sh.sessions && EndsAtTheLastMissing(sh, id, file, order, j, end, answers)
    requires !(MissingFrom(sh.objects, sh.sessions[id], file) <= IndicesOf(order + [j]))
    ensures Refilled(sh, end, id, file, order + [j]) && |answers| == |order| + 1
    ensures forall k :: 0 <= k < |answers| ==> answers[k] == Rejected(Broke)
  {
    hide Count, MissingFrom, IndicesOf, Refilled, Completed;
  }

  /** Retrying a failed assembly that has no removal pending any more, for any set of missing chunks
      and any order of re-sends: every re-send before the missing chunks are covered is refused and
      puts its chunk back, and the one that covers them, and only that one, completes the upload with
      the correct final object. */
  lemma {:induction false} ResendsCompleteOnTheLastMissing(sh: Shared, id: Id, file: seq<byte>, order: seq<nat>, j: nat)
    requires Recoverable(sh, id, file) && Within(order, Count(file)) && j < Count(file)
    requires order == [] || !(MissingFrom(sh.objects, sh.sessions[id], file) <= IndicesOf(order))
    ensures var (end, answers) := Resends(sh, sh.sessions[id].Room(), id, file, order + [j]);
            EndsAtTheLastMissing(sh, id, file, order, j, end, answers)
  {
    var room := sh.sessions[id].Room();
    NextResend(sh, room, id, file, order, j);
    if order == [] {
      NothingResent(sh, id, file);
      OneMoreAnswer(sh, sh, id, file, order, j, []);
    } else {
      var init, last := order[..|order| - 1], order[|order| - 1];
      assert order == init + [last];
      assert IndicesOf(order) == IndicesOf(init) + {last};
      hide EndsAtTheLastMissing, AcceptMore, Slice, Count, MissingFrom, IndicesOf, Refilled, Recoverable, Resends;
      ResendsCompleteOnTheLastMissing(sh, id, file, init, last);
      var (before, answers) := Resends(sh, room, id, file, order);
      NotYetMeansRefilled(sh, id, file, init, last, before, answers);
      OneMoreAnswer(sh, before, id, file, order, j, answers);
    }
  }

  ghost predicate Within(order: seq<nat>, n: nat) {
    forall i :: 0 <= i < |order| ==> order[i] < n
  }

  /** Once no removal of a failed assembly is pending, one re-send is enough exactly when no removal
      of another chunk took effect. */
  lemma OneResendIsEnoughIff(sh: Shared, id: Id, file: seq<byte>, j: nat, calls: Calls, resent: nat)
    requires CompletesWith(sh, id, file, j) && calls.chunkPut == Done && resent < Count(file)
    requires forall i: nat :: i < Count(file) && i != j ==> ChunkStored(sh, sh.sessions[id], file, i)
    requires !(ReachesRemovals(file, calls) && EveryRemovalReported(file, calls))
    ensures var room := sh.sessions[id].Room();
            var failed := Settled(AcceptMore(sh, room, id, j, Slice(file, j), calls), calls.removes);
            var (after, r) := AcceptMore(failed, room, id, resent, Slice(file, resent), AllDone);
            var done := Accepted(id, Count(file), Count(file), true);
            && (r == done <==> Removed(file, calls) <= {resent})
            && (r == done ==> FileObject(room, id) in after.objects && after.objects[FileObject(room, id)] == file)
  {
    FailedAssemblyIsRecoverable(sh, id, file, j, calls);
    hide AcceptMore, WithoutChunks, Removed, ReachesRemovals, Slice, Settled, EveryRemovalReported, StillInFlight;
    var failed := Settled(AcceptMore(sh, sh.sessions[id].Room(), id, j, Slice(file, j), calls), calls.removes);
    OthersStoredMeansNoOtherMissing(failed, failed.sessions[id], file, resent);
    ResendCompletesIffNoOtherChunkIsMissing(failed, id, file, resent);
  }

  /** The failing input: every removal but chunk 0's takes effect. Re-sending chunk 0, the only one
      still stored once they have all landed, does not complete a file of several chunks. */
  lemma PartialRemovalNeedsMoreThanOneResend(sh: Shared, id: Id, file: seq<byte>, j: nat)
    requires CompletesWith(sh, id, file, j) && Count(file) > 1
    requires forall i: nat :: i < Count(file) && i != j ==> ChunkStored(sh, sh.sessions[id], file, i)
    ensures var room := sh.sessions[id].Room();
            var calls := AllDone.(removes := i => if i == 0 then Refused else Done);
            var failed := AcceptMore(sh, room, id, j, Slice(file, j), calls);
            var (after, r) := AcceptMore(Settled(failed, calls.removes), room, id, 0, Slice(file, 0), AllDone);
            AnswerOf(failed.1) == Some(Rejected(Broke)) && r != Accepted(id, Count(file), Count(file), true)
  {
    var calls := AllDone.(removes := i => if i == 0 then Refused else Done);
    assert !calls.removes(0).Reported() && 1 in Removed(file, calls);
    hide AcceptMore, Slice, Removed, WithoutChunks, Settled, StillInFlight, LeavesMissing;
    FailedAssemblyIsRecoverable(sh, id, file, j, calls);
    OneResendIsEnoughIff(sh, id, file, j, calls, 0);
  }
}
