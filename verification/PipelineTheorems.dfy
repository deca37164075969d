/** What the transfer pipeline guarantees, over every run: every interleaving of uploads,
    duplicates, downloads, sweeps and purges, with any storage or database call failing. */
module PipelineTheorems {
  import opened Common
  import opened Chunking
  import opened ObjectStorage
  import opened UploadSessions
  import opened Pipeline
  import opened PipelineSafety

  /** A download never emits a wrong byte; one that ends normally has emitted the whole
      file; one that hops to the assembled object reads from inside it. */
  lemma DownloadsAreTrue(cfg: Config, picks: seq<Step>, d: nat)
    requires d in Run(cfg, picks).readers
    ensures var reader := Run(cfg, picks).readers[d];
            && (reader.Emitted() != [] ==> reader.id in cfg.files && reader.Emitted() <= cfg.files[reader.id])
            && (reader.Ended? ==> reader.id in cfg.files && reader.emitted == cfg.files[reader.id])
            && (reader.Hopping? ==> reader.id in cfg.files && reader.next * CHUNK_SIZE_BYTES < |cfg.files[reader.id]|)
  {
    InvHoldsThroughout(cfg, picks);
    assert ReaderOk(cfg, Run(cfg, picks).shared, Run(cfg, picks).readers[d]);
  }

  /** Session gone means file there: a reader sent to the assembled object, hopping or from the
      start, finds it and finishes the download, unless the upload's opening was rolled back or a
      purge or a reap has gone after the object. */
  lemma HopFinishesTheFile(cfg: Config, picks: seq<Step>, d: nat)
    requires d in Run(cfg, picks).readers
    ensures var sh := Run(cfg, picks).shared;
            var reader := Run(cfg, picks).readers[d];
            (reader.Hopping? || reader.ReadingWhole?) && reader.id !in sh.erased && reader.id !in sh.ends.rolledBack
            ==> && reader.id in sh.ends.completed && reader.id in cfg.files
                && ReaderStep(sh, reader, true) == Ended(reader.id, cfg.files[reader.id])
  {
    InvHoldsThroughout(cfg, picks);
    var w := Run(cfg, picks);
    assert ReaderOk(cfg, w.shared, w.readers[d]);
    ReaderStepIsSafe(cfg, w.shared, w.readers[d], true);
  }

  /** A chunk that a follower found received can be missing when it is fetched only if its Transfer
      was assembled meanwhile, which stores the whole file, or a sweep began to reap it. */
  lemma FetchedChunksAreMissingOnlyIf(cfg: Config, picks: seq<Step>, d: nat)
    requires d in Run(cfg, picks).readers && Run(cfg, picks).readers[d].Fetching?
    ensures var sh := Run(cfg, picks).shared;
            var reader := Run(cfg, picks).readers[d];
            ChunkObject(reader.room, reader.id, reader.next) !in sh.objects ==>
              || reader.id in sh.reaped
              || (reader.id in sh.assembled
                  && (reader.id in sh.erased || (reader.key in sh.objects && reader.id in cfg.files
                                                 && sh.objects[reader.key] == cfg.files[reader.id])))
  {
    InvHoldsThroughout(cfg, picks);
    var sh, reader := Run(cfg, picks).shared, Run(cfg, picks).readers[d];
    assert ReaderOk(cfg, sh, reader);
    assert reader.key in sh.objects ==> TrueObject(cfg, reader.key, sh.objects[reader.key]);
  }

  /** A session that has received anything has the right chunk count, and its received
      indices fill that count exactly when none is missing. */
  lemma CountingIsExact(cfg: Config, picks: seq<Step>, id: Id)
    requires id in Run(cfg, picks).shared.sessions
    ensures var s := Run(cfg, picks).shared.sessions[id];
            s.receivedChunks != {} ==>
              && id in cfg.files && s.Total() == Count(cfg.files[id])
              && (forall i :: i in s.receivedChunks ==> i < s.Total())
              && (|s.receivedChunks| == s.Total() <==> forall i: nat | i < Count(cfg.files[id]) :: i in s.receivedChunks)
  {
    InvHoldsThroughout(cfg, picks);
    assert SessionOk(cfg, Run(cfg, picks).shared, id);
    var s := Run(cfg, picks).shared.sessions[id];
    if s.receivedChunks != {} {
      FullExactlyWhenCountMatches(s.receivedChunks, Count(cfg.files[id]));
    }
  }

  /** No received byte is lost: while a Transfer holds its slot and no sweep has begun to
      reap it, either every received chunk is stored with its true bytes, or the assembled
      file was written and is still there unless a purge removed it. */
  lemma ReceivedBytesAreKept(cfg: Config, picks: seq<Step>, id: Id)
    requires id in Run(cfg, picks).shared.sessions
    ensures var sh := Run(cfg, picks).shared;
            var s := sh.sessions[id];
            id !in sh.reaped ==>
              || (forall i :: i in s.receivedChunks ==>
                    && ChunkKey(s, i) in sh.objects
                    && id in cfg.files && sh.objects[ChunkKey(s, i)] == Slice(cfg.files[id], i))
              || (id in sh.assembled
                  && (id in sh.erased
                      || (FileKey(s) in sh.objects && id in cfg.files && sh.objects[FileKey(s)] == cfg.files[id])))
  {
    InvHoldsThroughout(cfg, picks);
    var sh := Run(cfg, picks).shared;
    assert SessionOk(cfg, sh, id);
    var s := sh.sessions[id];
    if id !in sh.reaped && id !in sh.assembled {
      forall i | i in s.receivedChunks
        ensures ChunkKey(s, i) in sh.objects && sh.objects[ChunkKey(s, i)] == Slice(cfg.files[id], i)
      {
        assert Safe(sh, s, i);
        assert TrueObject(cfg, ChunkKey(s, i), sh.objects[ChunkKey(s, i)]);
      }
    } else if id in sh.assembled && id !in sh.erased {
      assert TrueObject(cfg, FileKey(s), sh.objects[FileKey(s)]);
    }
  }

  /** The final object of a Transfer is absent or exactly the file, in every state. */
  lemma FinalObjectIsWholeOrAbsent(cfg: Config, picks: seq<Step>, room: Id, id: Id)
    ensures var objects := Run(cfg, picks).shared.objects;
            FileObject(room, id) in objects ==> id in cfg.files && objects[FileObject(room, id)] == cfg.files[id]
  {
    InvHoldsThroughout(cfg, picks);
    var objects := Run(cfg, picks).shared.objects;
    assert FileObject(room, id) in objects ==> TrueObject(cfg, FileObject(room, id), objects[FileObject(room, id)]);
  }

  /** A response says `complete` exactly when it counts every chunk. After it does, and for
      ever after, the stored file is the uploaded one unless a purge or a reap removed it. */
  lemma CompleteMeansStored(cfg: Config, picks: seq<Step>, later: seq<Step>, q: nat)
    requires q in Run(cfg, picks).requests && Run(cfg, picks).requests[q].Accepted?
    ensures var r := Run(cfg, picks).requests[q];
            var sh := Run(cfg, picks + later).shared;
            && r.id in cfg.files && r.total == Count(cfg.files[r.id])
            && (r.complete <==> r.received == r.total)
            && (r.complete && r.id !in sh.erased ==>
                  && r.id in sh.admitted
                  && FileObject(sh.admitted[r.id], r.id) in sh.objects
                  && sh.objects[FileObject(sh.admitted[r.id], r.id)] == cfg.files[r.id])
  {
    var w := Run(cfg, picks);
    InvHoldsThroughout(cfg, picks);
    assert RequestOk(cfg, w.shared, w.requests[q]);
    RunsCompose(cfg, Init, picks, later);
    InvIsKept(cfg, w, later);
    var sh := Run(cfg, picks + later).shared;
    var r := w.requests[q];
    if r.complete && r.id !in sh.erased {
      assert r.id in sh.assembled;
      var key := FileObject(sh.admitted[r.id], r.id);
      assert TrueObject(cfg, key, sh.objects[key]);
    }
  }

  lemma AnsweredStepsAreSilent(sh: Shared, r: Request, c: Choice)
    requires AnswerOf(r).Some?
    ensures var (sh', r') := RequestStep(sh, r, c);
            && AnswerOf(r') == AnswerOf(r) && InFlight(r') <= InFlight(r)
            && sh' == sh.(objects := sh'.objects)
            && (forall k :: k in sh'.objects ==> k in sh.objects && sh'.objects[k] == sh.objects[k])
            && (forall k :: k in sh.objects && k !in sh'.objects ==>
                  r.Clearing? && k.ChunkObject? && k.index in r.pending && k == ChunkKey(r.session, k.index))
  {
  }

  /** An answer is final, and all that can still happen for its request is that removals in flight
      land: none is ever added. */
  lemma {:induction false} AnswersAreFinal(cfg: Config, w: World, picks: seq<Step>, q: nat)
    requires q in w.requests && AnswerOf(w.requests[q]).Some?
    ensures var later := RunFrom(cfg, w, picks);
            q in later.requests && AnswerOf(later.requests[q]) == AnswerOf(w.requests[q])
            && InFlight(later.requests[q]) <= InFlight(w.requests[q])
  {
    hide RequestStep, SweepStep, PurgeStep, ReaderStep, OpenRequest, ResumeRequest, MayOpen, Honest, AnswerOf, InFlight;
    if picks != [] {
      AnswersAreFinal(cfg, w, picks[..|picks| - 1], q);
      var before, last := RunFrom(cfg, w, picks[..|picks| - 1]), picks[|picks| - 1];
      if last.Advance? && last.q == q {
        AnsweredStepsAreSilent(before.shared, before.requests[q], last.choice);
      }
    }
  }

  function AdmittedTo(sh: Shared, room: Id): set<Id> {
    set id | id in sh.admitted && sh.admitted[id] == room
  }

  /** A Room never holds more than ten slots, and holds the Transfers admitted to it minus
      those completed, rolled back or collected by a sweep. */
  lemma SlotsAreConserved(cfg: Config, picks: seq<Step>, room: Id)
    ensures var sh := Run(cfg, picks).shared;
            var ended := sh.ends.completed + sh.ends.rolledBack + sh.ends.collected;
            && HeldBy(sh.sessions, room) == AdmittedTo(sh, room) - ended
            && |HeldBy(sh.sessions, room)| == |AdmittedTo(sh, room)| - |AdmittedTo(sh, room) * ended|
            && |HeldBy(sh.sessions, room)| <= 10
  {
    InvHoldsThroughout(cfg, picks);
    HeldIsAdmittedAndNotEnded(cfg, Run(cfg, picks).shared, room);
  }

  lemma HeldIsAdmittedAndNotEnded(cfg: Config, sh: Shared, room: Id)
    requires SessionsOk(cfg, sh) && SlotsOk(sh.sessions, sh.admitted, sh.ends.All())
    ensures HeldBy(sh.sessions, room) == AdmittedTo(sh, room) - sh.ends.All()
    ensures |HeldBy(sh.sessions, room)| == |AdmittedTo(sh, room)| - |AdmittedTo(sh, room) * sh.ends.All()|
    ensures |HeldBy(sh.sessions, room)| <= 10
  {
    var ended := sh.ends.All();
    forall id ensures id in HeldBy(sh.sessions, room) <==> id in AdmittedTo(sh, room) - ended {
      assert id in sh.sessions ==> SessionOk(cfg, sh, id);
      assert id in sh.sessions.Keys <==> id in sh.admitted.Keys - ended;
    }
    assert AdmittedTo(sh, room) == HeldBy(sh.sessions, room) + AdmittedTo(sh, room) * ended;
  }

  /** Some request was told that the upload of `id` is complete. */
  ghost predicate ToldComplete(requests: map<nat, Request>, id: Id) {
    exists q :: q in requests && requests[q].Accepted? && requests[q].id == id && requests[q].complete
  }

  lemma AnswersStay(cfg: Config, w: World, step: Step, id: Id)
    requires ToldComplete(w.requests, id)
    ensures ToldComplete(Apply(cfg, w, step).requests, id)
  {
    var q :| q in w.requests && w.requests[q].Accepted? && w.requests[q].id == id && w.requests[q].complete;
    hide OpenRequest, ResumeRequest, SweepStep, PurgeStep, ReaderStep;
    assert q in Apply(cfg, w, step).requests && Apply(cfg, w, step).requests[q] == w.requests[q];
  }

  lemma OnlyCompletionCompletes(sh: Shared, r: Request, c: Choice, id: Id)
    requires id in RequestStep(sh, r, c).0.ends.completed && id !in sh.ends.completed
    ensures RequestStep(sh, r, c).1 == Accepted(id, |r.session.receivedChunks|, r.session.Total(), true)
  {
  }

  lemma SweepsCompleteNothing(sh: Shared, p: Sweep, c: Choice)
    ensures SweepStep(sh, p, c).0.ends.completed == sh.ends.completed
  {
  }

  lemma CompletionIsAnswered(cfg: Config, w: World, step: Step, id: Id)
    requires id in Apply(cfg, w, step).shared.ends.completed && id !in w.shared.ends.completed
    ensures ToldComplete(Apply(cfg, w, step).requests, id)
  {
    if step.Advance? && step.q in w.requests {
      OnlyCompletionCompletes(w.shared, w.requests[step.q], step.choice, id);
      assert step.q in Apply(cfg, w, step).requests;
    } else if step.SweepOn? && step.p in w.sweeps {
      SweepsCompleteNothing(w.shared, w.sweeps[step.p], step.choice);
    }
  }

  lemma {:induction false} EveryCompletionIsAnswered(cfg: Config, picks: seq<Step>, id: Id)
    requires id in Run(cfg, picks).shared.ends.completed
    ensures ToldComplete(Run(cfg, picks).requests, id)
  {
    hide Apply, ToldComplete;
    var before := Run(cfg, picks[..|picks| - 1]);
    if id in before.shared.ends.completed {
      EveryCompletionIsAnswered(cfg, picks[..|picks| - 1], id);
      AnswersStay(cfg, before, picks[|picks| - 1], id);
    } else {
      CompletionIsAnswered(cfg, before, picks[|picks| - 1], id);
    }
  }

  /** How slots are given back: the completed uploads are exactly those some request was told
      are complete, and their file was assembled; a sweep collects an upload only after going
      for its final object; nothing else ends an upload that was admitted. */
  lemma SlotsEndAsTold(cfg: Config, picks: seq<Step>, id: Id)
    ensures var w := Run(cfg, picks);
            var sh := w.shared;
            && (id in sh.ends.completed <==> ToldComplete(w.requests, id))
            && (id in sh.ends.completed ==> id in sh.assembled)
            && (id in sh.ends.collected ==> id in sh.erased)
            && (id in sh.admitted && id !in sh.sessions <==> id in sh.ends.All())
  {
    InvHoldsThroughout(cfg, picks);
    var w := Run(cfg, picks);
    if id in w.shared.ends.completed {
      EveryCompletionIsAnswered(cfg, picks, id);
    }
    if ToldComplete(w.requests, id) {
      var q :| q in w.requests && w.requests[q].Accepted? && w.requests[q].id == id && w.requests[q].complete;
      assert RequestOk(cfg, w.shared, w.requests[q]);
    }
    assert id in w.shared.sessions <==> id in w.shared.admitted.Keys - w.shared.ends.All();
  }

  /** A new upload within the size limit is refused exactly when its Room holds ten. */
  lemma RefusedExactlyWhenFull(cfg: Config, picks: seq<Step>, input: SessionInput, index: nat, chunk: seq<byte>)
    requires MayOpen(cfg, Run(cfg, picks).shared, input) && input.fileSizeBytes <= cfg.maxFileSizeBytes
    ensures var sh := Run(cfg, picks).shared;
            var r := OpenRequest(cfg.maxFileSizeBytes, sh, input, index, chunk).1;
            && (r == Rejected(RoomFull) <==> |HeldBy(sh.sessions, input.roomId)| == 10)
            && (r == Rejected(RoomFull) || r.CreatingTransfer?)
  {
    InvHoldsThroughout(cfg, picks);
    var sh := Run(cfg, picks).shared;
    assert |HeldBy(sh.sessions, input.roomId)| <= MAX_CONCURRENT_TRANSFERS_PER_ROOM;
  }

  /** The step opens the Transfer: it is taken, and the session is granted. */
  ghost predicate Opens(cfg: Config, w: World, step: Step) {
    && step.OpenUpload? && step.q !in w.requests && MayOpen(cfg, w.shared, step.input)
    && Honest(cfg, step.input.transferId, step.index, step.chunk)
    && step.input.transferId in Apply(cfg, w, step).shared.sessions
  }

  /** Two sweeps are never under way together, and a sweep only ever reaps a session opened
      more than an hour ago. */
  lemma SweepsAreExclusiveAndPatient(cfg: Config, picks: seq<Step>, p: nat, q: nat)
    requires var sweeps := Run(cfg, picks).sweeps;
             p in sweeps && q in sweeps && !sweeps[p].Swept? && !sweeps[q].Swept?
    ensures p == q
    ensures var w := Run(cfg, picks);
            w.sweeps[p].Reaping? ==> forall s :: s in w.sweeps[p].queue ==> s.openedAt < w.shared.now - 3600000
  {
    InvHoldsThroughout(cfg, picks);
    assert SweepOk(cfg, Run(cfg, picks).shared, Run(cfg, picks).sweeps[p]);
  }
}
