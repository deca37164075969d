/** When the abandoned-upload sweep of apps/api/src/sweeper/expiry-sweeper.service.ts takes an
    upload: it goes by the time of opening alone, so a chunk received a moment ago saves nothing. */
module SweepTiming {
  import opened Common
  import opened Chunking
  import opened ObjectStorage
  import opened UploadSessions
  import opened Pipeline
  import opened PipelineSafety
  import opened PipelineTheorems
  import opened ChunkedUpload
  import opened UploadRuns

  // --- An upload's age, over every run -------------------------------------------------

  /** The Transfer either gives up its session for good or keeps its opening time. */
  ghost predicate KeepsOpening(sessions: Sessions, sessions': Sessions, id: Id) {
    id in sessions' ==> id in sessions && sessions'[id].openedAt == sessions[id].openedAt
  }

  lemma RequestKeepsOpening(sh: Shared, r: Request, c: Choice, id: Id)
    ensures KeepsOpening(sh.sessions, RequestStep(sh, r, c).0.sessions, id)
  {
    hide Validated, ReadChunk;
  }

  lemma SweepKeepsOpening(sh: Shared, p: Sweep, c: Choice, id: Id)
    ensures KeepsOpening(sh.sessions, SweepStep(sh, p, c).0.sessions, id)
  {
    hide BeginReaping, ReapNext;
  }

  lemma StepKeepsOpening(cfg: Config, w: World, step: Step, id: Id)
    requires id in w.shared.admitted
    ensures KeepsOpening(w.shared.sessions, Apply(cfg, w, step).shared.sessions, id)
  {
    hide RequestStep, SweepStep, ReaderStep, ResumeRequest, Honest;
    if step.Advance? && step.q in w.requests {
      RequestKeepsOpening(w.shared, w.requests[step.q], step.choice, id);
    } else if step.SweepOn? && step.p in w.sweeps {
      SweepKeepsOpening(w.shared, w.sweeps[step.p], step.choice, id);
    }
  }

  lemma {:induction false} OpeningTimeIsFixed(cfg: Config, w: World, picks: seq<Step>, id: Id)
    requires Inv(cfg, w) && id in w.shared.admitted
    ensures KeepsOpening(w.shared.sessions, RunFrom(cfg, w, picks).shared.sessions, id)
  {
    hide Apply, Inv;
    if picks != [] {
      var before := RunFrom(cfg, w, picks[..|picks| - 1]);
      OpeningTimeIsFixed(cfg, w, picks[..|picks| - 1], id);
      InvIsKept(cfg, w, picks[..|picks| - 1]);
      StepKeepsOpening(cfg, before, picks[|picks| - 1], id);
    }
  }

  /** The upload is among those the sweep is about to reap. */
  ghost predicate Queued(p: Sweep, id: Id) {
    p.Reaping? && exists i :: 0 <= i < |p.queue| && p.queue[i].Tid() == id
  }

  lemma ScanTakesTheOld(cfg: Config, sh: Shared, order: seq<Id>, id: Id)
    requires SessionsOk(cfg, sh) && Lists(order, sh.sessions.Keys) && id in sh.sessions
    ensures Queued(BeginReaping(sh, order), id) <==> sh.sessions[id].openedAt < sh.now - 3600000
  {
    forall other | other in sh.sessions ensures sh.sessions[other].Tid() == other {
      assert SessionOk(cfg, sh, other);
    }
    hide SessionOk, SessionsOk, StaleIn;
    StaleInIsExact(sh.sessions, order, sh.now - ABANDONED_UPLOAD_TTL_MS);
    var queue := BeginReaping(sh, order).queue;
    if sh.sessions[id] in queue {
      var i :| 0 <= i < |queue| && queue[i] == sh.sessions[id];
      assert queue[i].Tid() == id;
    }
    if Queued(BeginReaping(sh, order), id) {
      var i :| 0 <= i < |queue| && queue[i].Tid() == id;
      assert queue[i] in queue;
    }
  }

  lemma OpenedNow(cfg: Config, w: World, step: Step)
    requires Inv(cfg, w) && Opens(cfg, w, step)
    ensures var sh := Apply(cfg, w, step).shared;
            && step.input.transferId in sh.admitted
            && sh.sessions[step.input.transferId].openedAt == w.shared.now
  {
    assert step.input.transferId !in w.shared.sessions.Keys;
  }

  lemma ScanStep(cfg: Config, w: World, p: nat, order: seq<Id>)
    requires p in w.sweeps && w.sweeps[p].Expiring?
    ensures Apply(cfg, w, SweepOn(p, Scan(order))) == w.(sweeps := w.sweeps[p := BeginReaping(w.shared, order)])
  {
    hide BeginReaping;
  }

  lemma ScanOfRun(cfg: Config, w: World, order: seq<Id>, id: Id)
    requires Inv(cfg, w) && Lists(order, w.shared.sessions.Keys) && id in w.shared.sessions
    ensures Queued(BeginReaping(w.shared, order), id) <==> w.shared.sessions[id].openedAt < w.shared.now - 3600000
  {
    hide Queued, BeginReaping, SessionsOk, ProcessesOk, OneSweep, Lists;
    ScanTakesTheOld(cfg, w.shared, order, id);
  }

  lemma OpenedAndKept(cfg: Config, w: World, open: Step, later: seq<Step>)
    requires Inv(cfg, w) && Opens(cfg, w, open)
    ensures var sessions := RunFrom(cfg, Apply(cfg, w, open), later).shared.sessions;
            open.input.transferId in sessions ==> sessions[open.input.transferId].openedAt == w.shared.now
  {
    OpenedNow(cfg, w, open);
    hide RunFrom, Opens, SharedOk, ProcessesOk, OneSweep, Apply;
    StepIsSafe(cfg, w, open, Apply(cfg, w, open));
    OneSweepIsKept(cfg, w, open);
    OpeningTimeIsFixed(cfg, Apply(cfg, w, open), later, open.input.transferId);
  }

  /** In every run: of an upload that is still held, whatever has been received or re-sent since, a
      sweep that scans now queues it if and only if it was opened more than an hour ago. So a live
      upload is safe from the scan exactly while it is at most an hour old. */
  lemma SweepsGoByTheOpening(cfg: Config, picks: seq<Step>, open: Step, later: seq<Step>, p: nat, order: seq<Id>)
    requires Opens(cfg, Run(cfg, picks), open)
    requires var now := Run(cfg, picks + ([open] + later));
             && p in now.sweeps && now.sweeps[p].Expiring? && Lists(order, now.shared.sessions.Keys)
             && open.input.transferId in now.shared.sessions
    ensures var now := Run(cfg, picks + ([open] + later));
            var after := Apply(cfg, now, SweepOn(p, Scan(order)));
            && p in after.sweeps && after.shared == now.shared
            && (Queued(after.sweeps[p], open.input.transferId)
                <==> Run(cfg, picks).shared.now + 3600000 < now.shared.now)
  {
    var id := open.input.transferId;
    var w, now := Run(cfg, picks), Run(cfg, picks + ([open] + later));
    hide Inv, Opens, Queued, BeginReaping, RunFrom, Lists, Apply;
    InvHoldsThroughout(cfg, picks);
    InvHoldsThroughout(cfg, picks + ([open] + later));
    RunsCompose(cfg, Init, picks, [open] + later);
    OneMore(cfg, w, open, later);
    OpenedAndKept(cfg, w, open, later);
    ScanOfRun(cfg, now, order, id);
    ScanStep(cfg, now, p, order);
  }

  // --- A live upload that is reaped ------------------------------------------------------

  /** Chunk 0 opens the upload and is stored; an hour and a millisecond pass; a sweep starts. */
  function SlowFirstChunk(input: SessionInput, file: seq<byte>): seq<Step> {
    [OpenUpload(0, input, 0, Slice(file, 0))]
    + ([Advance(0, Proceed(Done))] + ([Advance(0, Proceed(Done))] + ([Advance(0, Proceed(Done))]
    + ([Wait(3600001)] + ([StartSweep(0)] + [])))))
  }

  /** Chunk 0 is marked received and, at the same instant, the sweep scans. */
  function MarkThenScan(id: Id): seq<Step> {
    [Advance(0, Proceed(Done))] + ([SweepOn(0, Scan([id]))] + [])
  }

  /** The stores after a first chunk that is stored but not marked. */
  function Stored(input: SessionInput, file: seq<byte>): Shared {
    Empty.(objects := map[ChunkObject(input.roomId, input.transferId, 0) := Slice(file, 0)],
           sessions := map[input.transferId := Session(input, {}, 0)],
           transfers := map[input.transferId := input.roomId],
           payloads := map[input.transferId := FileObject(input.roomId, input.transferId)],
           admitted := map[input.transferId := input.roomId])
  }

  /** The world in which the chunk is about to be marked and the sweep about to scan. */
  function AboutToScan(input: SessionInput, file: seq<byte>): World {
    World(Stored(input, file).(now := 3600001, sweeping := true), map[0 := Marking(Session(input, {}, 0), 0)],
          map[], map[0 := Expiring], map[])
  }

  lemma FirstChunkIsStored(max: int, input: SessionInput, file: seq<byte>)
    requires ClientInput(input, file) && |file| <= max
    ensures var s, chunk := Session(input, {}, 0), Slice(file, 0);
            var (sh1, r1) := OpenRequest(max, Empty, input, 0, chunk);
            var (sh2, r2) := RequestStep(sh1, r1, Proceed(Done));
            var (sh3, r3) := RequestStep(sh2, r2, Proceed(Done));
            RequestStep(sh3, r3, Proceed(Done)) == (Stored(input, file), Marking(s, 0))
  {
    assert HeldBy(Empty.sessions, input.roomId) == {};
    var s := Session(input, {}, 0);
    ValidChunkIffTrueShape(file, input.totalChunks, 0, |Slice(file, 0)|);
    assert Validated(s, 0, Slice(file, 0)).None?;
    hide Slice, Count, Validated;
  }

  lemma FirstChunkArrives(cfg: Config, input: SessionInput, file: seq<byte>, rest: seq<Step>)
    requires input.transferId in cfg.files && cfg.files[input.transferId] == file
    requires ClientInput(input, file) && |file| <= cfg.maxFileSizeBytes
    ensures var go := Advance(0, Proceed(Done));
            var stored := (Stored(input, file), Marking(Session(input, {}, 0), 0));
            (RunFrom(cfg, Init, [OpenUpload(0, input, 0, Slice(file, 0))] + ([go] + ([go] + ([go] + rest))))
            == RunFrom(cfg, At(Init, 0, stored), rest))
  {
    var go, open := Advance(0, Proceed(Done)), OpenUpload(0, input, 0, Slice(file, 0));
    FirstChunkIsStored(cfg.maxFileSizeBytes, input, file);
    hide RunFrom, RequestStep, OpenRequest, Slice, Count;
    var one := OpenRequest(cfg.maxFileSizeBytes, Empty, input, 0, Slice(file, 0));
    assert Apply(cfg, Init, open) == At(Init, 0, one);
    hide Apply, At, ClientInput;
    var two := RequestStep(one.0, one.1, Proceed(Done));
    var three := RequestStep(two.0, two.1, Proceed(Done));
    OneMore(cfg, Init, open, [go] + ([go] + ([go] + rest)));
    AdvanceAt(cfg, Init, 0, one, Proceed(Done), [go] + ([go] + rest));
    AdvanceAt(cfg, Init, 0, two, Proceed(Done), [go] + rest);
    AdvanceAt(cfg, Init, 0, three, Proceed(Done), rest);
  }

  lemma SlowFirstChunkLeads(cfg: Config, input: SessionInput, file: seq<byte>)
    requires input.transferId in cfg.files && cfg.files[input.transferId] == file
    requires ClientInput(input, file) && |file| <= cfg.maxFileSizeBytes
    ensures Run(cfg, SlowFirstChunk(input, file)) == AboutToScan(input, file)
  {
    hide RunFrom, Slice, Count, ClientInput;
    var wait, sweep := Wait(3600001), StartSweep(0);
    var stored := At(Init, 0, (Stored(input, file), Marking(Session(input, {}, 0), 0)));
    FirstChunkArrives(cfg, input, file, [wait] + ([sweep] + []));
    OneMore(cfg, stored, wait, [sweep] + []);
    OneMore(cfg, Apply(cfg, stored, wait), sweep, []);
    NoPicks(cfg, Apply(cfg, Apply(cfg, stored, wait), sweep));
  }

  lemma MarkedThenScanned(cfg: Config, input: SessionInput, file: seq<byte>)
    requires input.totalChunks > 1
    ensures var before, id := AboutToScan(input, file), input.transferId;
            var marked := Apply(cfg, before, Advance(0, Proceed(Done)));
            var after := Apply(cfg, marked, SweepOn(0, Scan([id])));
            && id in after.shared.sessions && after.shared.sessions[id] == Session(input, {0}, 0)
            && after.requests == map[0 := Accepted(id, 1, input.totalChunks, false)]
            && after.shared.now == before.shared.now && 0 in after.sweeps && Queued(after.sweeps[0], id)
  {
    hide Slice;
    var before, id := AboutToScan(input, file), input.transferId;
    var u := Session(input, {0}, 0);
    assert {} + {0} == {0};
    var sessions := before.shared.sessions[id := u];
    assert MarkChunk(before.shared, Session(input, {}, 0), 0)
        == (before.shared.(sessions := sessions), Accepted(id, 1, input.totalChunks, false));
    assert [id][..0] == [];
    assert StaleIn(sessions, [id], 1) == [u];
    assert BeginReaping(before.shared.(sessions := sessions), [id]).queue[0] == u;
  }

  /** An upload that is anything but untouched is queued for reaping: of a file of several chunks, the
      first is marked received and answered, and the sweep that scans at the same instant takes it. */
  lemma LiveUploadIsQueued(cfg: Config, input: SessionInput)
    requires input.transferId in cfg.files && ClientInput(input, cfg.files[input.transferId])
    requires Count(cfg.files[input.transferId]) > 1 && input.fileSizeBytes <= cfg.maxFileSizeBytes
    ensures var id, file := input.transferId, cfg.files[input.transferId];
            var before := Run(cfg, SlowFirstChunk(input, file));
            var after := RunFrom(cfg, before, MarkThenScan(id));
            && id in before.shared.sessions && before.shared.sessions[id].receivedChunks == {}
            && id in after.shared.sessions && after.shared.sessions[id].receivedChunks == {0}
            && 0 in after.requests && after.requests[0] == Accepted(id, 1, Count(file), false)
            && after.shared.now == before.shared.now
            && 0 in after.sweeps && Queued(after.sweeps[0], id)
  {
    var id, file := input.transferId, cfg.files[input.transferId];
    SlowFirstChunkLeads(cfg, input, file);
    MarkedThenScanned(cfg, input, file);
    hide RunFrom, Apply, Slice, Count, Queued;
    var before := AboutToScan(input, file);
    var marked := Apply(cfg, before, Advance(0, Proceed(Done)));
    OneMore(cfg, before, Advance(0, Proceed(Done)), [SweepOn(0, Scan([id]))] + []);
    OneMore(cfg, marked, SweepOn(0, Scan([id])), []);
    NoPicks(cfg, Apply(cfg, marked, SweepOn(0, Scan([id]))));
  }
}
