/** Who may download what, and when a download fails
    (apps/api/src/transfer/transfer-download.service.ts). */
module DownloadOpening {
  import opened Common
  import opened Chunking
  import opened ObjectStorage
  import opened UploadSessions
  import opened Pipeline
  import opened PipelineSafety
  import TransferDownload

  ghost predicate AdmittedTo(sh: Shared, id: Id, room: Id) {
    id in sh.admitted && sh.admitted[id] == room
  }

  /** A download of `id` asked for in `room`: past its lookups, or with a byte sent, the Transfer is of
      that Room. */
  ghost predicate AskedIn(sh: Shared, d: Reader, id: Id, room: Id) {
    && d.id == id
    && (d.FindingPayload? || d.FindingTransfer? ==> d.room == room)
    && (d.FindingPayload? || d.FindingTransfer? || (d.Failed? && d.emitted == []) || AdmittedTo(sh, id, room))
  }

  lemma ReadingStaysInTheRoom(cfg: Config, sh: Shared, d: Reader, fine: bool, id: Id, room: Id)
    requires SharedOk(cfg, sh) && ReaderOk(cfg, sh, d) && AskedIn(sh, d, id, room)
    ensures AskedIn(sh, ReaderStep(sh, d, fine), id, room)
  {
    hide ObjectsOk, SessionsOk, SlotsOk, EndsOk, FinalsOk;
  }

  lemma AskedInIsStable(sh: Shared, sh': Shared, d: Reader, id: Id, room: Id)
    requires AskedIn(sh, d, id, room) && Guarantee(sh, sh')
    ensures AskedIn(sh', d, id, room)
  {
  }

  lemma OneStepInTheRoom(cfg: Config, w: World, step: Step, d: nat, id: Id, room: Id)
    requires Inv(cfg, w) && d in w.readers && AskedIn(w.shared, w.readers[d], id, room)
    ensures var w' := Apply(cfg, w, step); d in w'.readers && AskedIn(w'.shared, w'.readers[d], id, room)
  {
    TransferDownload.ReadersMoveByReading(cfg, w, step, d);
    StepIsSafe(cfg, w, step, Apply(cfg, w, step));
    assert ReaderOk(cfg, w.shared, w.readers[d]);
    if step.Read? && step.d == d { ReadingStaysInTheRoom(cfg, w.shared, w.readers[d], step.fine, id, room); }
    hide ReaderStep, RequestStep, SharedOk, ProcessesOk, OneSweep, Guarantee, AskedIn, Apply;
    AskedInIsStable(w.shared, Apply(cfg, w, step).shared, Apply(cfg, w, step).readers[d], id, room);
  }

  lemma {:induction false} AskedInThroughout(cfg: Config, w: World, later: seq<Step>, d: nat, id: Id, room: Id)
    requires Inv(cfg, w) && d in w.readers && AskedIn(w.shared, w.readers[d], id, room)
    ensures var now := RunFrom(cfg, w, later);
            Inv(cfg, now) && d in now.readers && AskedIn(now.shared, now.readers[d], id, room)
  {
    hide Apply, Inv, AskedIn;
    if later != [] {
      AskedInThroughout(cfg, w, later[..|later| - 1], d, id, room);
      OneStepInTheRoom(cfg, RunFrom(cfg, w, later[..|later| - 1]), later[|later| - 1], d, id, room);
    }
    InvIsKept(cfg, w, later);
  }

  lemma StartingKeepsInv(cfg: Config, picks: seq<Step>, start: Step)
    ensures Inv(cfg, Run(cfg, picks)) && Inv(cfg, Apply(cfg, Run(cfg, picks), start))
  {
    hide Inv, Apply;
    InvHoldsThroughout(cfg, picks);
    InvHoldsThroughout(cfg, picks + [start]);
    assert (picks + [start])[..|picks|] == picks;
  }

  /** In every run: a download asked for in a Room sends a byte, or ends, only if the Transfer was
      admitted to that Room. */
  lemma DownloadsStayInTheirRoom(cfg: Config, picks: seq<Step>, d: nat, id: Id, room: Id, later: seq<Step>)
    requires d !in Run(cfg, picks).readers
    ensures var now := RunFrom(cfg, Apply(cfg, Run(cfg, picks), StartDownload(d, id, room)), later);
            && d in now.readers && now.readers[d].id == id
            && (now.readers[d].Ended? || now.readers[d].Emitted() != [] ==>
                  id in now.shared.admitted && now.shared.admitted[id] == room)
  {
    var begun := Apply(cfg, Run(cfg, picks), StartDownload(d, id, room));
    StartingKeepsInv(cfg, picks, StartDownload(d, id, room));
    hide Inv, RunFrom;
    AskedInThroughout(cfg, begun, later, d, id, room);
  }

  /** The lookup a download is about to make finds no row, or that of another Room. */
  ghost predicate NotThere(sh: Shared, d: Reader) {
    || (d.FindingPayload? && d.id !in sh.payloads)
    || (d.FindingTransfer? && (d.id !in sh.transfers || sh.transfers[d.id] != d.room))
  }

  /** In every run: a download fails at a call exactly if storage or database fail, the Transfer is not
      one of the Room asked for, or the final object is gone, which takes a purge or a reap that went
      for it or an opening that was rolled back. A missing chunk never fails it. */
  lemma DownloadsFailExactlyWhen(cfg: Config, picks: seq<Step>, d: nat, fine: bool)
    requires d in Run(cfg, picks).readers && !Run(cfg, picks).readers[d].Failed? && !Run(cfg, picks).readers[d].Ended?
    ensures var sh, r := Run(cfg, picks).shared, Run(cfg, picks).readers[d];
            var next := Apply(cfg, Run(cfg, picks), Read(d, fine)).readers[d];
            var calls := !r.Choosing? && !r.Following?;
            var atTheFile := r.ReadingWhole? || r.Hopping?;
            var gone := atTheFile && r.id in sh.admitted && FileObject(sh.admitted[r.id], r.id) !in sh.objects;
            && (atTheFile ==> r.id in sh.admitted)
            && (next.Failed? <==> calls && (!fine || NotThere(sh, r) || gone))
            && (gone ==> r.id in sh.erased || r.id in sh.ends.rolledBack)
  {
    InvHoldsThroughout(cfg, picks);
    var sh, r := Run(cfg, picks).shared, Run(cfg, picks).readers[d];
    assert ReaderOk(cfg, sh, r);
    ReaderStepIsSafe(cfg, sh, r, fine);
    TransferDownload.ReadersMoveByReading(cfg, Run(cfg, picks), Read(d, fine), d);
    hide RequestStep, SharedOk, ProcessesOk, OneSweep, Apply, Run, RunFrom;
  }
}
