/** A chunk request served alone, up to its answer, is one run of the state machine, whatever its
    calls do, so the machine's invariants hold after it. */
module UploadRuns {
  import opened Common
  import opened ObjectStorage
  import opened UploadSessions
  import opened Pipeline
  import opened PipelineSafety
  import opened ChunkedUpload
  import opened UploadRecovery

  /** World w with request q at the given point. */
  function At(w: World, q: nat, now: (Shared, Request)): World {
    w.(shared := now.0, requests := w.requests[q := now.1])
  }

  lemma OneMore(cfg: Config, w: World, step: Step, picks: seq<Step>)
    ensures RunFrom(cfg, w, [step] + picks) == RunFrom(cfg, Apply(cfg, w, step), picks)
  {
    RunsCompose(cfg, w, [step], picks);
    assert [step][..0] == [];
    assert RunFrom(cfg, w, [step]) == Apply(cfg, w, step);
  }

  lemma AdvanceAt(cfg: Config, w: World, q: nat, now: (Shared, Request), c: Choice, picks: seq<Step>)
    ensures RunFrom(cfg, At(w, q, now), [Advance(q, c)] + picks)
         == RunFrom(cfg, At(w, q, RequestStep(now.0, now.1, c)), picks)
  {
    OneMore(cfg, At(w, q, now), Advance(q, c), picks);
    hide RequestStep, RunFrom;
    var next := RequestStep(now.0, now.1, c);
    assert w.requests[q := now.1][q := next.1] == w.requests[q := next.1];
  }

  lemma {:induction false} ClearingIsARun(cfg: Config, w: World, q: nat, sh: Shared, s: Session, order: seq<nat>, calls: Calls)
    returns (picks: seq<Step>)
    requires Distinct(order)
    ensures RunFrom(cfg, At(w, q, (sh, Clearing(s, IndicesOf(order), true))), picks)
         == At(w, q, ClearFrom(sh, s, order, calls))
    decreases order
  {
    hide RunFrom, Apply;
    var now := (sh, Clearing(s, IndicesOf(order), true));
    if order == [] {
      picks := [Advance(q, Proceed(Done))] + [];
      AdvanceAt(cfg, w, q, now, Proceed(Done), []);
      NoPicks(cfg, At(w, q, RequestStep(sh, now.1, Proceed(Done))));
    } else {
      var i := order[0];
      var v := calls.removes(i);
      assert IndicesOf(order) - {i} == IndicesOf(order[1..]);
      var sh' := sh.(objects := Remove(sh.objects, ChunkKey(s, i), v));
      var rest: seq<Step> := [];
      if v.Reported() {
        rest := ClearingIsARun(cfg, w, q, sh', s, order[1..], calls);
      }
      picks := [Advance(q, Drop(i, v))] + rest;
      AdvanceAt(cfg, w, q, now, Drop(i, v), rest);
      NoPicks(cfg, At(w, q, RequestStep(sh, now.1, Drop(i, v))));
    }
  }

  lemma NoPicks(cfg: Config, w: World)
    ensures RunFrom(cfg, w, []) == w
  {
  }

  lemma {:induction false} AssemblyIsARun(cfg: Config, w: World, q: nat, sh: Shared, s: Session, next: nat, bytes: seq<byte>, calls: Calls)
    returns (picks: seq<Step>)
    ensures RunFrom(cfg, At(w, q, (sh, Assembling(s, next, bytes))), picks)
         == At(w, q, AssembleFrom(sh, s, next, bytes, calls))
    decreases Size(s) - next
  {
    hide RunFrom, Apply, ClearFrom;
    var now := (sh, Assembling(s, next, bytes));
    if next < Size(s) {
      var v := calls.chunkReads(next);
      var r := ReadChunk(sh, s, next, bytes, v);
      var rest: seq<Step> := [];
      if r.Assembling? {
        rest := AssemblyIsARun(cfg, w, q, sh, s, next + 1, r.bytes, calls);
      }
      picks := [Advance(q, Proceed(v))] + rest;
      AdvanceAt(cfg, w, q, now, Proceed(v), rest);
      NoPicks(cfg, At(w, q, RequestStep(sh, now.1, Proceed(v))));
    } else {
      var v := calls.finalPut;
      var (sh', r) := WriteFinal(sh, s, bytes, v);
      var rest: seq<Step> := [];
      if r.Clearing? {
        rest := ClearingIsARun(cfg, w, q, sh', s, LandingOrder(calls, Size(s)), calls);
        assert IndicesOf(LandingOrder(calls, Size(s))) == UpTo(Size(s));
      }
      picks := [Advance(q, Proceed(v))] + rest;
      AdvanceAt(cfg, w, q, now, Proceed(v), rest);
      NoPicks(cfg, At(w, q, RequestStep(sh, now.1, Proceed(v))));
    }
  }

  lemma StoreAndMarkIsARun(cfg: Config, w: World, q: nat, sh: Shared, s: Session, index: nat, chunk: seq<byte>, calls: Calls)
    returns (picks: seq<Step>)
    ensures RunFrom(cfg, At(w, q, (sh, Validating(s, index, chunk))), picks)
         == At(w, q, StoreAndMark(sh, s, index, chunk, calls))
  {
    hide Apply, AssembleFrom, StoreChunk, MarkChunk;
    var (stored, r1) := StoreChunk(sh, s, index, chunk, calls.chunkPut);
    var rest: seq<Step> := [];
    if r1.Marking? {
      assert r1 == Marking(s, index) by { StoringLeadsToMarking(sh, s, index, chunk, calls.chunkPut); }
      var (marked, r2) := MarkChunk(stored, s, index);
      var tail: seq<Step> := [];
      if r2.Assembling? {
        assert r2 == Assembling(r2.session, 0, []) by { MarkingLeadsToAssembly(stored, s, index); }
        tail := AssemblyIsARun(cfg, w, q, marked, r2.session, 0, [], calls);
      }
      rest := [Advance(q, Proceed(Done))] + tail;
      AdvanceAt(cfg, w, q, (stored, r1), Proceed(Done), tail);
    }
    picks := [Advance(q, Proceed(calls.chunkPut))] + rest;
    AdvanceAt(cfg, w, q, (sh, Validating(s, index, chunk)), Proceed(calls.chunkPut), rest);
  }

  lemma StoringLeadsToMarking(sh: Shared, s: Session, index: nat, chunk: seq<byte>, v: Verdict)
    ensures var r := StoreChunk(sh, s, index, chunk, v).1; r.Marking? ==> r == Marking(s, index)
  {
  }

  lemma MarkingLeadsToAssembly(sh: Shared, s: Session, index: nat)
    ensures var r := MarkChunk(sh, s, index).1; r.Assembling? ==> r == Assembling(r.session, 0, [])
  {
  }

  lemma AcceptMoreIsARun(cfg: Config, w: World, q: nat, room: Id, id: Id, index: nat, chunk: seq<byte>, calls: Calls)
    returns (picks: seq<Step>)
    requires q !in w.requests && Honest(cfg, id, index, chunk)
    ensures RunFrom(cfg, w, picks) == At(w, q, AcceptMore(w.shared, room, id, index, chunk, calls))
  {
    var r := ResumeRequest(w.shared, room, id, index, chunk);
    var rest: seq<Step> := [];
    if r.Validating? {
      rest := StoreAndMarkIsARun(cfg, w, q, w.shared, r.session, index, chunk, calls);
    }
    picks := [ResumeUpload(q, room, id, index, chunk)] + rest;
    OneMore(cfg, w, ResumeUpload(q, room, id, index, chunk), rest);
    hide StoreAndMark;
  }

  lemma AcceptNewIsARun(cfg: Config, w: World, q: nat, input: SessionInput, index: nat, chunk: seq<byte>, calls: Calls)
    returns (picks: seq<Step>)
    requires q !in w.requests && MayOpen(cfg, w.shared, input) && Honest(cfg, input.transferId, index, chunk)
    ensures RunFrom(cfg, w, picks) == At(w, q, AcceptNew(cfg.maxFileSizeBytes, w.shared, input, index, chunk, calls))
  {
    var now := OpenRequest(cfg.maxFileSizeBytes, w.shared, input, index, chunk);
    var rest: seq<Step> := [];
    if now.1.CreatingTransfer? {
      rest := RowsAreARun(cfg, w, q, now.0, now.1.session, index, chunk, calls);
    }
    picks := [OpenUpload(q, input, index, chunk)] + rest;
    OneMore(cfg, w, OpenUpload(q, input, index, chunk), rest);
    hide StoreAndMark;
  }

  lemma RowsAreARun(cfg: Config, w: World, q: nat, sh: Shared, s: Session, index: nat, chunk: seq<byte>, calls: Calls)
    returns (picks: seq<Step>)
    ensures RunFrom(cfg, At(w, q, (sh, CreatingTransfer(s, index, chunk))), picks)
         == At(w, q, WriteRows(sh, s, index, chunk, calls))
  {
    hide Apply, StoreAndMark;
    var n1 := CreateTransferRow(sh, s, index, chunk, calls.transferRow);
    var rest: seq<Step>;
    if n1.1.RollingBack? {
      rest := [Advance(q, Proceed(Done))] + [];
      AdvanceAt(cfg, w, q, n1, Proceed(Done), []);
    } else {
      var n2 := CreatePayloadRow(n1.0, s, index, chunk, calls.payloadRow);
      var tail: seq<Step>;
      if n2.1.RollingBack? {
        tail := [Advance(q, Proceed(Done))] + [];
        AdvanceAt(cfg, w, q, n2, Proceed(Done), []);
      } else {
        tail := StoreAndMarkIsARun(cfg, w, q, n2.0, s, index, chunk, calls);
      }
      rest := [Advance(q, Proceed(calls.payloadRow))] + tail;
      AdvanceAt(cfg, w, q, n1, Proceed(calls.payloadRow), tail);
    }
    picks := [Advance(q, Proceed(calls.transferRow))] + rest;
    AdvanceAt(cfg, w, q, (sh, CreatingTransfer(s, index, chunk)), Proceed(calls.transferRow), rest);
  }

  lemma LeftoverLands(sh: Shared, s: Session, i: nat, pending: set<nat>, removes: nat -> Verdict)
    requires i in pending
    ensures var now := (sh, Clearing(s, pending, false));
            Settled(RequestStep(sh, now.1, Drop(i, removes(i))), removes) == Settled(now, removes)
  {
    OneMoreLanded(sh.objects, s, i, pending - {i}, removes);
    hide AfterRemovals, Remove;
    assert pending - {i} + {i} == pending;
  }

  /** The removals in flight at a refusal land as picks of the machine, in any order. */
  lemma {:induction false} SettlingIsARun(cfg: Config, w: World, q: nat, sh: Shared, s: Session, order: seq<nat>, removes: nat -> Verdict)
    returns (picks: seq<Step>)
    requires Distinct(order)
    ensures var now := (sh, Clearing(s, IndicesOf(order), false));
            RunFrom(cfg, At(w, q, now), picks) == At(w, q, (Settled(now, removes), Rejected(Broke)))
    decreases order
  {
    hide RunFrom, Apply, AfterRemovals, Remove;
    var now := (sh, Clearing(s, IndicesOf(order), false));
    if order == [] {
      picks := [Advance(q, Proceed(Done))] + [];
      AdvanceAt(cfg, w, q, now, Proceed(Done), []);
      NoPicks(cfg, At(w, q, RequestStep(sh, now.1, Proceed(Done))));
      NoneLanded(sh.objects, s, removes);
    } else {
      var i := order[0];
      assert IndicesOf(order) - {i} == IndicesOf(order[1..]);
      LeftoverLands(sh, s, i, IndicesOf(order), removes);
      var rest := SettlingIsARun(cfg, w, q, sh.(objects := Remove(sh.objects, ChunkKey(s, i), removes(i))), s, order[1..], removes);
      picks := [Advance(q, Drop(i, removes(i)))] + rest;
      AdvanceAt(cfg, w, q, now, Drop(i, removes(i)), rest);
    }
  }
}
