/** A purge and a reap of module Cleanup, nothing else running, are runs of the state machine, so the
    two descriptions of tearing down agree, whichever call fails. */
module CleanupRuns {
  import opened Common
  import opened ObjectStorage
  import opened UploadSessions
  import opened Pipeline
  import opened UploadRuns
  import Cleanup

  /** The same objects, sessions and rows. */
  ghost predicate Agrees(st: Cleanup.Stores, sh: Shared) {
    st.objects == sh.objects && st.sessions == sh.sessions && st.transfers == sh.transfers && st.payloads == sh.payloads
  }

  // --- Purges ----------------------------------------------------------------------

  /** World w with purge p at the given point. */
  function PurgeAt(w: World, p: nat, now: (Shared, Purge)): World {
    w.(shared := now.0, purges := w.purges[p := now.1])
  }

  lemma PurgeOnAt(cfg: Config, w: World, p: nat, now: (Shared, Purge), c: Choice, picks: seq<Step>)
    ensures RunFrom(cfg, PurgeAt(w, p, now), [PurgeOn(p, c)] + picks)
         == RunFrom(cfg, PurgeAt(w, p, PurgeStep(now.0, now.1, c)), picks)
  {
    OneMore(cfg, PurgeAt(w, p, now), PurgeOn(p, c), picks);
    hide PurgeStep, RunFrom;
    var next := PurgeStep(now.0, now.1, c);
    assert w.purges[p := now.1][p := next.1] == w.purges[p := next.1];
  }

  function KeysFrom(keys: seq<ObjectKey>, i: nat): set<ObjectKey>
    requires i <= |keys|
  {
    set k | k in keys[i..]
  }

  lemma OneKeyFewer(keys: seq<ObjectKey>, i: nat)
    requires Distinct(keys) && i < |keys|
    ensures keys[i] in KeysFrom(keys, i) && KeysFrom(keys, i) - {keys[i]} == KeysFrom(keys, i + 1)
  {
    assert keys[i..] == [keys[i]] + keys[i + 1..];
  }

  lemma {:induction false} RemovalsAreARun(cfg: Config, w: World, p: nat, sh: Shared, room: Id, keys: seq<ObjectKey>, i: nat,
                                           verdicts: nat -> Verdict)
    returns (picks: seq<Step>, end: Shared)
    requires Distinct(keys) && i <= |keys|
    ensures var (objects, ok) := Cleanup.RemoveFrom(sh.objects, keys, i, verdicts);
            && end == sh.(objects := objects, erased := end.erased)
            && RunFrom(cfg, PurgeAt(w, p, (sh, Purging(room, KeysFrom(keys, i)))), picks)
               == PurgeAt(w, p, (end, if ok then Purging(room, {}) else Aborted))
    decreases |keys| - i
  {
    hide RunFrom, Distinct;
    if i == |keys| {
      assert KeysFrom(keys, i) == {};
      picks, end := [], sh;
      NoPicks(cfg, PurgeAt(w, p, (sh, Purging(room, KeysFrom(keys, i)))));
    } else {
      OneKeyFewer(keys, i);
      hide KeysFrom;
      var now := (sh, Purging(room, KeysFrom(keys, i)));
      var next := sh.(objects := Remove(sh.objects, keys[i], verdicts(i)), erased := sh.erased + {keys[i].transfer});
      var rest: seq<Step> := [];
      end := next;
      if verdicts(i).Reported() {
        rest, end := RemovalsAreARun(cfg, w, p, next, room, keys, i + 1, verdicts);
      }
      picks := [PurgeOn(p, Erase(keys[i], verdicts(i)))] + rest;
      PurgeOnAt(cfg, w, p, now, Erase(keys[i], verdicts(i)), rest);
      NoPicks(cfg, PurgeAt(w, p, (next, Aborted)));
    }
  }

  lemma {:induction false} KeysAreDistinct(st: Cleanup.Stores, order: seq<Id>, room: Id)
    requires Cleanup.WellKeyed(st) && Distinct(order)
    ensures Distinct(Cleanup.StorageKeys(order, st.transfers, st.payloads, room))
  {
    if order != [] {
      var before := order[..|order| - 1];
      KeysAreDistinct(st, before, room);
      Cleanup.StorageKeysAreTheRows(st, room, before);
    }
  }

  /** The keys a purge lists are those of the machine's, each once. */
  lemma ListedKeys(st: Cleanup.Stores, sh: Shared, room: Id)
    requires Cleanup.WellKeyed(st) && Agrees(st, sh)
    ensures var keys := Cleanup.KeysIn(st, room);
            && Distinct(keys)
            && PurgeStep(sh, Listing(room), Proceed(Done)) == (sh, Purging(room, KeysFrom(keys, 0)))
  {
    KeysAreDistinct(st, st.order, room);
    Cleanup.KeysInAreTheRows(st, room);
    var keys := Cleanup.KeysIn(st, room);
    assert keys[0..] == keys;
    assert KeysFrom(keys, 0) == set id | id in RowsOf(sh, room) && id in sh.payloads :: sh.payloads[id];
  }

  /** What a purge that takes sh to end may have changed. */
  ghost predicate OnlyPurged(sh: Shared, end: Shared) {
    end == sh.(objects := end.objects, transfers := end.transfers, payloads := end.payloads, erased := end.erased)
  }

  lemma RowsGo(st: Cleanup.Stores, st': Cleanup.Stores, sh: Shared, end: Shared, room: Id, v: Verdict)
    requires Agrees(st, sh) && end == sh.(objects := end.objects, erased := end.erased)
    requires var removed := st.(objects := end.objects);
             st' == if v.TookEffect() then Cleanup.DropRows(removed, Cleanup.RowsOf(st, room)) else removed
    ensures var (after, p') := PurgeStep(end, Purging(room, {}), Proceed(v));
            && p' == (if v.Reported() then Purged else Aborted)
            && Agrees(st', after) && OnlyPurged(sh, after)
  {
    assert Cleanup.RowsOf(st, room) == RowsOf(end, room);
    hide Cleanup.WithoutAll;
  }

  /** A purge that has its keys. */
  lemma ListedPurgeIsARun(cfg: Config, w: World, p: nat, st: Cleanup.Stores, sh: Shared, room: Id, calls: Cleanup.PurgeCalls)
    returns (picks: seq<Step>, end: Shared)
    requires Agrees(st, sh) && calls.list && Distinct(Cleanup.KeysIn(st, room))
    ensures var (st', ok) := Cleanup.Purge(st, room, calls);
            && RunFrom(cfg, PurgeAt(w, p, (sh, Purging(room, KeysFrom(Cleanup.KeysIn(st, room), 0)))), picks)
               == PurgeAt(w, p, (end, if ok then Purged else Aborted))
            && Agrees(st', end) && OnlyPurged(sh, end)
  {
    hide RunFrom, Cleanup.RemoveFrom, Cleanup.KeysIn, KeysFrom, Cleanup.DropRows, Distinct, PurgeStep;
    var keys := Cleanup.KeysIn(st, room);
    var start := PurgeAt(w, p, (sh, Purging(room, KeysFrom(keys, 0))));
    picks, end := RemovalsAreARun(cfg, w, p, sh, room, keys, 0, calls.removes);
    if Cleanup.RemoveFrom(st.objects, keys, 0, calls.removes).1 {
      var last := PurgeOn(p, Proceed(calls.rows));
      var done := (end, Purging(room, {}));
      RowsGo(st, Cleanup.Purge(st, room, calls).0, sh, end, room, calls.rows);
      RunsCompose(cfg, start, picks, [last] + []);
      PurgeOnAt(cfg, w, p, done, Proceed(calls.rows), []);
      NoPicks(cfg, PurgeAt(w, p, PurgeStep(end, done.1, Proceed(calls.rows))));
      picks := picks + ([last] + []);
      end := PurgeStep(end, done.1, Proceed(calls.rows)).0;
    }
  }

  /** An uninterrupted purge is a run of the machine that leaves the same stores. */
  lemma PurgeIsARun(cfg: Config, w: World, p: nat, st: Cleanup.Stores, room: Id, calls: Cleanup.PurgeCalls)
    returns (picks: seq<Step>)
    requires p !in w.purges && Cleanup.WellKeyed(st) && Agrees(st, w.shared)
    ensures var (st', ok) := Cleanup.Purge(st, room, calls);
            var end := RunFrom(cfg, w, picks);
            && end == PurgeAt(w, p, (end.shared, if ok then Purged else Aborted))
            && Agrees(st', end.shared) && OnlyPurged(w.shared, end.shared)
  {
    hide RunFrom, Cleanup.RemoveFrom, Cleanup.KeysIn, KeysFrom, Cleanup.WellKeyed, Cleanup.DropRows, Distinct;
    var start := (w.shared, Listing(room));
    var listed := Proceed(if calls.list then Done else Refused);
    var rest: seq<Step> := [];
    if calls.list {
      ListedKeys(st, w.shared, room);
      var end;
      rest, end := ListedPurgeIsARun(cfg, w, p, st, w.shared, room, calls);
    }
    NoPicks(cfg, PurgeAt(w, p, (w.shared, Aborted)));
    PurgeOnAt(cfg, w, p, start, listed, rest);
    picks := [StartPurge(p, room)] + ([PurgeOn(p, listed)] + rest);
    OneMore(cfg, w, StartPurge(p, room), [PurgeOn(p, listed)] + rest);
  }

  // --- Reaps -----------------------------------------------------------------------

  /** World w with sweep p at the given point. */
  function SweepAt(w: World, p: nat, now: (Shared, Sweep)): World {
    w.(shared := now.0, sweeps := w.sweeps[p := now.1])
  }

  lemma SweepOnAt(cfg: Config, w: World, p: nat, now: (Shared, Sweep), c: Choice, picks: seq<Step>)
    ensures RunFrom(cfg, SweepAt(w, p, now), [SweepOn(p, c)] + picks)
         == RunFrom(cfg, SweepAt(w, p, SweepStep(now.0, now.1, c)), picks)
  {
    OneMore(cfg, SweepAt(w, p, now), SweepOn(p, c), picks);
    hide SweepStep, RunFrom;
    var next := SweepStep(now.0, now.1, c);
    assert w.sweeps[p := now.1][p := next.1] == w.sweeps[p := next.1];
  }

  function IndicesFrom(indices: seq<nat>, i: nat): set<nat>
    requires i <= |indices|
  {
    set k | k in indices[i..]
  }

  lemma OneIndexFewer(indices: seq<nat>, i: nat)
    requires Distinct(indices) && i < |indices|
    ensures indices[i] in IndicesFrom(indices, i) && IndicesFrom(indices, i) - {indices[i]} == IndicesFrom(indices, i + 1)
  {
    assert indices[i..] == [indices[i]] + indices[i + 1..];
  }

  lemma {:induction false} ChunksAreARun(cfg: Config, w: World, p: nat, sh: Shared, queue: seq<Session>, indices: seq<nat>, i: nat,
                                         verdicts: nat -> Verdict)
    returns (picks: seq<Step>, end: Shared)
    requires queue != [] && Distinct(indices) && i <= |indices|
    ensures var (objects, ok) := Cleanup.RemoveFrom(sh.objects, Cleanup.ChunkKeys(queue[0], indices), i, verdicts);
            && end == sh.(objects := objects, reaped := end.reaped)
            && RunFrom(cfg, SweepAt(w, p, (sh, Reaping(queue, IndicesFrom(indices, i), Chunks))), picks)
               == SweepAt(w, p, (end, if ok then Reaping(queue, {}, Chunks) else ReapNext(queue[1..])))
    decreases |indices| - i
  {
    hide RunFrom, Distinct, ReapNext;
    var keys := Cleanup.ChunkKeys(queue[0], indices);
    var now := (sh, Reaping(queue, IndicesFrom(indices, i), Chunks));
    if i == |indices| {
      assert IndicesFrom(indices, i) == {};
      picks, end := [], sh;
      NoPicks(cfg, SweepAt(w, p, now));
    } else {
      OneIndexFewer(indices, i);
      hide IndicesFrom;
      var v := verdicts(i);
      var next := sh.(objects := Remove(sh.objects, keys[i], v), reaped := sh.reaped + {queue[0].Tid()});
      assert keys[i] == ChunkKey(queue[0], indices[i]);
      var rest: seq<Step> := [];
      end := next;
      if v.Reported() {
        rest, end := ChunksAreARun(cfg, w, p, next, queue, indices, i + 1, verdicts);
      }
      picks := [SweepOn(p, Drop(indices[i], v))] + rest;
      SweepOnAt(cfg, w, p, now, Drop(indices[i], v), rest);
      NoPicks(cfg, SweepAt(w, p, (next, ReapNext(queue[1..]))));
    }
  }

  /** The stores one reap of `Cleanup` leaves, and what else the machine records of it. */
  ghost predicate Reaped(st': Cleanup.Stores, sh: Shared, end: Shared) {
    && Agrees(st', end)
    && end == sh.(objects := end.objects, sessions := end.sessions, transfers := end.transfers, payloads := end.payloads,
                  reaped := end.reaped, erased := end.erased, ends := end.ends)
  }

  /** A reap whose chunks are gone, step by step. */
  lemma StagesOfAReap(sh: Shared, queue: seq<Session>, v: Verdict)
    requires queue != []
    ensures var s := queue[0];
            && SweepStep(sh, Reaping(queue, {}, Chunks), Proceed(v)) == (sh, Reaping(queue, {}, FinalObject))
            && SweepStep(sh, Reaping(queue, {}, FinalObject), Proceed(v))
               == (sh.(objects := Remove(sh.objects, FileKey(s), v), erased := sh.erased + {s.Tid()}),
                   if v.Reported() then Reaping(queue, {}, Rows) else ReapNext(queue[1..]))
            && SweepStep(sh, Reaping(queue, {}, Rows), Proceed(v))
               == (if v.TookEffect() then sh.DropRows({s.Tid()}) else sh,
                   if v.Reported() then Reaping(queue, {}, Slot) else ReapNext(queue[1..]))
            && SweepStep(sh, Reaping(queue, {}, Slot), Proceed(v)) == (sh.Collect(s.Tid()), ReapNext(queue[1..]))
  {
    hide ReapNext, Remove;
  }

  lemma SlotIsARun(cfg: Config, w: World, p: nat, sh: Shared, queue: seq<Session>)
    returns (picks: seq<Step>)
    requires queue != []
    ensures RunFrom(cfg, SweepAt(w, p, (sh, Reaping(queue, {}, Slot))), picks)
         == SweepAt(w, p, (sh.Collect(queue[0].Tid()), ReapNext(queue[1..])))
  {
    hide RunFrom, SweepStep, ReapNext;
    StagesOfAReap(sh, queue, Done);
    picks := [SweepOn(p, Proceed(Done))] + [];
    SweepOnAt(cfg, w, p, (sh, Reaping(queue, {}, Slot)), Proceed(Done), []);
    NoPicks(cfg, SweepAt(w, p, (sh.Collect(queue[0].Tid()), ReapNext(queue[1..]))));
  }

  /** The rows, then the slot. */
  lemma RowsThenSlotAreARun(cfg: Config, w: World, p: nat, sh: Shared, queue: seq<Session>, v: Verdict)
    returns (picks: seq<Step>, end: Shared)
    requires queue != []
    ensures var unlisted := if v.TookEffect() then sh.DropRows({queue[0].Tid()}) else sh;
            end == if v.Reported() then unlisted.Collect(queue[0].Tid()) else unlisted
    ensures RunFrom(cfg, SweepAt(w, p, (sh, Reaping(queue, {}, Rows))), picks) == SweepAt(w, p, (end, ReapNext(queue[1..])))
  {
    hide RunFrom, SweepStep, ReapNext;
    StagesOfAReap(sh, queue, v);
    end := if v.TookEffect() then sh.DropRows({queue[0].Tid()}) else sh;
    var rest: seq<Step> := [];
    NoPicks(cfg, SweepAt(w, p, (end, ReapNext(queue[1..]))));
    if v.Reported() {
      rest := SlotIsARun(cfg, w, p, end, queue);
      end := end.Collect(queue[0].Tid());
    }
    picks := [SweepOn(p, Proceed(v))] + rest;
    SweepOnAt(cfg, w, p, (sh, Reaping(queue, {}, Rows)), Proceed(v), rest);
  }

  /** The final object, the rows and the slot. */
  lemma RestIsARun(cfg: Config, w: World, p: nat, sh: Shared, queue: seq<Session>, calls: Cleanup.ReapCalls)
    returns (picks: seq<Step>, end: Shared)
    requires queue != []
    ensures forall st :: Agrees(st, sh) ==> Reaped(Cleanup.ReapRest(st, queue[0], calls).0, sh, end)
    ensures RunFrom(cfg, SweepAt(w, p, (sh, Reaping(queue, {}, Chunks))), picks) == SweepAt(w, p, (end, ReapNext(queue[1..])))
  {
    hide RunFrom, SweepStep, ReapNext, Cleanup.WithoutAll, Remove;
    StagesOfAReap(sh, queue, Done);
    StagesOfAReap(sh, queue, calls.final);
    var cleared := sh.(objects := Remove(sh.objects, FileKey(queue[0]), calls.final), erased := sh.erased + {queue[0].Tid()});
    var rest: seq<Step> := [];
    end := cleared;
    NoPicks(cfg, SweepAt(w, p, (end, ReapNext(queue[1..]))));
    if calls.final.Reported() {
      rest, end := RowsThenSlotAreARun(cfg, w, p, cleared, queue, calls.rows);
    }
    SweepOnAt(cfg, w, p, (sh, Reaping(queue, {}, FinalObject)), Proceed(calls.final), rest);
    SweepOnAt(cfg, w, p, (sh, Reaping(queue, {}, Chunks)), Proceed(Done), [SweepOn(p, Proceed(calls.final))] + rest);
    picks := [SweepOn(p, Proceed(Done))] + ([SweepOn(p, Proceed(calls.final))] + rest);
  }

  /** An uninterrupted reap is a run of the machine that leaves the same stores and the sweep at the
      next upload of its queue. */
  lemma ReapIsARun(cfg: Config, w: World, p: nat, st: Cleanup.Stores, sh: Shared, queue: seq<Session>, indices: seq<nat>,
                   calls: Cleanup.ReapCalls)
    returns (picks: seq<Step>, end: Shared)
    requires queue != [] && Agrees(st, sh) && Lists(indices, queue[0].receivedChunks)
    ensures Reaped(Cleanup.Reap(st, queue[0], indices, calls).0, sh, end)
    ensures RunFrom(cfg, SweepAt(w, p, (sh, ReapNext(queue))), picks) == SweepAt(w, p, (end, ReapNext(queue[1..])))
  {
    assert indices[0..] == indices;
    assert IndicesFrom(indices, 0) == queue[0].receivedChunks;
    assert ReapNext(queue) == Reaping(queue, IndicesFrom(indices, 0), Chunks);
    hide RunFrom, Cleanup.RemoveFrom, Cleanup.ReapRest, ReapNext, IndicesFrom, Cleanup.ChunkKeys;
    var start := SweepAt(w, p, (sh, ReapNext(queue)));
    var keys := Cleanup.ChunkKeys(queue[0], indices);
    picks, end := ChunksAreARun(cfg, w, p, sh, queue, indices, 0, calls.chunks);
    var (objects, ok) := Cleanup.RemoveFrom(st.objects, keys, 0, calls.chunks);
    if ok {
      var rest, last := RestIsARun(cfg, w, p, end, queue, calls);
      RunsCompose(cfg, start, picks, rest);
      picks, end := picks + rest, last;
    }
  }

  /** So is the whole batch: each upload of the queue in turn, failures skipped. */
  lemma {:induction false} BatchIsARun(cfg: Config, w: World, p: nat, st: Cleanup.Stores, sh: Shared, stale: seq<Session>,
                                       rest: seq<Session>, walk: Session -> seq<nat>, calls: nat -> Cleanup.ReapCalls)
    returns (picks: seq<Step>, end: Shared)
    requires Agrees(st, sh) && forall s :: s in stale ==> Lists(walk(s), s.receivedChunks)
    ensures Reaped(Cleanup.ReapAll(st, stale, walk, calls).0, sh, end)
    ensures RunFrom(cfg, SweepAt(w, p, (sh, ReapNext(stale + rest))), picks) == SweepAt(w, p, (end, ReapNext(rest)))
    decreases |stale|
  {
    hide RunFrom, Cleanup.Reap, ReapNext, Lists;
    var start := SweepAt(w, p, (sh, ReapNext(stale + rest)));
    if stale == [] {
      assert stale + rest == rest;
      picks, end := [], sh;
      NoPicks(cfg, start);
    } else {
      var init, last := stale[..|stale| - 1], stale[|stale| - 1];
      assert init + ([last] + rest) == stale + rest;
      assert ([last] + rest)[1..] == rest;
      var before, mid := BatchIsARun(cfg, w, p, st, sh, init, [last] + rest, walk, calls);
      var reap, after := ReapIsARun(cfg, w, p, Cleanup.ReapAll(st, init, walk, calls).0, mid, [last] + rest, walk(last),
                                    calls(|stale| - 1));
      RunsCompose(cfg, start, before, reap);
      picks, end := before + reap, after;
    }
  }
}
