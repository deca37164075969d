/** The download of apps/api/src/transfer/transfer-download.service.ts as the loop it is.

    Between two `await`s other requests change the shared state, so the loop is handed the
    states it sees: `seen[t]` is what storage, sessions and rows hold when its t-th call is
    answered, and whether that call fails for a reason other than a missing object. */
module TransferDownload {
  import opened Common
  import opened Chunking
  import opened ObjectStorage
  import opened UploadSessions
  import opened Pipeline

  type Sight = (Shared, bool)

  /** The state machine's reader, stepped through the given states. */
  function Follow(d: Reader, seen: seq<Sight>): Reader {
    if seen == [] then d
    else
      var last := seen[|seen| - 1];
      ReaderStep(last.0, Follow(d, seen[..|seen| - 1]), last.1)
  }

  lemma {:induction false} OverReadersStay(d: Reader, seen: seq<Sight>, more: seq<Sight>)
    requires var r := Follow(d, seen); r.Ended? || r.Failed?
    ensures Follow(d, seen + more) == Follow(d, seen)
  {
    if more == [] {
      assert seen + more == seen;
    } else {
      assert (seen + more)[..|seen + more| - 1] == seen + more[..|more| - 1];
      OverReadersStay(d, seen, more[..|more| - 1]);
    }
  }

  lemma Settled(d: Reader, seen: seq<Sight>, t: nat)
    requires t <= |seen|
    requires var r := Follow(d, seen[..t]); r.Ended? || r.Failed?
    ensures Follow(d, seen) == Follow(d, seen[..t])
  {
    OverReadersStay(d, seen[..t], seen[t..]);
    assert seen == seen[..t] + seen[t..];
  }

  lemma OneMoreSight(d: Reader, seen: seq<Sight>, t: nat)
    requires t < |seen|
    ensures Follow(d, seen[..t + 1]) == ReaderStep(seen[t].0, Follow(d, seen[..t]), seen[t].1)
  {
    assert seen[..t + 1][..t] == seen[..t];
  }

  lemma LookAtSession(sh: Shared, id: Id, room: Id, key: ObjectKey, next: nat, emitted: seq<byte>, fine: bool)
    ensures ReaderStep(sh, Following(id, room, key, next, emitted), fine) ==
            if id !in sh.sessions then Hopping(id, key, next, emitted)
            else if next !in sh.sessions[id].receivedChunks then Following(id, room, key, next, emitted)
            else Fetching(id, room, key, next, sh.sessions[id].Total(), emitted)
  {
  }

  lemma LookAtChunk(sh: Shared, id: Id, room: Id, key: ObjectKey, next: nat, total: int, emitted: seq<byte>, fine: bool)
    ensures var chunk := Get(sh.objects, ChunkObject(room, id, next), 0);
            ReaderStep(sh, Fetching(id, room, key, next, total, emitted), fine) ==
            if !fine then Failed(id, emitted)
            else if chunk.None? then Following(id, room, key, next, emitted)
            else if next + 1 == total then Ended(id, emitted + chunk.value)
            else Following(id, room, key, next + 1, emitted + chunk.value)
  {
  }

  /** `open` then `followUpload`. The result is where the download stands once the given
      states are used up; `Follow` says what that must be. */
  method Download(id: Id, room: Id, seen: seq<Sight>) returns (d: Reader)
    ensures d == Follow(FindingPayload(id, room), seen)
  {
    ghost var start := FindingPayload(id, room);
    assert seen[..|seen|] == seen;
    assert Follow(start, seen[..0]) == start;
    hide Follow;
    if |seen| == 0 { return FindingPayload(id, room); }
    OneMoreSight(start, seen, 0);
    if !seen[0].1 || id !in seen[0].0.payloads {
      Settled(start, seen, 1);
      return Failed(id, []);
    }
    var key := seen[0].0.payloads[id];

    if |seen| == 1 { return FindingTransfer(id, room, key); }
    OneMoreSight(start, seen, 1);
    if !seen[1].1 || id !in seen[1].0.transfers || seen[1].0.transfers[id] != room {
      Settled(start, seen, 2);
      return Failed(id, []);
    }

    if |seen| == 2 { return Choosing(id, room, key); }
    OneMoreSight(start, seen, 2);
    if id in seen[2].0.sessions {
      d := FollowUpload(id, room, key, seen, 3, start);
    } else {
      d := ReadWhole(id, key, seen, start);
    }
  }

  /** No session any more: the assembled object is the download. */
  method ReadWhole(id: Id, key: ObjectKey, seen: seq<Sight>, ghost start: Reader) returns (d: Reader)
    requires 3 <= |seen| && Follow(start, seen[..3]) == ReadingWhole(id, key)
    ensures d == Follow(start, seen)
  {
    hide Follow;
    if |seen| == 3 {
      assert seen[..3] == seen;
      return ReadingWhole(id, key);
    }
    OneMoreSight(start, seen, 3);
    Settled(start, seen, 4);
    var body := Get(seen[3].0.objects, key, 0);
    d := if seen[3].1 && body.Some? then Ended(id, body.value) else Failed(id, []);
  }

  /** The generator: `chunkIndex` counts what has been emitted; a chunk not there yet, or
      already gone, sends it round again. */
  method FollowUpload(id: Id, room: Id, key: ObjectKey, seen: seq<Sight>, from: nat, ghost start: Reader)
    returns (d: Reader)
    requires from <= |seen|
    requires Follow(start, seen[..from]) == Following(id, room, key, 0, [])
    ensures d == Follow(start, seen)
  {
    hide Follow, Get, ReaderStep;
    var chunkIndex, emitted, t := 0, [], from;
    while t < |seen|
      invariant from <= t <= |seen|
      invariant Follow(start, seen[..t]) == Following(id, room, key, chunkIndex, emitted)
      decreases |seen| - t
    {
      var now := seen[t].0;
      OneMoreSight(start, seen, t);
      LookAtSession(now, id, room, key, chunkIndex, emitted, seen[t].1);
      t := t + 1;
      if id !in now.sessions {
        d := Hop(id, key, chunkIndex, emitted, seen, t, start);
        return;
      }
      var session := now.sessions[id];
      if chunkIndex !in session.receivedChunks {
        continue;
      }
      if t == |seen| {
        assert seen[..t] == seen;
        return Fetching(id, room, key, chunkIndex, session.Total(), emitted);
      }
      OneMoreSight(start, seen, t);
      LookAtChunk(seen[t].0, id, room, key, chunkIndex, session.Total(), emitted, seen[t].1);
      var chunk := Get(seen[t].0.objects, ChunkObject(room, id, chunkIndex), 0);
      t := t + 1;
      if !seen[t - 1].1 {
        Settled(start, seen, t);
        return Failed(id, emitted);
      }
      if chunk.None? {
        continue;
      }
      emitted := emitted + chunk.value;
      chunkIndex := chunkIndex + 1;
      if chunkIndex == session.Total() {
        Settled(start, seen, t);
        return Ended(id, emitted);
      }
    }
    assert seen[..t] == seen;
    d := Following(id, room, key, chunkIndex, emitted);
  }

  /** The session is gone: continue on the assembled object where the chunks left off. */
  method Hop(id: Id, key: ObjectKey, chunkIndex: nat, emitted: seq<byte>, seen: seq<Sight>, t: nat, ghost start: Reader)
    returns (d: Reader)
    requires t <= |seen|
    requires Follow(start, seen[..t]) == Hopping(id, key, chunkIndex, emitted)
    ensures d == Follow(start, seen)
  {
    if t == |seen| {
      assert seen[..t] == seen;
      return Hopping(id, key, chunkIndex, emitted);
    }
    OneMoreSight(start, seen, t);
    Settled(start, seen, t + 1);
    var rest := Get(seen[t].0.objects, key, chunkIndex * CHUNK_SIZE_BYTES);
    d := if seen[t].1 && rest.Some? then Ended(id, emitted + rest.value) else Failed(id, emitted);
  }

  /** The upload holds its session with the right count, and chunk i counts as received and is stored. */
  ghost predicate ChunkIsThere(sh: Shared, id: Id, room: Id, file: seq<byte>, i: nat) {
    && id in sh.sessions && sh.sessions[id].Total() == Count(file) && i in sh.sessions[id].receivedChunks
    && ChunkObject(room, id, i) in sh.objects && sh.objects[ChunkObject(room, id, i)] == Slice(file, i)
  }

  /** A look at the session and one at the chunk, both finding chunk i there. */
  lemma TwoLooks(first: Shared, second: Shared, id: Id, room: Id, key: ObjectKey, file: seq<byte>, i: nat)
    requires ChunkIsThere(first, id, room, file, i) && ChunkIsThere(second, id, room, file, i)
    ensures ReaderStep(second, ReaderStep(first, Following(id, room, key, i, Prefix(file, i)), true), true)
         == if i + 1 == Count(file) then Ended(id, Prefix(file, i + 1)) else Following(id, room, key, i + 1, Prefix(file, i + 1))
  {
    PrefixGrowsBySlice(file, i);
    hide Slice, Prefix, Count;
    var body := second.objects[ChunkObject(room, id, i)];
    assert body[0..] == body;
  }

  lemma TwoMoreSights(d: Reader, seen: seq<Sight>, t: nat)
    requires |seen| == t + 2
    ensures Follow(d, seen) == ReaderStep(seen[t + 1].0, ReaderStep(seen[t].0, Follow(d, seen[..t]), seen[t].1), seen[t + 1].1)
  {
    OneMoreSight(d, seen, t);
    OneMoreSight(d, seen, t + 1);
    assert seen[..t + 2] == seen;
    hide ReaderStep;
  }

  /** A follower whose every look finds the chunk it is at has emitted the file up to there, and ends
      with the whole file at the last chunk, the upload not being assembled yet. */
  lemma {:induction false} FollowersStreamTheUpload(id: Id, room: Id, key: ObjectKey, file: seq<byte>, seen: seq<Sight>, n: nat)
    requires n <= Count(file) && |seen| == 2 * n
    requires forall i: nat :: i < n ==> ChunkIsThere(seen[2 * i].0, id, room, file, i) && ChunkIsThere(seen[2 * i + 1].0, id, room, file, i)
    requires forall t :: 0 <= t < |seen| ==> seen[t].1
    ensures Follow(Following(id, room, key, 0, []), seen)
         == if n > 0 && n == Count(file) then Ended(id, file) else Following(id, room, key, n, Prefix(file, n))
  {
    if n == 0 {
      assert Prefix(file, 0) == [];
    } else {
      PrefixOfAllChunksIsFile(file, Count(file));
      hide Follow, ReaderStep, Prefix, Count, ChunkIsThere;
      var i, t := n - 1, 2 * n - 2;
      FollowersStreamTheUpload(id, room, key, file, seen[..t], i);
      TwoMoreSights(Following(id, room, key, 0, []), seen, t);
      assert ChunkIsThere(seen[2 * i].0, id, room, file, i) && ChunkIsThere(seen[2 * i + 1].0, id, room, file, i);
      TwoLooks(seen[t].0, seen[t + 1].0, id, room, key, file, i);
    }
  }

  /** The upload still holds its session, chunk `next` counts as received, and its object is gone. */
  ghost predicate Stalled(sh: Shared, id: Id, room: Id, next: nat) {
    id in sh.sessions && next in sh.sessions[id].receivedChunks && ChunkObject(room, id, next) !in sh.objects
  }

  /** A follower at chunk `next`, between its looks at the session and at the chunk. */
  ghost predicate Polling(d: Reader, id: Id, room: Id, key: ObjectKey, next: nat, emitted: seq<byte>) {
    (d.Following? || d.Fetching?)
    && d.id == id && d.room == room && d.key == key && d.next == next && d.emitted == emitted
  }

  lemma {:induction false} StalledFollowersPoll(d: Reader, id: Id, room: Id, key: ObjectKey, next: nat, emitted: seq<byte>,
                                              seen: seq<Sight>)
    requires Polling(d, id, room, key, next, emitted)
    requires forall i :: 0 <= i < |seen| ==> Stalled(seen[i].0, id, room, next) && seen[i].1
    ensures Polling(Follow(d, seen), id, room, key, next, emitted)
  {
    if seen != [] {
      var before, last := seen[..|seen| - 1], seen[|seen| - 1];
      StalledFollowersPoll(d, id, room, key, next, emitted, before);
      assert Stalled(last.0, id, room, next);
    }
  }

  /** After a removal failed part-way a follower that has reached a removed chunk polls, for as long
      as the session and the gap last, although the final object is stored. Once the session is gone
      it goes on to the final object: it finishes if that is there (a re-send completed the upload)
      and fails if it is not (a reap freed the slot). */
  lemma FollowersWaitForTheSlot(d: Reader, id: Id, room: Id, key: ObjectKey, file: seq<byte>, next: nat, stalled: seq<Sight>, freed: Shared)
    requires Polling(d, id, room, key, next, Prefix(file, next)) && next < Count(file)
    requires forall i :: 0 <= i < |stalled| ==> Stalled(stalled[i].0, id, room, next) && stalled[i].1
    requires id !in freed.sessions && ChunkObject(room, id, next) !in freed.objects
    requires key in freed.objects ==> freed.objects[key] == file
    ensures Polling(Follow(d, stalled), id, room, key, next, Prefix(file, next))
    ensures Follow(Follow(d, stalled), [(freed, true), (freed, true), (freed, true)])
         == if key in freed.objects then Ended(id, file) else Failed(id, Prefix(file, next))
  {
    StalledFollowersPoll(d, id, room, key, next, Prefix(file, next), stalled);
    var now, s := Follow(d, stalled), (freed, true);
    assert [s, s, s][..2] == [s, s] && [s, s][..1] == [s] && [s][..0] == [];
    assert Follow(now, [s]) == ReaderStep(freed, now, true);
    assert Follow(now, [s, s]) == ReaderStep(freed, Follow(now, [s]), true);
    assert Follow(now, [s, s, s]) == ReaderStep(freed, Follow(now, [s, s]), true);
    IndexInRangeMeansBytesLeft(file, next);
    assert file[..next * CHUNK_SIZE_BYTES] + file[next * CHUNK_SIZE_BYTES..] == file;
  }

  /** What download d saw over a run: the shared state at each of its own steps. */
  function SightsOf(cfg: Config, picks: seq<Step>, d: nat): seq<Sight> {
    if picks == [] then []
    else
      var before := picks[..|picks| - 1];
      var last := picks[|picks| - 1];
      if last.Read? && last.d == d && d in Run(cfg, before).readers
      then SightsOf(cfg, before, d) + [(Run(cfg, before).shared, last.fine)]
      else SightsOf(cfg, before, d)
  }

  lemma ReadersMoveByReading(cfg: Config, w: World, step: Step, d: nat)
    ensures var after := Apply(cfg, w, step).readers;
            if step.StartDownload? && step.d == d && d !in w.readers
            then d in after && after[d] == FindingPayload(step.id, step.room)
            else if d in w.readers
            then d in after && after[d] == if step.Read? && step.d == d
                                           then ReaderStep(w.shared, w.readers[d], step.fine) else w.readers[d]
            else d !in after
  {
    hide RequestStep, SweepStep, PurgeStep, OpenRequest, ReaderStep, ResumeRequest;
  }

  /** Every download of every run is this loop, fed what it saw. So what PipelineTheorems
      proves of the machine's readers it proves of `Download`. */
  lemma {:induction false} MachineReadersAreDownloads(cfg: Config, picks: seq<Step>, d: nat)
    returns (id: Id, room: Id)
    ensures d in Run(cfg, picks).readers ==>
              Run(cfg, picks).readers[d] == Follow(FindingPayload(id, room), SightsOf(cfg, picks, d))
    ensures d !in Run(cfg, picks).readers ==> SightsOf(cfg, picks, d) == []
  {
    if picks == [] {
      id, room := Id(""), Id("");
    } else {
      var before := picks[..|picks| - 1];
      var last := picks[|picks| - 1];
      id, room := MachineReadersAreDownloads(cfg, before, d);
      ReadersMoveByReading(cfg, Run(cfg, before), last, d);
      hide Apply, ReaderStep;
      if last.StartDownload? && last.d == d && d !in Run(cfg, before).readers {
        id, room := last.id, last.room;
      } else if last.Read? && last.d == d && d in Run(cfg, before).readers {
        assert SightsOf(cfg, picks, d)[..|SightsOf(cfg, picks, d)| - 1] == SightsOf(cfg, before, d);
      }
    }
  }
}
