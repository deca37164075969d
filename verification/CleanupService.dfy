/** The services that tear things down, as the loops they are: RoomService's purge and close
    (apps/api/src/room/room.service.ts) and ExpirySweeperService
    (apps/api/src/sweeper/expiry-sweeper.service.ts). */
module CleanupService {
  import opened Common
  import opened ObjectStorage
  import opened UploadSessions
  import opened Cleanup

  class Housekeeper {
    const storage: Storage
    const store: InMemoryUploadSessionStore
    var order: seq<Id>
    var transfers: map<Id, Id>
    var payloads: map<Id, ObjectKey>
    var rooms: map<Id, Room>
    var roomOrder: seq<Id>
    var sweeping: bool

    ghost predicate Valid()
      reads this, store
    {
      store.Valid()
    }

    function State(): Stores
      reads this, storage, store
    {
      Stores(storage.objects, store.sessions, order, transfers, payloads, rooms)
    }

    constructor (storage: Storage, store: InMemoryUploadSessionStore)
      requires store.Valid()
      ensures this.storage == storage && this.store == store && Valid() && !sweeping
      ensures State() == Stores(storage.objects, store.sessions, [], map[], map[], map[])
    {
      this.storage, this.store := storage, store;
      order, transfers, payloads := [], map[], map[];
      rooms, roomOrder, sweeping := map[], [], false;
    }

    method ListStorageKeys(room: Id) returns (keys: seq<ObjectKey>)
      ensures keys == KeysIn(State(), room)
    {
      keys := [];
      for i := 0 to |order|
        invariant keys == StorageKeys(order[..i], transfers, payloads, room)
      {
        assert order[..i + 1][..i] == order[..i];
        var id := order[i];
        if id in transfers && transfers[id] == room && id in payloads {
          keys := keys + [payloads[id]];
        }
      }
      assert order[..|order|] == order;
    }

    /** Stops at the first removal that fails. */
    method RemoveAll(keys: seq<ObjectKey>, verdicts: nat -> Verdict) returns (ok: bool)
      modifies storage
      ensures (storage.objects, ok) == RemoveFrom(old(storage.objects), keys, 0, verdicts)
    {
      var i := 0;
      while i < |keys|
        invariant i <= |keys|
        invariant RemoveFrom(old(storage.objects), keys, 0, verdicts) == RemoveFrom(storage.objects, keys, i, verdicts)
      {
        var removed := storage.RemoveObject(keys[i], verdicts(i));
        if !removed {
          return false;
        }
        i := i + 1;
      }
      ok := true;
    }

    method PurgeRoomContents(room: Id, calls: PurgeCalls) returns (ok: bool)
      modifies this`order, this`transfers, this`payloads, storage
      ensures (State(), ok) == Purge(old(State()), room, calls)
    {
      if !calls.list {
        return false;
      }
      var keys := ListStorageKeys(room);
      var removed := RemoveAll(keys, calls.removes);
      if !removed {
        return false;
      }
      if calls.rows != Refused {
        var gone := set id | id in transfers && transfers[id] == room;
        order, transfers, payloads := WithoutAll(order, gone), transfers - gone, payloads - gone;
      }
      ok := calls.rows == Done;
    }

    /** Purge first, status last: a Room whose purge failed is still ACTIVE. */
    method End(room: Id, status: RoomStatus, calls: PurgeCalls) returns (ok: bool)
      modifies this`order, this`transfers, this`payloads, this`rooms, storage
      ensures (State(), ok) == EndRoom(old(State()), room, status, calls)
    {
      var purged := PurgeRoomContents(room, calls);
      if !purged {
        return false;
      }
      if room !in rooms {
        return false;
      }
      if calls.flip != Refused {
        rooms := rooms[room := rooms[room].(status := status)];
      }
      ok := calls.flip == Done;
    }

    method FindExpiredActive(now: int) returns (expired: seq<Id>)
      ensures expired == ExpiredActive(roomOrder, rooms, now)
    {
      expired := [];
      for i := 0 to |roomOrder|
        invariant expired == ExpiredActive(roomOrder[..i], rooms, now)
      {
        assert roomOrder[..i + 1][..i] == roomOrder[..i];
        var id := roomOrder[i];
        if id in rooms && rooms[id].status == Active && rooms[id].expiresAt <= now {
          expired := expired + [id];
        }
      }
      assert roomOrder[..|roomOrder|] == roomOrder;
    }

    method ExpireRooms(now: int, calls: nat -> PurgeCalls) returns (expired: nat)
      modifies this`order, this`transfers, this`payloads, this`rooms, storage
      ensures (State(), expired) == ExpireAll(old(State()), ExpiredActive(roomOrder, old(rooms), now), calls)
    {
      hide EndRoom;
      var due := FindExpiredActive(now);
      expired := 0;
      for i := 0 to |due|
        invariant (State(), expired) == ExpireAll(old(State()), due[..i], calls)
      {
        assert due[..i + 1][..i] == due[..i];
        var ok := End(due[i], Expired, calls(i));
        if ok {
          expired := expired + 1;
        }
      }
      assert due[..|due|] == due;
    }

    /** Chunks, then the final object, then the rows, then the slot. */
    method ReapSession(s: Session, indices: seq<nat>, calls: ReapCalls) returns (ok: bool)
      requires Valid() && Lists(indices, s.receivedChunks)
      modifies this`order, this`transfers, this`payloads, storage, store
      ensures Valid()
      ensures (State(), ok) == Reap(old(State()), s, indices, calls)
    {
      var cleared := RemoveAll(ChunkKeys(s, indices), calls.chunks);
      if !cleared {
        return false;
      }
      var removed := storage.RemoveObject(FileObject(s.Room(), s.Tid()), calls.final);
      if !removed {
        return false;
      }
      if calls.rows != Refused {
        var gone := {s.Tid()};
        order, transfers, payloads := WithoutAll(order, gone), transfers - gone, payloads - gone;
      }
      if calls.rows != Done {
        return false;
      }
      store.Delete(s.Tid());
      ok := true;
    }

    method ReapAbandonedUploads(now: int, walk: Session -> seq<nat>, calls: nat -> ReapCalls) returns (reaped: nat)
      requires Valid() && forall s: Session :: Lists(walk(s), s.receivedChunks)
      modifies this`order, this`transfers, this`payloads, storage, store
      ensures Valid()
      ensures var stale := StaleIn(old(store.sessions), old(store.order), now - ABANDONED_UPLOAD_TTL_MS);
              (State(), reaped) == ReapAll(old(State()), stale, walk, calls)
    {
      hide Reap;
      var stale := store.FindAbandoned(now - ABANDONED_UPLOAD_TTL_MS);
      reaped := 0;
      for i := 0 to |stale|
        invariant Valid()
        invariant (State(), reaped) == ReapAll(old(State()), stale[..i], walk, calls)
      {
        assert stale[..i + 1][..i] == stale[..i];
        var ok := ReapSession(stale[i], walk(stale[i]), calls(i));
        if ok {
          reaped := reaped + 1;
        }
      }
      assert stale[..|stale|] == stale;
    }

    /** A tick during a sweep does nothing; otherwise expire, then reap, and lower the flag
        whatever happened. `listed` is false when reading the expired Rooms fails. */
    method SweepOnce(now: int, listed: bool, calls: nat -> PurgeCalls, walk: Session -> seq<nat>, reaps: nat -> ReapCalls)
      requires Valid() && forall s: Session :: Lists(walk(s), s.receivedChunks)
      modifies this, storage, store
      ensures Valid()
      ensures old(sweeping) ==> State() == old(State()) && sweeping
      ensures !old(sweeping) ==> !sweeping
      ensures !old(sweeping) && !listed ==> State() == old(State())
      ensures !old(sweeping) && listed ==>
                State() == Swept(old(State()), old(roomOrder), old(store.order), now, calls, walk, reaps)
    {
      if sweeping {
        return;
      }
      sweeping := true;
      if listed {
        var expired := ExpireRooms(now, calls);
        var reaped := ReapAbandonedUploads(now, walk, reaps);
      }
      sweeping := false;
    }
  }
}
