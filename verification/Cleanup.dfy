/** Tearing things down: Room purge, close and expiry (apps/api/src/room/room.service.ts,
    room-status.ts) and the reaping of an abandoned upload
    (apps/api/src/sweeper/expiry-sweeper.service.ts), with any call failing. */
module Cleanup {
  import opened Common
  import opened ObjectStorage
  import opened UploadSessions

  datatype RoomStatus = Active | Closed | Expired

  datatype Room = Room(status: RoomStatus, expiresAt: int)

  /** Everything the server keeps. `order` is the insertion order of the Transfer rows. */
  datatype Stores = Stores(
    objects: Objects,
    sessions: Sessions,
    order: seq<Id>,
    transfers: map<Id, Id>,
    payloads: map<Id, ObjectKey>,
    rooms: map<Id, Room>)

  predicate IsExpired(room: Room, now: int) {
    room.status != Active || room.expiresAt <= now
  }

  datatype JoinError = NoSuchRoom | RoomIsClosed | RoomIsExpired

  /** `join`: a closed Room is told apart from a lapsed one. */
  function Join(st: Stores, room: Id, now: int): Result<Id, JoinError> {
    if room !in st.rooms then Failure(NoSuchRoom)
    else if st.rooms[room].status == Closed then Failure(RoomIsClosed)
    else if IsExpired(st.rooms[room], now) then Failure(RoomIsExpired)
    else Success(room)
  }

  /** A row belongs to its Room and names the Room's own object; payloads hang off rows. */
  ghost predicate WellKeyed(st: Stores) {
    && (forall id :: id in st.payloads ==> id in st.transfers && st.payloads[id] == FileObject(st.transfers[id], id))
    && Lists(st.order, st.transfers.Keys)
  }

  /** Every stored final object has its rows. */
  ghost predicate Backed(st: Stores) {
    forall k :: k in st.objects && k.FileObject? ==>
      k.transfer in st.payloads && st.payloads[k.transfer] == k
  }

  /** `listStorageKeysByRoomId`, in row order. */
  function StorageKeys(order: seq<Id>, transfers: map<Id, Id>, payloads: map<Id, ObjectKey>, room: Id): seq<ObjectKey> {
    if order == [] then []
    else
      var before := StorageKeys(order[..|order| - 1], transfers, payloads, room);
      var id := order[|order| - 1];
      if id in transfers && transfers[id] == room && id in payloads then before + [payloads[id]] else before
  }

  function KeysIn(st: Stores, room: Id): seq<ObjectKey> {
    StorageKeys(st.order, st.transfers, st.payloads, room)
  }

  function RowsOf(st: Stores, room: Id): set<Id> {
    set id | id in st.transfers && st.transfers[id] == room
  }

  function WithoutAll(order: seq<Id>, gone: set<Id>): seq<Id> {
    if order == [] then []
    else
      var before := WithoutAll(order[..|order| - 1], gone);
      if order[|order| - 1] in gone then before else before + [order[|order| - 1]]
  }

  function DropRows(st: Stores, gone: set<Id>): Stores {
    st.(order := WithoutAll(st.order, gone), transfers := st.transfers - gone, payloads := st.payloads - gone)
  }

  // --- Purge, close, expire --------------------------------------------------------

  /** What the calls of one attempt do: the key listing, the i-th removal, the deletion of
      the rows, the change of status. */
  datatype PurgeCalls = PurgeCalls(list: bool, removes: nat -> Verdict, rows: Verdict, flip: Verdict)

  const AllDone := PurgeCalls(true, _ => Done, Done, Done)

  /** Removes keys[i..] in order and stops at the first failure. */
  function RemoveFrom(objects: Objects, keys: seq<ObjectKey>, i: nat, verdicts: nat -> Verdict): (Objects, bool)
    requires i <= |keys|
    decreases |keys| - i
  {
    if i == |keys| then (objects, true)
    else
      var objects' := Remove(objects, keys[i], verdicts(i));
      if verdicts(i).Reported() then RemoveFrom(objects', keys, i + 1, verdicts) else (objects', false)
  }

  function Purge(st: Stores, room: Id, calls: PurgeCalls): (Stores, bool) {
    if !calls.list then (st, false)
    else
      var (objects, ok) := RemoveFrom(st.objects, KeysIn(st, room), 0, calls.removes);
      var removed := st.(objects := objects);
      if !ok then (removed, false)
      else (if calls.rows.TookEffect() then DropRows(removed, RowsOf(st, room)) else removed, calls.rows.Reported())
  }

  function SetStatus(st: Stores, room: Id, status: RoomStatus): Stores {
    if room in st.rooms then st.(rooms := st.rooms[room := st.rooms[room].(status := status)]) else st
  }

  /** `close` and `expireRoom`: the status changes last. Changing that of no Room fails. */
  function EndRoom(st: Stores, room: Id, status: RoomStatus, calls: PurgeCalls): (Stores, bool) {
    var (purged, ok) := Purge(st, room, calls);
    if !ok || room !in st.rooms then (purged, false)
    else (if calls.flip.TookEffect() then SetStatus(purged, room, status) else purged, calls.flip.Reported())
  }

  function KeySet(st: Stores, room: Id): set<ObjectKey> {
    set k | k in KeysIn(st, room)
  }

  /** A Room purged in one clean run. */
  function Emptied(st: Stores, room: Id): Stores {
    DropRows(st, RowsOf(st, room)).(objects := st.objects - KeySet(st, room))
  }

  function Ended(st: Stores, room: Id, status: RoomStatus): Stores {
    SetStatus(Emptied(st, room), room, status)
  }

  /** The storage keys of a Room are the keys its rows name. */
  lemma {:induction false} StorageKeysAreTheRows(st: Stores, room: Id, order: seq<Id>)
    requires WellKeyed(st)
    ensures forall k :: k in StorageKeys(order, st.transfers, st.payloads, room)
              <==> k.transfer in order && k.transfer in st.payloads && st.payloads[k.transfer] == k && k.room == room
  {
    if order != [] {
      StorageKeysAreTheRows(st, room, order[..|order| - 1]);
      assert order == order[..|order| - 1] + [order[|order| - 1]];
    }
  }

  lemma KeysInAreTheRows(st: Stores, room: Id)
    requires WellKeyed(st)
    ensures forall k :: k in KeysIn(st, room) <==> k.transfer in st.payloads && st.payloads[k.transfer] == k && k.room == room
  {
    StorageKeysAreTheRows(st, room, st.order);
  }

  lemma {:induction false} RemovalIsPartial(objects: Objects, keys: seq<ObjectKey>, i: nat, verdicts: nat -> Verdict)
    requires i <= |keys|
    ensures var (objects', ok) := RemoveFrom(objects, keys, i, verdicts);
            && (forall k :: k in objects' ==> k in objects && objects'[k] == objects[k])
            && (forall k :: k in objects && k !in objects' ==> k in keys[i..])
            && (ok ==> objects' == objects - (set k | k in keys[i..]))
    decreases |keys| - i
  {
    if i < |keys| {
      assert keys[i..] == [keys[i]] + keys[i + 1..];
      RemovalIsPartial(Remove(objects, keys[i], verdicts(i)), keys, i + 1, verdicts);
    } else {
      assert (set k | k in keys[i..]) == {};
    }
  }

  lemma {:induction false} WithoutAllLists(order: seq<Id>, keys: set<Id>, gone: set<Id>)
    requires Lists(order, keys)
    ensures Lists(WithoutAll(order, gone), keys - gone)
    ensures gone !! keys ==> WithoutAll(order, gone) == order
  {
    if order != [] {
      var last := order[|order| - 1];
      assert order == order[..|order| - 1] + [last];
      WithoutAllLists(order[..|order| - 1], keys - {last}, gone);
      var rest := WithoutAll(order[..|order| - 1], gone);
      assert last !in rest;
      assert forall k :: k in rest + [last] <==> k in rest || k == last;
    }
  }

  /** The rows that are left stay in order. */
  lemma {:induction false} LeftRowsKeepTheirOrder(order: seq<Id>, gone: set<Id>, a: Id, b: Id)
    ensures Precedes(WithoutAll(order, gone), a, b) ==> Precedes(order, a, b)
    ensures a in WithoutAll(order, gone) ==> a in order && a !in gone
  {
    if order != [] {
      var n := |order| - 1;
      LeftRowsKeepTheirOrder(order[..n], gone, a, b);
      assert order == order[..n] + [order[n]];
      var rest, all := WithoutAll(order[..n], gone), WithoutAll(order, gone);
      if i, j :| 0 <= i < j < |all| && all[i] == a && all[j] == b {
        assert rest[i] == a;
        if j < |rest| {
          assert rest[j] == b;
          var k, m :| 0 <= k < m < n && order[..n][k] == a && order[..n][m] == b;
          assert order[k] == a && order[m] == b;
        } else {
          LeftRowsKeepTheirOrder(order[..n], gone, a, a);
          var k :| 0 <= k < n && order[..n][k] == a;
          assert order[k] == a && order[n] == b;
        }
      }
    }
  }

  lemma DroppingKeepsOrder(st: Stores, gone: set<Id>)
    requires Lists(st.order, st.transfers.Keys)
    ensures var st' := DropRows(st, gone);
            && st'.transfers.Keys == st.transfers.Keys - gone && st'.payloads.Keys == st.payloads.Keys - gone
            && Lists(st'.order, st'.transfers.Keys)
            && (forall id :: id in gone ==> id !in st'.order)
  {
    WithoutAllLists(st.order, st.transfers.Keys, gone);
    assert (st.transfers - gone).Keys == st.transfers.Keys - gone;
    assert (st.payloads - gone).Keys == st.payloads.Keys - gone;
    hide WithoutAll, Distinct;
  }

  /** Some of the Room's final objects are gone and nothing else has changed but statuses. */
  ghost predicate Nibbled(st: Stores, st': Stores, room: Id) {
    && st' == st.(objects := st'.objects, rooms := st'.rooms)
    && (forall k :: k in st'.objects ==> k in st.objects && st'.objects[k] == st.objects[k])
    && (forall k :: k in st.objects && k !in st'.objects ==> k in KeySet(st, room))
  }

  /** What one attempt leaves, whatever fails: the rows go only once every object is gone. */
  ghost predicate OnTheWay(st: Stores, st': Stores, room: Id) {
    Nibbled(st, st', room) || st' == Emptied(st, room).(rooms := st'.rooms)
  }

  lemma PurgeIsOnTheWay(st: Stores, room: Id, calls: PurgeCalls)
    ensures var (st', ok) := Purge(st, room, calls);
            OnTheWay(st, st', room) && st'.rooms == st.rooms && (ok ==> st' == Emptied(st, room))
  {
    var keys := KeysIn(st, room);
    RemovalIsPartial(st.objects, keys, 0, calls.removes);
    assert keys[0..] == keys;
    hide RemoveFrom, KeysIn, WithoutAll;
    var (objects, ok) := RemoveFrom(st.objects, keys, 0, calls.removes);
    assert ok ==> objects == st.objects - KeySet(st, room);
    assert Nibbled(st, st.(objects := objects), room);
  }

  lemma AttemptIsOnTheWay(st: Stores, room: Id, status: RoomStatus, calls: PurgeCalls)
    ensures var (st', ok) := EndRoom(st, room, status, calls);
            && OnTheWay(st, st', room)
            && (st'.rooms == st.rooms || st'.rooms == SetStatus(st, room, status).rooms)
            && (ok ==> st' == Ended(st, room, status))
            && (st'.rooms != st.rooms ==> st' == Ended(st, room, status))
            && st'.rooms == if Purge(st, room, calls).1 && calls.flip.TookEffect()
                            then SetStatus(st, room, status).rooms else st.rooms
  {
    PurgeIsOnTheWay(st, room, calls);
    hide Purge, Nibbled, KeySet, DropRows;
    assert Emptied(st, room).rooms == st.rooms by { EmptyingKeepsRooms(st, room); }
  }

  lemma EmptyingKeepsRooms(st: Stores, room: Id)
    ensures Emptied(st, room).rooms == st.rooms && Emptied(st, room).sessions == st.sessions
  {
  }

  lemma NibblingLosesNothing(st: Stores, st': Stores, room: Id)
    requires WellKeyed(st) && Nibbled(st, st', room)
    ensures WellKeyed(st') && (Backed(st) ==> Backed(st'))
    ensures Emptied(st', room).(rooms := st.rooms) == Emptied(st, room).(rooms := st.rooms)
  {
    assert KeySet(st', room) == KeySet(st, room);
    hide KeysIn;
    assert st'.objects - KeySet(st, room) == st.objects - KeySet(st, room);
  }

  lemma EmptiedIsWellKeyed(st: Stores, st': Stores, room: Id)
    requires WellKeyed(st) && st' == Emptied(st, room).(rooms := st'.rooms)
    ensures WellKeyed(st') && (Backed(st) ==> Backed(st'))
    ensures RowsOf(st', room) == {}
  {
    KeysInAreTheRows(st, room);
    DroppingKeepsOrder(st, RowsOf(st, room));
    hide KeysIn, WithoutAll, Lists;
  }

  lemma EmptyingTwiceIsOnce(st: Stores, st': Stores, room: Id)
    requires WellKeyed(st) && st' == Emptied(st, room).(rooms := st'.rooms)
    ensures WellKeyed(st') && (Backed(st) ==> Backed(st'))
    ensures Emptied(st', room).(rooms := st.rooms) == Emptied(st, room).(rooms := st.rooms)
  {
    EmptiedIsWellKeyed(st, st', room);
    KeysInAreTheRows(st', room);
    DroppingNothing(st');
    hide KeysIn, WellKeyed, Backed, DropRows, Emptied;
    assert KeySet(st', room) == {};
    assert Emptied(st', room) == st' by { EmptyingAnEmptyRoom(st', room); }
  }

  lemma EmptyingAnEmptyRoom(st: Stores, room: Id)
    requires RowsOf(st, room) == {} && KeySet(st, room) == {} && DropRows(st, {}) == st
    ensures Emptied(st, room) == st
  {
  }

  lemma DroppingNothing(st: Stores)
    requires Lists(st.order, st.transfers.Keys)
    ensures DropRows(st, {}) == st
  {
    WithoutAllLists(st.order, st.transfers.Keys, {});
    assert st.transfers - {} == st.transfers && st.payloads - {} == st.payloads;
  }

  /** Mid-way states are well keyed, still back every final object, and lead to the same
      clean end. */
  lemma OnTheWayEndsTheSame(st: Stores, st': Stores, room: Id, status: RoomStatus)
    requires WellKeyed(st) && OnTheWay(st, st', room)
    requires st'.rooms == st.rooms || st'.rooms == SetStatus(st, room, status).rooms
    ensures WellKeyed(st') && (Backed(st) ==> Backed(st'))
    ensures Ended(st', room, status) == Ended(st, room, status)
  {
    if Nibbled(st, st', room) { NibblingLosesNothing(st, st', room); }
    else { EmptyingTwiceIsOnce(st, st', room); }
    EmptyingKeepsRooms(st, room);
    EmptyingKeepsRooms(st', room);
    hide WellKeyed, Backed, Emptied, Nibbled, SetStatus;
    StatusIsIdempotent(st, st', Emptied(st, room), Emptied(st', room), room, status);
  }

  lemma StatusIsIdempotent(st: Stores, st': Stores, a: Stores, b: Stores, room: Id, status: RoomStatus)
    requires a.rooms == st.rooms && b.rooms == st'.rooms && a.(rooms := st.rooms) == b.(rooms := st.rooms)
    requires st'.rooms == st.rooms || st'.rooms == SetStatus(st, room, status).rooms
    ensures SetStatus(b, room, status) == SetStatus(a, room, status)
  {
  }

  /** Any attempts at closing (or expiring) a Room, one after another. */
  function Attempts(st: Stores, room: Id, status: RoomStatus, tries: seq<PurgeCalls>): Stores {
    if tries == [] then st
    else EndRoom(Attempts(st, room, status, tries[..|tries| - 1]), room, status, tries[|tries| - 1]).0
  }

  /** Retry safety: through any number of attempts failing at any call, every stored final
      object keeps its rows, and the first attempt that succeeds ends exactly as one clean
      run on the original state would have. */
  lemma {:induction false} RetriesEndLikeOneCleanRun(st: Stores, room: Id, status: RoomStatus, tries: seq<PurgeCalls>, last: PurgeCalls)
    requires WellKeyed(st)
    ensures var mid := Attempts(st, room, status, tries);
            && WellKeyed(mid) && (Backed(st) ==> Backed(mid))
            && Ended(mid, room, status) == Ended(st, room, status)
            && (EndRoom(mid, room, status, last).1 ==> EndRoom(mid, room, status, last).0 == Ended(st, room, status))
  {
    if tries != [] {
      RetriesEndLikeOneCleanRun(st, room, status, tries[..|tries| - 1], last);
      var before := Attempts(st, room, status, tries[..|tries| - 1]);
      AttemptIsOnTheWay(before, room, status, tries[|tries| - 1]);
      hide EndRoom, Ended;
      OnTheWayEndsTheSame(before, Attempts(st, room, status, tries), room, status);
    }
    AttemptIsOnTheWay(Attempts(st, room, status, tries), room, status, last);
  }

  /** Ending a Room sets its status and nothing else of any Room, once the purge has gone through and
      if the change takes effect; a purge that fails leaves every status as it was. */
  lemma EndingSetsTheStatus(st: Stores, room: Id, status: RoomStatus, calls: PurgeCalls)
    ensures var (st', ok) := EndRoom(st, room, status, calls);
            && (ok ==> room in st.rooms && st'.rooms == st.rooms[room := Room(status, st.rooms[room].expiresAt)])
            && (!Purge(st, room, calls).1 || room !in st.rooms ==> !ok && st'.rooms == st.rooms)
            && (Purge(st, room, calls).1 && room in st.rooms ==>
                  && ok == calls.flip.Reported()
                  && st'.rooms == if calls.flip.TookEffect()
                                  then st.rooms[room := Room(status, st.rooms[room].expiresAt)] else st.rooms)
  {
    PurgeIsOnTheWay(st, room, calls);
    hide Purge, OnTheWay, Emptied;
  }

  // --- A batch of expiries -----------------------------------------------------------

  /** Everything that concerns one Room is the same in both states. */
  ghost predicate SameRoom(a: Stores, b: Stores, room: Id) {
    && RowsOf(a, room) == RowsOf(b, room)
    && (forall id :: id in RowsOf(a, room) ==> SameAt(a.payloads, b.payloads, id))
    && (forall k: ObjectKey :: k.room == room ==> SameAt(a.objects, b.objects, k))
    && SameAt(a.rooms, b.rooms, room)
  }

  lemma NibblingIsLocal(st: Stores, st': Stores, room: Id, other: Id)
    requires WellKeyed(st) && other != room && Nibbled(st, st', room) && SameAt(st'.rooms, st.rooms, other)
    ensures SameRoom(st', st, other)
  {
    KeysInAreTheRows(st, room);
    hide KeysIn;
  }

  lemma EmptyingIsLocal(st: Stores, st': Stores, room: Id, other: Id)
    requires WellKeyed(st) && other != room && SameAt(st'.rooms, st.rooms, other)
    requires st' == Emptied(st, room).(rooms := st'.rooms)
    ensures SameRoom(st', st, other)
  {
    KeysInAreTheRows(st, room);
    hide KeysIn, WithoutAll;
  }

  /** An attempt on one Room leaves the others as they were. */
  lemma OtherRoomsAreUntouched(st: Stores, room: Id, other: Id, status: RoomStatus, calls: PurgeCalls)
    requires WellKeyed(st) && other != room
    ensures SameRoom(EndRoom(st, room, status, calls).0, st, other)
  {
    AttemptIsOnTheWay(st, room, status, calls);
    var st' := EndRoom(st, room, status, calls).0;
    assert SameAt(st'.rooms, st.rooms, other);
    hide EndRoom, Ended, WellKeyed, Nibbled, SameRoom;
    if Nibbled(st, st', room) { NibblingIsLocal(st, st', room, other); }
    else { EmptyingIsLocal(st, st', room, other); }
  }

  lemma SameRoomIsTransitive(a: Stores, b: Stores, c: Stores, room: Id)
    requires SameRoom(a, b, room) && SameRoom(b, c, room)
    ensures SameRoom(a, c, room)
  {
  }

  lemma SameRoomAsItself(a: Stores, room: Id)
    ensures SameRoom(a, a, room)
  {
  }

  /** `expireRooms`: each Room in turn; a failure is skipped. Returns how many succeeded. */
  function ExpireAll(st: Stores, rooms: seq<Id>, calls: nat -> PurgeCalls): (Stores, nat) {
    if rooms == [] then (st, 0)
    else
      var (before, expired) := ExpireAll(st, rooms[..|rooms| - 1], calls);
      var (after, ok) := EndRoom(before, rooms[|rooms| - 1], Expired, calls(|rooms| - 1));
      (after, if ok then expired + 1 else expired)
  }

  lemma {:induction false} BatchStaysWellKeyed(st: Stores, rooms: seq<Id>, calls: nat -> PurgeCalls)
    requires WellKeyed(st)
    ensures WellKeyed(ExpireAll(st, rooms, calls).0)
  {
    if rooms != [] {
      BatchStaysWellKeyed(st, rooms[..|rooms| - 1], calls);
      var before := ExpireAll(st, rooms[..|rooms| - 1], calls).0;
      var room := rooms[|rooms| - 1];
      AttemptIsOnTheWay(before, room, Expired, calls(|rooms| - 1));
      OnTheWayEndsTheSame(before, EndRoom(before, room, Expired, calls(|rooms| - 1)).0, room, Expired);
    }
  }

  lemma {:induction false} BatchLeavesOthersAlone(st: Stores, rooms: seq<Id>, calls: nat -> PurgeCalls, other: Id)
    requires WellKeyed(st) && other !in rooms
    ensures SameRoom(ExpireAll(st, rooms, calls).0, st, other)
  {
    if rooms != [] {
      var init := rooms[..|rooms| - 1];
      BatchStaysWellKeyed(st, init, calls);
      BatchLeavesOthersAlone(st, init, calls, other);
      var before := ExpireAll(st, init, calls).0;
      OtherRoomsAreUntouched(before, rooms[|rooms| - 1], other, Expired, calls(|rooms| - 1));
      SameRoomIsTransitive(ExpireAll(st, rooms, calls).0, before, st, other);
    }
  }

  lemma LastOfBatch(st: Stores, rooms: seq<Id>, calls: nat -> PurgeCalls)
    requires rooms != []
    ensures var last := |rooms| - 1;
            ExpireAll(st, rooms, calls).0 == EndRoom(ExpireAll(st, rooms[..last], calls).0, rooms[last], Expired, calls(last)).0
  {
  }

  /** One Room's failure never stops the batch: the i-th Room's attempt runs on its contents
      as they were, what it leaves is what the batch leaves, and statuses change exactly when the
      purge succeeded and the status change took effect. */
  lemma {:induction false} EachRoomHasItsOwnAttempt(st: Stores, rooms: seq<Id>, calls: nat -> PurgeCalls, i: nat)
    requires WellKeyed(st) && Distinct(rooms) && i < |rooms|
    ensures var before := ExpireAll(st, rooms[..i], calls).0;
            var (after, ok) := EndRoom(before, rooms[i], Expired, calls(i));
            && SameRoom(before, st, rooms[i])
            && SameRoom(ExpireAll(st, rooms, calls).0, after, rooms[i])
            && (ok ==> after == Ended(before, rooms[i], Expired))
            && after.rooms == if Purge(before, rooms[i], calls(i)).1 && rooms[i] in before.rooms && calls(i).flip.TookEffect()
                              then before.rooms[rooms[i] := Room(Expired, before.rooms[rooms[i]].expiresAt)] else before.rooms
    decreases |rooms|
  {
    var last := |rooms| - 1;
    assert rooms[i] !in rooms[..i];
    BatchLeavesOthersAlone(st, rooms[..i], calls, rooms[i]);
    BatchStaysWellKeyed(st, rooms[..i], calls);
    var before := ExpireAll(st, rooms[..i], calls).0;
    AttemptIsOnTheWay(before, rooms[i], Expired, calls(i));
    EndingSetsTheStatus(before, rooms[i], Expired, calls(i));
    LastOfBatch(st, rooms, calls);
    hide Purge, EndRoom, Ended, SameRoom, WellKeyed, OnTheWay, SetStatus, ExpireAll;
    if i < last {
      var init := rooms[..last];
      EachRoomHasItsOwnAttempt(st, init, calls, i);
      assert init[..i] == rooms[..i];
      BatchStaysWellKeyed(st, init, calls);
      var halfway := ExpireAll(st, init, calls).0;
      OtherRoomsAreUntouched(halfway, rooms[last], rooms[i], Expired, calls(last));
      SameRoomIsTransitive(ExpireAll(st, rooms, calls).0, halfway, EndRoom(before, rooms[i], Expired, calls(i)).0, rooms[i]);
    } else {
      SameRoomAsItself(ExpireAll(st, rooms, calls).0, rooms[i]);
    }
  }

  /** The Rooms `findExpiredActive` returns, in row order. */
  function ExpiredActive(order: seq<Id>, rooms: map<Id, Room>, now: int): seq<Id> {
    if order == [] then []
    else
      var before := ExpiredActive(order[..|order| - 1], rooms, now);
      var id := order[|order| - 1];
      if id in rooms && rooms[id].status == Active && rooms[id].expiresAt <= now then before + [id] else before
  }

  // --- Joining an ended Room -----------------------------------------------------------

  datatype Event =
    | Close(room: Id, calls: PurgeCalls)
    | Sweep(order: seq<Id>, attempts: nat -> PurgeCalls)
    | Create(room: Id, expiresAt: int)
    | Wait(ms: nat)

  /** What can happen to Rooms: closing, sweeping in some row order, creating one with a fresh id, time. */
  function After(st: Stores, now: int, event: Event): (Stores, int) {
    match event
    case Close(room, calls) => (EndRoom(st, room, Closed, calls).0, now)
    case Sweep(order, calls) => (ExpireAll(st, ExpiredActive(order, st.rooms, now), calls).0, now)
    case Create(room, expiresAt) =>
      (if room in st.rooms then st else st.(rooms := st.rooms[room := Room(Active, expiresAt)]), now)
    case Wait(ms) => (st, now + ms)
  }

  function AfterAll(st: Stores, now: int, events: seq<Event>): (Stores, int) {
    if events == [] then (st, now)
    else
      var (before, then') := AfterAll(st, now, events[..|events| - 1]);
      After(before, then', events[|events| - 1])
  }

  /** No longer ACTIVE, or at or past its expiry. */
  ghost predicate Over(st: Stores, now: int, room: Id) {
    room in st.rooms && (st.rooms[room].status != Active || st.rooms[room].expiresAt <= now)
  }

  /** What a join is told: that the Room is closed if somebody closed it, that it is expired if it is
      over otherwise. */
  lemma JoinsAreToldWhy(st: Stores, room: Id, now: int)
    ensures Join(st, room, now) == Success(room) <==> room in st.rooms && !Over(st, now, room)
    ensures Join(st, room, now) == Failure(NoSuchRoom) <==> room !in st.rooms
    ensures Join(st, room, now) == Failure(RoomIsClosed) <==> room in st.rooms && st.rooms[room].status == Closed
    ensures Join(st, room, now) == Failure(RoomIsExpired) <==> Over(st, now, room) && st.rooms[room].status != Closed
  {
  }

  lemma EndingKeepsOver(st: Stores, now: int, room: Id, ended: Id, status: RoomStatus, calls: PurgeCalls)
    requires Over(st, now, room) && status != Active
    ensures Over(EndRoom(st, ended, status, calls).0, now, room)
  {
  }

  lemma {:induction false} BatchKeepsOver(st: Stores, now: int, room: Id, rooms: seq<Id>, calls: nat -> PurgeCalls)
    requires Over(st, now, room)
    ensures Over(ExpireAll(st, rooms, calls).0, now, room)
  {
    if rooms != [] {
      BatchKeepsOver(st, now, room, rooms[..|rooms| - 1], calls);
      EndingKeepsOver(ExpireAll(st, rooms[..|rooms| - 1], calls).0, now, room, rooms[|rooms| - 1], Expired, calls(|rooms| - 1));
    }
  }

  /** A Room is joinable exactly while it is ACTIVE and before its expiry; once it is not,
      no later event ever makes it joinable again. */
  lemma {:induction false} EndedRoomsStayEnded(st: Stores, now: int, room: Id, events: seq<Event>)
    ensures Join(st, room, now).Success? <==> room in st.rooms && !Over(st, now, room)
    ensures Over(st, now, room) ==>
              var (later, then') := AfterAll(st, now, events);
              Over(later, then', room) && Join(later, room, then').Failure?
  {
    if events != [] && Over(st, now, room) {
      EndedRoomsStayEnded(st, now, room, events[..|events| - 1]);
      var (before, then') := AfterAll(st, now, events[..|events| - 1]);
      match events[|events| - 1] {
        case Close(ended, calls) => EndingKeepsOver(before, then', room, ended, Closed, calls);
        case Sweep(order, calls) =>
          BatchKeepsOver(before, then', room, ExpiredActive(order, before.rooms, then'), calls);
        case Create(_, _) =>
        case Wait(_) =>
      }
    }
  }

  lemma {:induction false} BatchKeepsOtherStatuses(st: Stores, rooms: seq<Id>, calls: nat -> PurgeCalls, other: Id)
    requires other !in rooms
    ensures SameAt(ExpireAll(st, rooms, calls).0.rooms, st.rooms, other)
  {
    if rooms != [] {
      var n := |rooms| - 1;
      BatchKeepsOtherStatuses(st, rooms[..n], calls, other);
      assert rooms[n] != other;
      var before := ExpireAll(st, rooms[..n], calls).0;
      AttemptIsOnTheWay(before, rooms[n], Expired, calls(n));
      hide EndRoom, Ended, OnTheWay, Purge;
    }
  }

  /** The attempt on the i-th Room of a batch succeeds. */
  ghost predicate Succeeds(st: Stores, rooms: seq<Id>, calls: nat -> PurgeCalls, i: nat)
    requires i < |rooms|
  {
    EndRoom(ExpireAll(st, rooms[..i], calls).0, rooms[i], Expired, calls(i)).1
  }

  ghost function Succeeded(st: Stores, rooms: seq<Id>, calls: nat -> PurgeCalls): set<nat> {
    set i | 0 <= i < |rooms| && Succeeds(st, rooms, calls, i)
  }

  lemma PrefixSucceedsTheSame(st: Stores, rooms: seq<Id>, calls: nat -> PurgeCalls, n: nat, i: nat)
    requires i < n <= |rooms|
    ensures Succeeds(st, rooms[..n], calls, i) == Succeeds(st, rooms, calls, i)
  {
    hide EndRoom, ExpireAll;
    assert rooms[..n][..i] == rooms[..i];
  }

  lemma OneMoreCounted(st: Stores, rooms: seq<Id>, calls: nat -> PurgeCalls)
    requires rooms != []
    ensures var n := |rooms| - 1;
            ExpireAll(st, rooms, calls).1
            == ExpireAll(st, rooms[..n], calls).1 + if Succeeds(st, rooms, calls, n) then 1 else 0
  {
    hide EndRoom;
  }

  lemma OneMoreSucceeded(st: Stores, rooms: seq<Id>, calls: nat -> PurgeCalls, n: nat)
    requires |rooms| == n + 1
    ensures |Succeeded(st, rooms, calls)| == |Succeeded(st, rooms[..n], calls)| + if Succeeds(st, rooms, calls, n) then 1 else 0
  {
    hide Succeeds;
    var before, after := Succeeded(st, rooms[..n], calls), Succeeded(st, rooms, calls);
    forall i: nat ensures i in after <==> i in before || (i == n && Succeeds(st, rooms, calls, n)) {
      if i < n { PrefixSucceedsTheSame(st, rooms, calls, n, i); }
    }
    var last: set<nat> := if Succeeds(st, rooms, calls, n) then {n} else {};
    assert after == before + last;
  }

  /** The count a batch returns is that of the attempts that succeeded. */
  lemma {:induction false} ExpiredCountIsExact(st: Stores, rooms: seq<Id>, calls: nat -> PurgeCalls)
    ensures ExpireAll(st, rooms, calls).1 == |Succeeded(st, rooms, calls)|
  {
    if rooms == [] {
      assert Succeeded(st, rooms, calls) == {};
    } else {
      var n := |rooms| - 1;
      ExpiredCountIsExact(st, rooms[..n], calls);
      OneMoreCounted(st, rooms, calls);
      OneMoreSucceeded(st, rooms, calls, n);
      hide ExpireAll, Succeeds, Succeeded;
    }
  }

  /** A sweep goes for exactly the ACTIVE Rooms at or past their expiry, each once. */
  lemma {:induction false} ExpiredActiveIsExact(order: seq<Id>, rooms: map<Id, Room>, now: int)
    requires Distinct(order)
    ensures var due := ExpiredActive(order, rooms, now);
            && Distinct(due)
            && forall id :: id in due <==> id in order && id in rooms && rooms[id].status == Active && rooms[id].expiresAt <= now
  {
    if order != [] {
      ExpiredActiveIsExact(order[..|order| - 1], rooms, now);
      assert order == order[..|order| - 1] + [order[|order| - 1]];
    }
  }

  lemma {:induction false} OnlyActiveRoomsAreDue(order: seq<Id>, rooms: map<Id, Room>, now: int, id: Id)
    requires id in ExpiredActive(order, rooms, now)
    ensures id in rooms && rooms[id].status == Active
  {
    if id !in ExpiredActive(order[..|order| - 1], rooms, now) {
    } else {
      OnlyActiveRoomsAreDue(order[..|order| - 1], rooms, now, id);
    }
  }

  ghost predicate HasStatus(st: Stores, room: Id, status: RoomStatus) {
    room in st.rooms && st.rooms[room].status == status
  }

  lemma EventKeepsStatus(st: Stores, now: int, room: Id, status: RoomStatus, event: Event)
    requires HasStatus(st, room, status) && status != Active
    requires status == Closed || !(event.Close? && event.room == room)
    ensures HasStatus(After(st, now, event).0, room, status)
  {
    match event
    case Close(ended, calls) =>
      EndingSetsTheStatus(st, ended, Closed, calls);
      hide EndRoom, Purge;
    case Sweep(order, calls) =>
      var due := ExpiredActive(order, st.rooms, now);
      if room in due { OnlyActiveRoomsAreDue(order, st.rooms, now, room); }
      BatchKeepsOtherStatuses(st, due, calls, room);
    case _ =>
  }

  lemma {:induction false} StatusLasts(st: Stores, now: int, room: Id, status: RoomStatus, events: seq<Event>)
    requires HasStatus(st, room, status) && status != Active
    requires status == Closed || forall calls :: Close(room, calls) !in events
    ensures HasStatus(AfterAll(st, now, events).0, room, status)
  {
    hide After, HasStatus;
    if events != [] {
      var init, last := events[..|events| - 1], events[|events| - 1];
      assert last in events && forall e :: e in init ==> e in events;
      StatusLasts(st, now, room, status, init);
      var (before, then') := AfterAll(st, now, init);
      if last.Close? && last.room == room { assert last == Close(room, last.calls); }
      EventKeepsStatus(before, then', room, status, last);
    }
  }

  /** Once a close succeeded the Room answers that it is closed, through whatever happens later. */
  lemma ClosedRoomsSayClosed(st: Stores, now: int, room: Id, calls: PurgeCalls, events: seq<Event>)
    requires EndRoom(st, room, Closed, calls).1
    ensures var (later, then') := AfterAll(EndRoom(st, room, Closed, calls).0, now, events);
            Join(later, room, then') == Failure(RoomIsClosed)
  {
    EndingSetsTheStatus(st, room, Closed, calls);
    hide EndRoom, Purge;
    StatusLasts(EndRoom(st, room, Closed, calls).0, now, room, Closed, events);
  }

  /** Once an expiry succeeded the Room answers that it is expired, until somebody closes it. */
  lemma ExpiredRoomsSayExpired(st: Stores, now: int, room: Id, calls: PurgeCalls, events: seq<Event>)
    requires EndRoom(st, room, Expired, calls).1 && forall closing :: Close(room, closing) !in events
    ensures var (later, then') := AfterAll(EndRoom(st, room, Expired, calls).0, now, events);
            Join(later, room, then') == Failure(RoomIsExpired)
  {
    EndingSetsTheStatus(st, room, Expired, calls);
    hide EndRoom, Purge;
    StatusLasts(EndRoom(st, room, Expired, calls).0, now, room, Expired, events);
  }

  // --- Reaping an abandoned upload -----------------------------------------------------

  /** What the calls of one reap do: the i-th chunk removal, the final object, the rows. */
  datatype ReapCalls = ReapCalls(chunks: nat -> Verdict, final: Verdict, rows: Verdict)

  function ChunkKeys(s: Session, indices: seq<nat>): seq<ObjectKey> {
    seq(|indices|, (i: nat) requires i < |indices| => ChunkObject(s.Room(), s.Tid(), indices[i]))
  }

  /** The rest of a reap once its chunks are gone: final object, rows, and the slot last. */
  function ReapRest(st: Stores, s: Session, calls: ReapCalls): (Stores, bool) {
    var cleared := st.(objects := Remove(st.objects, FileObject(s.Room(), s.Tid()), calls.final));
    if !calls.final.Reported() then (cleared, false)
    else
      var unlisted := if calls.rows.TookEffect() then DropRows(cleared, {s.Tid()}) else cleared;
      if !calls.rows.Reported() then (unlisted, false)
      else (unlisted.(sessions := unlisted.sessions - {s.Tid()}), true)
  }

  /** `reapSession`, walking the received indices in the given order. */
  function Reap(st: Stores, s: Session, indices: seq<nat>, calls: ReapCalls): (Stores, bool) {
    var (objects, ok) := RemoveFrom(st.objects, ChunkKeys(s, indices), 0, calls.chunks);
    var cleared := st.(objects := objects);
    if ok then ReapRest(cleared, s, calls) else (cleared, false)
  }

  /** Every stored chunk of the Transfer is marked received, and its objects lie in its Room. */
  ghost predicate Covered(st: Stores, s: Session) {
    && (forall k :: k in st.objects && k.transfer == s.Tid() ==> k.room == s.Room())
    && (forall k :: k in st.objects && k.ChunkObject? && k.transfer == s.Tid() ==> k.index in s.receivedChunks)
  }

  ghost predicate NothingLeft(st: Stores, id: Id) {
    && (forall k :: k in st.objects ==> k.transfer != id)
    && id !in st.transfers && id !in st.payloads && id !in st.sessions && id !in st.order
  }

  /** What a reap may have done so far: removed only this Transfer's objects and rows. */
  ghost predicate OnlyThisUpload(st: Stores, st': Stores, id: Id) {
    && (forall k: ObjectKey :: k.transfer != id ==> SameAt(st'.objects, st.objects, k))
    && (forall k :: k in st'.objects ==> k in st.objects && st'.objects[k] == st.objects[k])
    && st'.transfers - {id} == st.transfers - {id} && st'.payloads - {id} == st.payloads - {id}
    && (id in st'.transfers ==> id in st.transfers) && (id in st'.payloads ==> id in st.payloads)
    && st'.sessions - {id} == st.sessions - {id} && st'.rooms == st.rooms
  }

  /** `indices` is the order in which the received set is walked. */
  ghost predicate Reapable(st: Stores, s: Session, indices: seq<nat>) {
    && Lists(st.order, st.transfers.Keys) && st.payloads.Keys <= st.transfers.Keys
    && Covered(st, s) && Lists(indices, s.receivedChunks)
  }

  lemma ChunkRemovalIsScoped(st: Stores, s: Session, indices: seq<nat>, calls: ReapCalls)
    requires Reapable(st, s, indices)
    ensures var (objects, ok) := RemoveFrom(st.objects, ChunkKeys(s, indices), 0, calls.chunks);
            var cleared := st.(objects := objects);
            && OnlyThisUpload(st, cleared, s.Tid()) && Reapable(cleared, s, indices)
            && (ok ==> forall k :: k in objects && k.transfer == s.Tid() ==> k.FileObject?)
  {
    var keys := ChunkKeys(s, indices);
    RemovalIsPartial(st.objects, keys, 0, calls.chunks);
    assert keys[0..] == keys;
    forall k | k in st.objects && k.ChunkObject? && k.transfer == s.Tid() ensures k in keys {
      var i :| 0 <= i < |indices| && indices[i] == k.index;
      assert keys[i] == k;
    }
    hide RemoveFrom;
  }

  lemma FinalRemovalIsScoped(st: Stores, s: Session, indices: seq<nat>, verdict: Verdict)
    requires Reapable(st, s, indices)
    ensures var cleared := st.(objects := Remove(st.objects, FileObject(s.Room(), s.Tid()), verdict));
            OnlyThisUpload(st, cleared, s.Tid()) && Reapable(cleared, s, indices)
  {
  }

  lemma RowRemovalIsScoped(st: Stores, s: Session, indices: seq<nat>)
    requires Reapable(st, s, indices)
    ensures var unlisted := DropRows(st, {s.Tid()});
            && OnlyThisUpload(st, unlisted, s.Tid()) && Reapable(unlisted, s, indices)
            && s.Tid() !in unlisted.transfers && s.Tid() !in unlisted.payloads && s.Tid() !in unlisted.order
  {
    DroppingKeepsOrder(st, {s.Tid()});
    hide WithoutAll, Lists;
  }

  lemma ReapRestIsRetrySafe(st: Stores, s: Session, indices: seq<nat>, calls: ReapCalls)
    requires Reapable(st, s, indices)
    requires forall k :: k in st.objects && k.transfer == s.Tid() ==> k.FileObject?
    ensures var (st', ok) := ReapRest(st, s, calls);
            && OnlyThisUpload(st, st', s.Tid()) && Reapable(st', s, indices)
            && (ok ==> NothingLeft(st', s.Tid()))
            && (!ok ==> st'.sessions == st.sessions)
  {
    var cleared := st.(objects := Remove(st.objects, FileObject(s.Room(), s.Tid()), calls.final));
    FinalRemovalIsScoped(st, s, indices, calls.final);
    RowRemovalIsScoped(cleared, s, indices);
    var unlisted := DropRows(cleared, {s.Tid()});
    ReapsCompose(st, cleared, unlisted, s.Tid());
    assert forall k :: k in cleared.objects && calls.final.Reported() ==> k.transfer != s.Tid();
    SlotReleaseIsScoped(st, unlisted, s, indices);
    hide OnlyThisUpload, Reapable;
  }

  lemma SlotReleaseIsScoped(st: Stores, unlisted: Stores, s: Session, indices: seq<nat>)
    requires OnlyThisUpload(st, unlisted, s.Tid()) && Reapable(unlisted, s, indices)
    ensures var freed := unlisted.(sessions := unlisted.sessions - {s.Tid()});
            OnlyThisUpload(st, freed, s.Tid()) && Reapable(freed, s, indices)
  {
  }

  lemma ReapsCompose(a: Stores, b: Stores, c: Stores, id: Id)
    requires OnlyThisUpload(a, b, id) && OnlyThisUpload(b, c, id)
    ensures OnlyThisUpload(a, c, id)
  {
  }

  /** A reap that succeeds leaves nothing of the upload; one that fails at any call keeps the
      session, so a later sweep finds it and starts from a state just as good. */
  lemma ReapIsRetrySafe(st: Stores, s: Session, indices: seq<nat>, calls: ReapCalls)
    requires Reapable(st, s, indices)
    ensures var (st', ok) := Reap(st, s, indices, calls);
            && OnlyThisUpload(st, st', s.Tid()) && Reapable(st', s, indices)
            && (ok ==> NothingLeft(st', s.Tid()))
            && (!ok ==> st'.sessions == st.sessions)
  {
    ChunkRemovalIsScoped(st, s, indices, calls);
    var (objects, ok) := RemoveFrom(st.objects, ChunkKeys(s, indices), 0, calls.chunks);
    hide OnlyThisUpload, Reapable, RemoveFrom, ReapRest, NothingLeft;
    if ok {
      var cleared := st.(objects := objects);
      ReapRestIsRetrySafe(cleared, s, indices, calls);
      ReapsCompose(st, cleared, ReapRest(cleared, s, calls).0, s.Tid());
    }
  }

  /** `reapAbandonedUploads`: each stale session in turn; a failure is skipped. */
  function ReapAll(st: Stores, stale: seq<Session>, walk: Session -> seq<nat>, calls: nat -> ReapCalls): (Stores, nat) {
    if stale == [] then (st, 0)
    else
      var (before, reaped) := ReapAll(st, stale[..|stale| - 1], walk, calls);
      var s := stale[|stale| - 1];
      var (after, ok) := Reap(before, s, walk(s), calls(|stale| - 1));
      (after, if ok then reaped + 1 else reaped)
  }

  /** The reap of the i-th abandoned upload succeeds. */
  ghost predicate ReapSucceeds(st: Stores, stale: seq<Session>, walk: Session -> seq<nat>, calls: nat -> ReapCalls, i: nat)
    requires i < |stale|
  {
    Reap(ReapAll(st, stale[..i], walk, calls).0, stale[i], walk(stale[i]), calls(i)).1
  }

  ghost function ReapsSucceeded(st: Stores, stale: seq<Session>, walk: Session -> seq<nat>, calls: nat -> ReapCalls): set<nat> {
    set i | 0 <= i < |stale| && ReapSucceeds(st, stale, walk, calls, i)
  }

  lemma OneMoreReapCounted(st: Stores, stale: seq<Session>, walk: Session -> seq<nat>, calls: nat -> ReapCalls)
    requires stale != []
    ensures var n := |stale| - 1;
            ReapAll(st, stale, walk, calls).1
            == ReapAll(st, stale[..n], walk, calls).1 + if ReapSucceeds(st, stale, walk, calls, n) then 1 else 0
  {
    hide Reap;
  }

  lemma PrefixReapsTheSame(st: Stores, stale: seq<Session>, walk: Session -> seq<nat>, calls: nat -> ReapCalls, n: nat, i: nat)
    requires i < n <= |stale|
    ensures ReapSucceeds(st, stale[..n], walk, calls, i) == ReapSucceeds(st, stale, walk, calls, i)
  {
    hide Reap, ReapAll;
    assert stale[..n][..i] == stale[..i];
  }

  lemma OneMoreReap(st: Stores, stale: seq<Session>, walk: Session -> seq<nat>, calls: nat -> ReapCalls, n: nat)
    requires |stale| == n + 1
    ensures |ReapsSucceeded(st, stale, walk, calls)|
         == |ReapsSucceeded(st, stale[..n], walk, calls)| + if ReapSucceeds(st, stale, walk, calls, n) then 1 else 0
  {
    hide ReapSucceeds;
    var before, after := ReapsSucceeded(st, stale[..n], walk, calls), ReapsSucceeded(st, stale, walk, calls);
    forall i: nat ensures i in after <==> i in before || (i == n && ReapSucceeds(st, stale, walk, calls, n)) {
      if i < n { PrefixReapsTheSame(st, stale, walk, calls, n, i); }
    }
    var last: set<nat> := if ReapSucceeds(st, stale, walk, calls, n) then {n} else {};
    assert after == before + last;
  }

  /** The count a sweep reports is that of the uploads it reaped. */
  lemma {:induction false} ReapedCountIsExact(st: Stores, stale: seq<Session>, walk: Session -> seq<nat>, calls: nat -> ReapCalls)
    ensures ReapAll(st, stale, walk, calls).1 == |ReapsSucceeded(st, stale, walk, calls)|
  {
    if stale == [] {
      assert ReapsSucceeded(st, stale, walk, calls) == {};
    } else {
      var n := |stale| - 1;
      ReapedCountIsExact(st, stale[..n], walk, calls);
      OneMoreReapCounted(st, stale, walk, calls);
      OneMoreReap(st, stale, walk, calls, n);
      hide ReapAll, ReapSucceeds, ReapsSucceeded;
    }
  }

  function ReapAttempts(st: Stores, s: Session, indices: seq<nat>, tries: seq<ReapCalls>): Stores {
    if tries == [] then st
    else Reap(ReapAttempts(st, s, indices, tries[..|tries| - 1]), s, indices, tries[|tries| - 1]).0
  }

  /** Any number of failed reaps followed by one that succeeds ends with nothing left of the
      upload and everything else untouched. */
  lemma {:induction false} ReapsEndWithNothingLeft(st: Stores, s: Session, indices: seq<nat>, tries: seq<ReapCalls>, last: ReapCalls)
    requires Reapable(st, s, indices)
    ensures var mid := ReapAttempts(st, s, indices, tries);
            var (end, ok) := Reap(mid, s, indices, last);
            && OnlyThisUpload(st, mid, s.Tid()) && Reapable(mid, s, indices)
            && OnlyThisUpload(st, end, s.Tid())
            && (ok ==> NothingLeft(end, s.Tid()))
            && (!ok ==> end.sessions == mid.sessions)
  {
    if tries == [] {
      assert OnlyThisUpload(st, st, s.Tid());
    } else {
      var init, previous := tries[..|tries| - 1], tries[|tries| - 1];
      ReapsEndWithNothingLeft(st, s, indices, init, previous);
      ReapIsRetrySafe(ReapAttempts(st, s, indices, init), s, indices, previous);
    }
    hide Reap, OnlyThisUpload, Reapable, NothingLeft;
    var mid := ReapAttempts(st, s, indices, tries);
    ReapIsRetrySafe(mid, s, indices, last);
    ReapsCompose(st, mid, Reap(mid, s, indices, last).0, s.Tid());
  }

  // --- A whole sweep -------------------------------------------------------------------

  /** What one sweep leaves: the due Rooms expired, then the abandoned uploads reaped. */
  function Swept(st: Stores, roomOrder: seq<Id>, sessionOrder: seq<Id>, now: int, calls: nat -> PurgeCalls,
                 walk: Session -> seq<nat>, reaps: nat -> ReapCalls): Stores
    requires forall id :: id in sessionOrder ==> id in st.sessions
  {
    ReapAll(ExpireAll(st, ExpiredActive(roomOrder, st.rooms, now), calls).0,
            StaleIn(st.sessions, sessionOrder, now - ABANDONED_UPLOAD_TTL_MS), walk, reaps).0
  }

  /** Nothing is touched but objects and rows of the given uploads, and of those some may be gone. */
  ghost predicate OnlyUploads(st: Stores, st': Stores, ids: set<Id>) {
    && st'.rooms == st.rooms
    && (forall k: ObjectKey :: k.transfer !in ids ==> SameAt(st'.objects, st.objects, k))
    && (forall id :: id !in ids ==> SameAt(st'.transfers, st.transfers, id) && SameAt(st'.payloads, st.payloads, id))
    && (forall k :: k in st'.objects ==> k in st.objects)
    && (forall id :: id in st'.transfers ==> id in st.transfers && st'.transfers[id] == st.transfers[id])
    && (forall id :: id in st'.payloads ==> id in st.payloads)
    && (forall id :: id in st'.sessions ==> id in st.sessions && st'.sessions[id] == st.sessions[id])
  }

  lemma UploadsCompose(a: Stores, b: Stores, c: Stores, ids: set<Id>, more: set<Id>, all: set<Id>)
    requires OnlyUploads(a, b, ids) && OnlyUploads(b, c, more) && ids <= all && more <= all
    ensures OnlyUploads(a, c, all)
  {
  }

  lemma RowsAndSlotAreItsOwn(st: Stores, id: Id)
    ensures OnlyUploads(st, st, {id}) && OnlyUploads(st, DropRows(st, {id}), {id})
    ensures OnlyUploads(st, st.(sessions := st.sessions - {id}), {id})
  {
    hide WithoutAll;
  }

  lemma RemovalIsItsOwn(st: Stores, key: ObjectKey, verdict: Verdict)
    ensures OnlyUploads(st, st.(objects := Remove(st.objects, key, verdict)), {key.transfer})
  {
  }

  lemma ReapRestTouchesItsUpload(st: Stores, s: Session, calls: ReapCalls)
    ensures OnlyUploads(st, ReapRest(st, s, calls).0, {s.Tid()})
  {
    var id := s.Tid();
    var cleared := st.(objects := Remove(st.objects, FileObject(s.Room(), id), calls.final));
    var unlisted := if calls.rows.TookEffect() then DropRows(cleared, {id}) else cleared;
    RemovalIsItsOwn(st, FileObject(s.Room(), id), calls.final);
    RowsAndSlotAreItsOwn(cleared, id);
    RowsAndSlotAreItsOwn(unlisted, id);
    hide OnlyUploads, DropRows, Remove;
    UploadsCompose(st, cleared, unlisted, {id}, {id}, {id});
    UploadsCompose(st, unlisted, unlisted.(sessions := unlisted.sessions - {id}), {id}, {id}, {id});
  }

  lemma ChunkRemovalsTouchTheirUpload(st: Stores, s: Session, indices: seq<nat>, calls: ReapCalls)
    ensures OnlyUploads(st, st.(objects := RemoveFrom(st.objects, ChunkKeys(s, indices), 0, calls.chunks).0), {s.Tid()})
  {
    var keys := ChunkKeys(s, indices);
    RemovalIsPartial(st.objects, keys, 0, calls.chunks);
    assert keys[0..] == keys;
    hide RemoveFrom;
  }

  lemma ReapTouchesItsUpload(st: Stores, s: Session, indices: seq<nat>, calls: ReapCalls)
    ensures OnlyUploads(st, Reap(st, s, indices, calls).0, {s.Tid()})
  {
    hide OnlyUploads, ReapRest, RemoveFrom;
    ChunkRemovalsTouchTheirUpload(st, s, indices, calls);
    var cleared := st.(objects := RemoveFrom(st.objects, ChunkKeys(s, indices), 0, calls.chunks).0);
    ReapRestTouchesItsUpload(cleared, s, calls);
    UploadsCompose(st, cleared, ReapRest(cleared, s, calls).0, {s.Tid()}, {s.Tid()}, {s.Tid()});
  }

  ghost function TidsOf(stale: seq<Session>): set<Id> {
    set s | s in stale :: s.Tid()
  }

  lemma {:induction false} BatchTouchesItsUploads(st: Stores, stale: seq<Session>, walk: Session -> seq<nat>, calls: nat -> ReapCalls)
    ensures OnlyUploads(st, ReapAll(st, stale, walk, calls).0, TidsOf(stale))
  {
    if stale == [] {
      assert TidsOf(stale) == {};
    } else {
      hide OnlyUploads, Reap;
      var n := |stale| - 1;
      BatchTouchesItsUploads(st, stale[..n], walk, calls);
      var before := ReapAll(st, stale[..n], walk, calls).0;
      ReapTouchesItsUpload(before, stale[n], walk(stale[n]), calls(n));
      assert stale == stale[..n] + [stale[n]];
      UploadsCompose(st, before, ReapAll(st, stale, walk, calls).0, TidsOf(stale[..n]), {stale[n].Tid()}, TidsOf(stale));
    }
  }

  /** An upload the sweep takes for abandoned. */
  ghost predicate Abandoned(st: Stores, now: int, id: Id) {
    id in st.sessions && st.sessions[id].openedAt < now - ABANDONED_UPLOAD_TTL_MS
  }

  lemma StaleAreAbandoned(st: Stores, sessionOrder: seq<Id>, now: int)
    requires Lists(sessionOrder, st.sessions.Keys) && forall id :: id in st.sessions ==> st.sessions[id].Tid() == id
    ensures forall id :: id in TidsOf(StaleIn(st.sessions, sessionOrder, now - ABANDONED_UPLOAD_TTL_MS)) ==> Abandoned(st, now, id)
  {
    StaleInIsExact(st.sessions, sessionOrder, now - ABANDONED_UPLOAD_TTL_MS);
  }

  /** The orders are those of the tables, and every session is kept under its own id. */
  ghost predicate Sweepable(st: Stores, roomOrder: seq<Id>, sessionOrder: seq<Id>) {
    && WellKeyed(st) && Lists(roomOrder, st.rooms.Keys) && Lists(sessionOrder, st.sessions.Keys)
    && forall id :: id in st.sessions ==> st.sessions[id].Tid() == id
  }

  /** A sweep does nothing to a Room that can be joined but reap the abandoned uploads in it. */
  lemma SweepsSpareLiveRooms(st: Stores, roomOrder: seq<Id>, sessionOrder: seq<Id>, now: int, calls: nat -> PurgeCalls,
                             walk: Session -> seq<nat>, reaps: nat -> ReapCalls, room: Id)
    requires Sweepable(st, roomOrder, sessionOrder) && Join(st, room, now).Success?
    ensures var after := Swept(st, roomOrder, sessionOrder, now, calls, walk, reaps);
            && room in after.rooms && after.rooms[room] == st.rooms[room]
            && (forall id :: !Abandoned(st, now, id) ==> (id in RowsOf(after, room) <==> id in RowsOf(st, room)))
            && (forall id :: id in RowsOf(st, room) && !Abandoned(st, now, id) ==> SameAt(after.payloads, st.payloads, id))
            && (forall k: ObjectKey :: k.room == room && !Abandoned(st, now, k.transfer) ==> SameAt(after.objects, st.objects, k))
  {
    var due := ExpiredActive(roomOrder, st.rooms, now);
    var stale := StaleIn(st.sessions, sessionOrder, now - ABANDONED_UPLOAD_TTL_MS);
    ExpiredActiveIsExact(roomOrder, st.rooms, now);
    BatchLeavesOthersAlone(st, due, calls, room);
    StaleAreAbandoned(st, sessionOrder, now);
    hide ExpireAll, ReapAll, StaleIn, ExpiredActive, WellKeyed, Lists, TidsOf;
    BatchTouchesItsUploads(ExpireAll(st, due, calls).0, stale, walk, reaps);
  }

  /** The calls of an attempt are all answered. */
  ghost predicate AllAnswered(calls: PurgeCalls) {
    calls.list && (forall i: nat :: calls.removes(i).Reported()) && calls.rows.Reported() && calls.flip.Reported()
  }

  lemma {:induction false} AnsweredRemovalsSucceed(objects: Objects, keys: seq<ObjectKey>, i: nat, verdicts: nat -> Verdict)
    requires i <= |keys| && forall n: nat :: verdicts(n).Reported()
    ensures RemoveFrom(objects, keys, i, verdicts).1
    decreases |keys| - i
  {
    if i < |keys| { AnsweredRemovalsSucceed(Remove(objects, keys[i], verdicts(i)), keys, i + 1, verdicts); }
  }

  lemma AnsweredEndingsSucceed(st: Stores, room: Id, status: RoomStatus, calls: PurgeCalls)
    requires room in st.rooms && AllAnswered(calls)
    ensures EndRoom(st, room, status, calls).1
  {
    AnsweredRemovalsSucceed(st.objects, KeysIn(st, room), 0, calls.removes);
    hide RemoveFrom, KeysIn, DropRows;
  }

  /** The Room is expired and nothing of its Transfers is left but chunks of uploads under way. */
  ghost predicate ExpiredAndEmpty(st: Stores, after: Stores, room: Id) {
    && room in st.rooms && room in after.rooms && after.rooms[room] == Room(Expired, st.rooms[room].expiresAt)
    && RowsOf(after, room) == {}
    && (Backed(st) ==> forall k :: k in after.objects && k.room == room ==> k.ChunkObject?)
  }

  lemma EndedIsEmpty(st: Stores, before: Stores, room: Id, calls: PurgeCalls)
    requires WellKeyed(before) && SameRoom(before, st, room) && room in st.rooms && AllAnswered(calls)
    requires Backed(st) ==> Backed(before)
    ensures ExpiredAndEmpty(st, EndRoom(before, room, Expired, calls).0, room)
  {
    AnsweredEndingsSucceed(before, room, Expired, calls);
    EndingSetsTheStatus(before, room, Expired, calls);
    AttemptIsOnTheWay(before, room, Expired, calls);
    hide EndRoom, Purge, OnTheWay, KeysIn, WithoutAll;
    EmptiedIsWellKeyed(before, Emptied(before, room), room);
    KeysInAreTheRows(before, room);
    hide WellKeyed;
  }

  lemma ExpiredAndEmptyLasts(st: Stores, after: Stores, later: Stores, room: Id, ids: set<Id>)
    requires ExpiredAndEmpty(st, after, room) && OnlyUploads(after, later, ids)
    ensures ExpiredAndEmpty(st, later, room)
  {
  }

  lemma ExpiredAndEmptyMoves(st: Stores, after: Stores, later: Stores, room: Id)
    requires ExpiredAndEmpty(st, after, room) && SameRoom(later, after, room)
    ensures ExpiredAndEmpty(st, later, room)
  {
  }

  lemma {:induction false} BatchStaysBacked(st: Stores, rooms: seq<Id>, calls: nat -> PurgeCalls)
    requires WellKeyed(st)
    ensures Backed(st) ==> Backed(ExpireAll(st, rooms, calls).0)
  {
    if rooms != [] {
      var n := |rooms| - 1;
      BatchStaysBacked(st, rooms[..n], calls);
      BatchStaysWellKeyed(st, rooms[..n], calls);
      var before := ExpireAll(st, rooms[..n], calls).0;
      AttemptIsOnTheWay(before, rooms[n], Expired, calls(n));
      hide EndRoom, Ended, OnTheWay, Backed, WellKeyed;
      OnTheWayEndsTheSame(before, EndRoom(before, rooms[n], Expired, calls(n)).0, rooms[n], Expired);
    }
  }

  lemma BatchEmptiesRoom(st: Stores, due: seq<Id>, calls: nat -> PurgeCalls, i: nat)
    requires WellKeyed(st) && Distinct(due) && i < |due| && due[i] in st.rooms && AllAnswered(calls(i))
    ensures ExpiredAndEmpty(st, ExpireAll(st, due, calls).0, due[i])
  {
    EachRoomHasItsOwnAttempt(st, due, calls, i);
    BatchStaysWellKeyed(st, due[..i], calls);
    BatchStaysBacked(st, due[..i], calls);
    hide EndRoom, Ended, SetStatus, Purge, ExpireAll, SameRoom, WellKeyed, Backed, AllAnswered, ExpiredAndEmpty;
    var before := ExpireAll(st, due[..i], calls).0;
    EndedIsEmpty(st, before, due[i], calls(i));
    ExpiredAndEmptyMoves(st, EndRoom(before, due[i], Expired, calls(i)).0, ExpireAll(st, due, calls).0, due[i]);
  }

  /** A sweep attempts every ACTIVE Room that has lapsed, and if the calls of its attempt are answered
      the Room is EXPIRED afterwards and none of its rows and final objects is left. */
  lemma SweepsEndLapsedRooms(st: Stores, roomOrder: seq<Id>, sessionOrder: seq<Id>, now: int, calls: nat -> PurgeCalls,
                             walk: Session -> seq<nat>, reaps: nat -> ReapCalls, room: Id) returns (i: nat)
    requires Sweepable(st, roomOrder, sessionOrder)
    requires room in st.rooms && st.rooms[room].status == Active && st.rooms[room].expiresAt <= now
    ensures var due := ExpiredActive(roomOrder, st.rooms, now); i < |due| && due[i] == room
    ensures AllAnswered(calls(i)) ==>
              ExpiredAndEmpty(st, Swept(st, roomOrder, sessionOrder, now, calls, walk, reaps), room)
  {
    var due := ExpiredActive(roomOrder, st.rooms, now);
    var stale := StaleIn(st.sessions, sessionOrder, now - ABANDONED_UPLOAD_TTL_MS);
    ExpiredActiveIsExact(roomOrder, st.rooms, now);
    hide ExpireAll, ReapAll, StaleIn, ExpiredActive, WellKeyed, Lists, TidsOf, AllAnswered, OnlyUploads, ExpiredAndEmpty;
    i :| 0 <= i < |due| && due[i] == room;
    if AllAnswered(calls(i)) {
      BatchEmptiesRoom(st, due, calls, i);
      BatchTouchesItsUploads(ExpireAll(st, due, calls).0, stale, walk, reaps);
      var expired := ExpireAll(st, due, calls).0;
      ExpiredAndEmptyLasts(st, expired, ReapAll(expired, stale, walk, reaps).0, room, TidsOf(stale));
    }
  }

  /** The row order is that of the Transfer table, and payloads hang off rows. */
  ghost predicate Listed(st: Stores) {
    Lists(st.order, st.transfers.Keys) && st.payloads.Keys <= st.transfers.Keys
  }

  lemma ReapKeepsListed(st: Stores, s: Session, indices: seq<nat>, calls: ReapCalls)
    requires Listed(st)
    ensures Listed(Reap(st, s, indices, calls).0)
  {
    hide RemoveFrom, Lists, WithoutAll;
    var cleared := st.(objects := RemoveFrom(st.objects, ChunkKeys(s, indices), 0, calls.chunks).0);
    DroppingKeepsOrder(st, {s.Tid()});
  }

  lemma {:induction false} ReapsKeepListed(st: Stores, stale: seq<Session>, walk: Session -> seq<nat>, calls: nat -> ReapCalls)
    requires Listed(st)
    ensures Listed(ReapAll(st, stale, walk, calls).0)
  {
    hide Reap, Listed;
    if stale != [] {
      var n := |stale| - 1;
      ReapsKeepListed(st, stale[..n], walk, calls);
      ReapKeepsListed(ReapAll(st, stale[..n], walk, calls).0, stale[n], walk(stale[n]), calls(n));
    }
  }

  ghost predicate ReapAnswered(calls: ReapCalls) {
    (forall i: nat :: calls.chunks(i).Reported()) && calls.final.Reported() && calls.rows.Reported()
  }

  lemma AnsweredReapsSucceed(st: Stores, s: Session, indices: seq<nat>, calls: ReapCalls)
    requires ReapAnswered(calls)
    ensures Reap(st, s, indices, calls).1
  {
    AnsweredRemovalsSucceed(st.objects, ChunkKeys(s, indices), 0, calls.chunks);
    hide RemoveFrom, DropRows;
  }

  lemma StillReapable(st: Stores, later: Stores, ids: set<Id>, s: Session, indices: seq<nat>)
    requires Reapable(st, s, indices) && OnlyUploads(st, later, ids) && Listed(later)
    ensures Reapable(later, s, indices)
  {
  }

  lemma NothingComesBack(st: Stores, later: Stores, ids: set<Id>, id: Id)
    requires NothingLeft(st, id) && OnlyUploads(st, later, ids) && Listed(later)
    ensures NothingLeft(later, id)
  {
  }

  lemma LastReapLeavesNothing(st: Stores, stale: seq<Session>, walk: Session -> seq<nat>, calls: nat -> ReapCalls)
    requires stale != []
    requires var s := stale[|stale| - 1]; Reapable(st, s, walk(s)) && ReapAnswered(calls(|stale| - 1))
    ensures NothingLeft(ReapAll(st, stale, walk, calls).0, stale[|stale| - 1].Tid())
  {
    var n, s := |stale| - 1, stale[|stale| - 1];
    var before := ReapAll(st, stale[..n], walk, calls).0;
    assert Listed(st);
    hide Reap, OnlyUploads, Listed, Reapable, NothingLeft, ReapAnswered;
    ReapsKeepListed(st, stale[..n], walk, calls);
    BatchTouchesItsUploads(st, stale[..n], walk, calls);
    StillReapable(st, before, TidsOf(stale[..n]), s, walk(s));
    AnsweredReapsSucceed(before, s, walk(s), calls(n));
    ReapIsRetrySafe(before, s, walk(s), calls(n));
  }

  lemma OneMoreReapBringsNothingBack(st: Stores, stale: seq<Session>, walk: Session -> seq<nat>, calls: nat -> ReapCalls, id: Id)
    requires Listed(st) && stale != [] && NothingLeft(ReapAll(st, stale[..|stale| - 1], walk, calls).0, id)
    ensures NothingLeft(ReapAll(st, stale, walk, calls).0, id)
  {
    var n, s := |stale| - 1, stale[|stale| - 1];
    var before := ReapAll(st, stale[..n], walk, calls).0;
    hide Reap, OnlyUploads, Listed, NothingLeft;
    ReapsKeepListed(st, stale[..n], walk, calls);
    ReapKeepsListed(before, s, walk(s), calls(n));
    ReapTouchesItsUpload(before, s, walk(s), calls(n));
    NothingComesBack(before, Reap(before, s, walk(s), calls(n)).0, {s.Tid()}, id);
  }

  /** In a batch of reaps, the one whose calls are answered leaves nothing of its upload. */
  lemma {:induction false} BatchReapsUpload(st: Stores, stale: seq<Session>, walk: Session -> seq<nat>, calls: nat -> ReapCalls, i: nat)
    requires i < |stale| && Reapable(st, stale[i], walk(stale[i])) && ReapAnswered(calls(i))
    ensures NothingLeft(ReapAll(st, stale, walk, calls).0, stale[i].Tid())
    decreases |stale|
  {
    assert Listed(st);
    hide ReapAll, Listed, Reapable, NothingLeft, ReapAnswered;
    if i == |stale| - 1 {
      LastReapLeavesNothing(st, stale, walk, calls);
    } else {
      BatchReapsUpload(st, stale[..|stale| - 1], walk, calls, i);
      OneMoreReapBringsNothingBack(st, stale, walk, calls, stale[i].Tid());
    }
  }

  /** Expiring Rooms only takes objects and rows away. */
  ghost predicate OnlyTaken(st: Stores, st': Stores) {
    && (forall k :: k in st'.objects ==> k in st.objects) && st'.sessions == st.sessions
  }

  lemma {:induction false} BatchOnlyTakes(st: Stores, rooms: seq<Id>, calls: nat -> PurgeCalls)
    ensures OnlyTaken(st, ExpireAll(st, rooms, calls).0)
  {
    if rooms != [] {
      var n := |rooms| - 1;
      BatchOnlyTakes(st, rooms[..n], calls);
      var before := ExpireAll(st, rooms[..n], calls).0;
      AttemptIsOnTheWay(before, rooms[n], Expired, calls(n));
      EmptyingKeepsRooms(before, rooms[n]);
      hide EndRoom, Ended, Purge, KeySet;
    }
  }

  lemma ReapableOnceTaken(st: Stores, later: Stores, s: Session, indices: seq<nat>)
    requires Reapable(st, s, indices) && OnlyTaken(st, later) && WellKeyed(later)
    ensures Reapable(later, s, indices)
  {
  }

  /** A sweep reaps every upload opened more than an hour ago, and if the calls of its reap are answered
      nothing of it is left. */
  lemma SweepsReapAbandonedUploads(st: Stores, roomOrder: seq<Id>, sessionOrder: seq<Id>, now: int, calls: nat -> PurgeCalls,
                                   walk: Session -> seq<nat>, reaps: nat -> ReapCalls, id: Id) returns (i: nat)
    requires Sweepable(st, roomOrder, sessionOrder)
    requires id in st.sessions && st.sessions[id].openedAt < now - 3600000
    requires Reapable(st, st.sessions[id], walk(st.sessions[id]))
    ensures var stale := StaleIn(st.sessions, sessionOrder, now - ABANDONED_UPLOAD_TTL_MS);
            i < |stale| && stale[i] == st.sessions[id]
    ensures ReapAnswered(reaps(i)) ==> NothingLeft(Swept(st, roomOrder, sessionOrder, now, calls, walk, reaps), id)
  {
    var due := ExpiredActive(roomOrder, st.rooms, now);
    var stale := StaleIn(st.sessions, sessionOrder, now - ABANDONED_UPLOAD_TTL_MS);
    StaleInIsExact(st.sessions, sessionOrder, now - ABANDONED_UPLOAD_TTL_MS);
    assert st.sessions[id] in stale;
    hide ExpireAll, ReapAll, StaleIn, ExpiredActive, Lists, ReapAnswered, OnlyTaken, Reapable, NothingLeft;
    i :| 0 <= i < |stale| && stale[i] == st.sessions[id];
    BatchOnlyTakes(st, due, calls);
    BatchStaysWellKeyed(st, due, calls);
    hide WellKeyed;
    ReapableOnceTaken(st, ExpireAll(st, due, calls).0, stale[i], walk(stale[i]));
    if ReapAnswered(reaps(i)) {
      BatchReapsUpload(ExpireAll(st, due, calls).0, stale, walk, reaps, i);
    }
  }
}
