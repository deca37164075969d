/** The Transfer Log's persistent history: the batched reads of `listTransfers` in
    apps/api/src/room/room.service.ts. */
module TransferHistory {
  import opened Common

  datatype Kind = File | TextSnippet | Link

  datatype Transfer = Transfer(id: Id, room: Id, kind: Kind, author: Option<Id>, createdAt: int)

  datatype FilePayload = FilePayload(transferId: Id, fileName: string, fileSizeBytes: nat)

  datatype TextPayload = TextPayload(transferId: Id, content: string)

  datatype Participant = Participant(id: Id, room: Id, sender: bool, tokenHash: Id, displayName: Option<string>)

  datatype Room = Room(id: Id, code: string)

  /** The database tables, each in its own row order. */
  datatype Store = Store(
    rooms: seq<Room>, transfers: seq<Transfer>, filePayloads: seq<FilePayload>, textPayloads: seq<TextPayload>,
    deliveries: seq<Id>, participants: seq<Participant>)

  /** A TransferAuthor; its identity is derived from exactly these fields of the row. */
  datatype Author = Author(sender: bool, tokenHash: Id, displayName: Option<string>)

  datatype Item = Item(
    id: Id, kind: Kind, fileName: Option<string>, fileSizeBytes: Option<nat>, content: Option<string>,
    author: Option<Author>, delivered: bool, createdAt: int)

  function Find<T>(rows: seq<T>, key: T -> Id, id: Id): Option<T> {
    if rows == [] then None
    else if key(rows[0]) == id then Some(rows[0])
    else Find(rows[1..], key, id)
  }

  /** A batched read: the rows whose key is wanted. */
  function FindMany<T>(rows: seq<T>, key: T -> Id, ids: set<Id>): seq<T> {
    if rows == [] then []
    else (if key(rows[0]) in ids then [rows[0]] else []) + FindMany(rows[1..], key, ids)
  }

  /** new Map(rows.map((row) => [key(row), row])): a later row replaces an earlier one. */
  function Indexed<T>(rows: seq<T>, key: T -> Id): map<Id, T> {
    if rows == [] then map[]
    else Indexed(rows[..|rows| - 1], key)[key(rows[|rows| - 1]) := rows[|rows| - 1]]
  }

  function Get<T>(m: map<Id, T>, id: Id): Option<T> {
    if id in m then Some(m[id]) else None
  }

  ghost predicate UniqueKeys<T(!new)>(rows: seq<T>, key: T -> Id) {
    forall i, j :: 0 <= i < j < |rows| ==> key(rows[i]) != key(rows[j])
  }

  lemma {:induction false} FindGivesTheRow<T(!new)>(rows: seq<T>, key: T -> Id, k: nat)
    requires UniqueKeys(rows, key) && k < |rows|
    ensures Find(rows, key, key(rows[k])) == Some(rows[k])
  {
    if k > 0 {
      assert key(rows[0]) != key(rows[k]);
      FindGivesTheRow(rows[1..], key, k - 1);
    }
  }

  lemma {:induction false} FindMisses<T>(rows: seq<T>, key: T -> Id, id: Id)
    requires forall i :: 0 <= i < |rows| ==> key(rows[i]) != id
    ensures Find(rows, key, id) == None
  {
    if rows != [] { FindMisses(rows[1..], key, id); }
  }

  lemma {:induction false} IndexedIsFind<T(!new)>(rows: seq<T>, key: T -> Id, id: Id)
    requires UniqueKeys(rows, key)
    ensures Get(Indexed(rows, key), id) == Find(rows, key, id)
  {
    if rows != [] {
      var n := |rows| - 1;
      IndexedIsFind(rows[..n], key, id);
      if key(rows[n]) == id {
        FindGivesTheRow(rows, key, n);
      } else if k :| 0 <= k < n && key(rows[k]) == id {
        FindGivesTheRow(rows, key, k);
        FindGivesTheRow(rows[..n], key, k);
      } else {
        FindMisses(rows, key, id);
        FindMisses(rows[..n], key, id);
      }
    }
  }

  lemma {:induction false} FindManyKeepsKeysUnique<T(!new)>(rows: seq<T>, key: T -> Id, ids: set<Id>)
    requires UniqueKeys(rows, key)
    ensures UniqueKeys(FindMany(rows, key, ids), key)
    ensures forall r | r in FindMany(rows, key, ids) :: r in rows
  {
    if rows != [] {
      FindManyKeepsKeysUnique(rows[1..], key, ids);
      var rest := FindMany(rows[1..], key, ids);
      forall i | 0 <= i < |rest| ensures key(rows[0]) != key(rest[i]) {
        assert rest[i] in rest;
        var k :| 0 <= k < |rows[1..]| && rows[1..][k] == rest[i];
        assert rows[k + 1] == rest[i];
      }
    }
  }

  lemma {:induction false} FindManyFindsTheSame<T>(rows: seq<T>, key: T -> Id, ids: set<Id>, id: Id)
    requires id in ids
    ensures Find(FindMany(rows, key, ids), key, id) == Find(rows, key, id)
  {
    if rows != [] {
      FindManyFindsTheSame(rows[1..], key, ids, id);
      var rest := FindMany(rows[1..], key, ids);
      if key(rows[0]) in ids {
        assert ([rows[0]] + rest)[1..] == rest;
      } else {
        assert [] + rest == rest;
      }
    }
  }

  /** One batched read and a Map answer as one lookup per key does. */
  lemma BatchedReadIsLookups<T(!new)>(rows: seq<T>, key: T -> Id, ids: set<Id>, id: Id)
    requires UniqueKeys(rows, key) && id in ids
    ensures Get(Indexed(FindMany(rows, key, ids), key), id) == Find(rows, key, id)
  {
    FindManyKeepsKeysUnique(rows, key, ids);
    IndexedIsFind(FindMany(rows, key, ids), key, id);
    FindManyFindsTheSame(rows, key, ids, id);
  }

  const FILE_KEY: FilePayload -> Id := (p: FilePayload) => p.transferId
  const TEXT_KEY: TextPayload -> Id := (p: TextPayload) => p.transferId
  const PARTICIPANT_KEY: Participant -> Id := (p: Participant) => p.id

  function InRoom(transfers: seq<Transfer>, room: Id): (r: seq<Transfer>)
    ensures forall t :: t in r <==> t in transfers && t.room == room
  {
    if transfers == [] then []
    else (if transfers[0].room == room then [transfers[0]] else []) + InRoom(transfers[1..], room)
  }

  lemma FirstOfRoom(transfers: seq<Transfer>, room: Id)
    requires transfers != []
    ensures InRoom(transfers, room)
            == InRoom([transfers[0]], room) + InRoom(transfers[1..], room)
    ensures InRoom([transfers[0]], room) == if transfers[0].room == room then [transfers[0]] else []
  {
    assert [transfers[0]][1..] == [];
  }

  lemma NothingOfRoom(room: Id)
    ensures InRoom([], room) == []
  {
  }

  /** A Room's Transfers are those of the table, in table order, each as often as it is there. */
  lemma {:induction false} RoomTransfersKeepTableOrder(a: seq<Transfer>, b: seq<Transfer>, room: Id)
    ensures InRoom(a + b, room) == InRoom(a, room) + InRoom(b, room)
    ensures a != [] ==> InRoom([a[0]], room) == if a[0].room == room then [a[0]] else []
  {
    hide InRoom;
    if a == [] {
      assert a + b == b;
      NothingOfRoom(room);
      assert [] + InRoom(b, room) == InRoom(b, room);
    } else {
      RoomTransfersKeepTableOrder(a[1..], b, room);
      assert (a + b)[1..] == a[1..] + b;
      FirstOfRoom(a + b, room);
      FirstOfRoom(a, room);
      var first, rest, last := InRoom([a[0]], room), InRoom(a[1..], room), InRoom(b, room);
      assert first + (rest + last) == first + rest + last;
    }
  }

  /** Where a Transfer goes among others in order of creation: after all that are not newer. */
  function Placed(sorted: seq<Transfer>, t: Transfer): (r: seq<Transfer>)
    ensures multiset(r) == multiset(sorted) + multiset{t}
  {
    if sorted == [] || sorted[|sorted| - 1].createdAt <= t.createdAt then sorted + [t]
    else
      assert sorted == sorted[..|sorted| - 1] + [sorted[|sorted| - 1]];
      Placed(sorted[..|sorted| - 1], t) + [sorted[|sorted| - 1]]
  }

  function OldestFirst(transfers: seq<Transfer>): (r: seq<Transfer>)
    ensures multiset(r) == multiset(transfers)
  {
    if transfers == [] then []
    else
      assert transfers == transfers[..|transfers| - 1] + [transfers[|transfers| - 1]];
      Placed(OldestFirst(transfers[..|transfers| - 1]), transfers[|transfers| - 1])
  }

  /** `findByRoomId`. */
  function FindByRoomId(transfers: seq<Transfer>, room: Id): (r: seq<Transfer>)
    ensures forall t :: t in r <==> t in transfers && t.room == room
  {
    var r := OldestFirst(InRoom(transfers, room));
    assert forall t :: t in r <==> t in multiset(r);
    assert forall t :: t in InRoom(transfers, room) <==> t in multiset(InRoom(transfers, room));
    r
  }

  ghost predicate InOrderOfCreation(transfers: seq<Transfer>) {
    forall i, j :: 0 <= i < j < |transfers| ==> transfers[i].createdAt <= transfers[j].createdAt
  }

  lemma {:induction false} PlacingKeepsOrder(sorted: seq<Transfer>, t: Transfer)
    requires InOrderOfCreation(sorted)
    ensures InOrderOfCreation(Placed(sorted, t))
  {
    if sorted != [] && sorted[|sorted| - 1].createdAt > t.createdAt {
      var init, last := sorted[..|sorted| - 1], sorted[|sorted| - 1];
      PlacingKeepsOrder(init, t);
      var r := Placed(init, t);
      forall i | 0 <= i < |r| ensures r[i].createdAt <= last.createdAt {
        assert r[i] in multiset(r);
        assert r[i] == t || r[i] in init;
      }
    }
  }

  lemma {:induction false} OldestFirstIsInOrder(transfers: seq<Transfer>)
    ensures InOrderOfCreation(OldestFirst(transfers))
  {
    if transfers != [] {
      OldestFirstIsInOrder(transfers[..|transfers| - 1]);
      PlacingKeepsOrder(OldestFirst(transfers[..|transfers| - 1]), transfers[|transfers| - 1]);
    }
  }

  /** A Room's Transfers come oldest first, each as often as the table has it. */
  lemma RoomTransfersComeOldestFirst(transfers: seq<Transfer>, room: Id)
    ensures InOrderOfCreation(FindByRoomId(transfers, room))
    ensures multiset(FindByRoomId(transfers, room)) == multiset(InRoom(transfers, room))
  {
    OldestFirstIsInOrder(InRoom(transfers, room));
  }

  /** The first Sender among the Participants of a Room. */
  function SenderOf(participants: seq<Participant>, room: Id): (p: Option<Participant>)
    ensures p.Some? ==> p.value in participants && p.value.room == room && p.value.sender
    ensures p.None? ==> forall q | q in participants :: q.room != room || !q.sender
  {
    if participants == [] then None
    else if participants[0].room == room && participants[0].sender then Some(participants[0])
    else SenderOf(participants[1..], room)
  }

  function AuthorOf(p: Participant): Author {
    Author(p.sender, p.tokenHash, p.displayName)
  }

  function Resolved(t: Transfer, author: Option<Participant>, sender: Option<Participant>): Option<Author> {
    if author.Some? then Some(AuthorOf(author.value))
    else if t.kind.File? && sender.Some? then Some(AuthorOf(sender.value))
    else None
  }

  function ItemOf(
    t: Transfer, file: Option<FilePayload>, text: Option<TextPayload>, author: Option<Participant>,
    sender: Option<Participant>, delivered: bool): Item
  {
    Item(t.id, t.kind,
         if file.Some? then Some(file.value.fileName) else None,
         if file.Some? then Some(file.value.fileSizeBytes) else None,
         if text.Some? then Some(text.value.content) else None,
         Resolved(t, author, sender), delivered, t.createdAt)
  }

  /** An empty id counts as no author, as it does in a JavaScript condition. */
  predicate HasAuthorId(t: Transfer) {
    t.author.Some? && t.author.value.text != ""
  }

  function HasUnauthoredFile(transfers: seq<Transfer>): bool {
    exists i :: 0 <= i < |transfers| && transfers[i].kind.File? && transfers[i].author.None?
  }

  /** The batched reads, with the Sender read only when `readSender`. */
  function Batched(store: Store, room: Id, readSender: bool): (items: seq<Item>)
    ensures |items| == |FindByRoomId(store.transfers, room)|
  {
    var transfers := FindByRoomId(store.transfers, room);
    var ids := set t | t in transfers :: t.id;
    var authorIds := set t | t in transfers && t.author.Some? :: t.author.value;
    var files := Indexed(FindMany(store.filePayloads, FILE_KEY, ids), FILE_KEY);
    var texts := Indexed(FindMany(store.textPayloads, TEXT_KEY, ids), TEXT_KEY);
    var delivered := set id | id in store.deliveries && id in ids;
    var authors := Indexed(FindMany(store.participants, PARTICIPANT_KEY, authorIds), PARTICIPANT_KEY);
    var sender := if readSender then SenderOf(store.participants, room) else None;
    seq(|transfers|, i requires 0 <= i < |transfers| =>
          var t := transfers[i];
          ItemOf(t, Get(files, t.id), Get(texts, t.id),
                 if HasAuthorId(t) then Get(authors, t.author.value) else None, sender, t.id in delivered))
  }

  datatype RoomNotFound = RoomNotFound(code: string)

  function FindByCode(rooms: seq<Room>, code: string): Option<Room> {
    if rooms == [] then None
    else if rooms[0].code == code then Some(rooms[0])
    else FindByCode(rooms[1..], code)
  }

  function ListTransfers(store: Store, roomCode: string): Result<seq<Item>, RoomNotFound> {
    match FindByCode(store.rooms, roomCode)
    case None => Failure(RoomNotFound(roomCode))
    case Some(room) => Success(Batched(store, room.id, HasUnauthoredFile(FindByRoomId(store.transfers, room.id))))
  }

  /** One Transfer at a time: its own payloads, delivery and author, the Room's Sender for a file
      that has none. */
  ghost function OneAtATime(store: Store, t: Transfer): Item {
    ItemOf(t, Find(store.filePayloads, FILE_KEY, t.id), Find(store.textPayloads, TEXT_KEY, t.id),
           if HasAuthorId(t) then Find(store.participants, PARTICIPANT_KEY, t.author.value) else None,
           SenderOf(store.participants, t.room), t.id in store.deliveries)
  }

  /** The unique columns of the schema. */
  ghost predicate StoreOk(store: Store) {
    && UniqueKeys(store.filePayloads, FILE_KEY)
    && UniqueKeys(store.textPayloads, TEXT_KEY)
    && UniqueKeys(store.participants, PARTICIPANT_KEY)
  }

  /** A Transfer whose author can be found, or has none recorded. */
  ghost predicate AuthorResolves(store: Store, t: Transfer) {
    t.author.Some? ==> HasAuthorId(t) && Find(store.participants, PARTICIPANT_KEY, t.author.value).Some?
  }

  lemma BatchedItem(store: Store, room: Id, readSender: bool, i: nat)
    requires StoreOk(store) && i < |FindByRoomId(store.transfers, room)|
    ensures var t := FindByRoomId(store.transfers, room)[i];
            Batched(store, room, readSender)[i]
            == OneAtATime(store, t).(author := Resolved(
                 t, if HasAuthorId(t) then Find(store.participants, PARTICIPANT_KEY, t.author.value) else None,
                 if readSender then SenderOf(store.participants, room) else None))
  {
    var transfers := FindByRoomId(store.transfers, room);
    var t := transfers[i];
    var ids := set u | u in transfers :: u.id;
    var authorIds := set u | u in transfers && u.author.Some? :: u.author.value;
    assert t in transfers && t.id in ids;
    BatchedReadIsLookups(store.filePayloads, FILE_KEY, ids, t.id);
    BatchedReadIsLookups(store.textPayloads, TEXT_KEY, ids, t.id);
    if t.author.Some? {
      assert t.author.value in authorIds;
      BatchedReadIsLookups(store.participants, PARTICIPANT_KEY, authorIds, t.author.value);
    }
  }

  /** Reading the Sender always: the list is exactly one item per Transfer, looked up on its own. */
  lemma BatchIsOneAtATime(store: Store, room: Id)
    requires StoreOk(store)
    ensures var transfers := FindByRoomId(store.transfers, room);
            var items := Batched(store, room, true);
            |items| == |transfers| && forall i :: 0 <= i < |items| ==> items[i] == OneAtATime(store, transfers[i])
  {
    forall i | 0 <= i < |FindByRoomId(store.transfers, room)|
      ensures Batched(store, room, true)[i] == OneAtATime(store, FindByRoomId(store.transfers, room)[i])
    {
      BatchedItem(store, room, true, i);
    }
  }

  /** Whether an item comes out the same with and without the Room's Sender. */
  ghost predicate NeedsNoSender(store: Store, room: Id, t: Transfer) {
    t.kind.File? && SenderOf(store.participants, room).Some? ==>
      HasAuthorId(t) && Find(store.participants, PARTICIPANT_KEY, t.author.value).Some?
  }

  lemma SameWithoutSenderExactlyWhen(store: Store, room: Id, i: nat)
    requires StoreOk(store) && i < |FindByRoomId(store.transfers, room)|
    ensures Batched(store, room, false)[i] == Batched(store, room, true)[i]
       <==> NeedsNoSender(store, room, FindByRoomId(store.transfers, room)[i])
  {
    BatchedItem(store, room, false, i);
    BatchedItem(store, room, true, i);
    hide Batched, Find;
  }

  lemma SameListWithoutSenderExactlyWhen(store: Store, room: Id)
    requires StoreOk(store)
    ensures Batched(store, room, false) == Batched(store, room, true)
       <==> forall t | t in FindByRoomId(store.transfers, room) :: NeedsNoSender(store, room, t)
  {
    var transfers := FindByRoomId(store.transfers, room);
    var skipped, full := Batched(store, room, false), Batched(store, room, true);
    hide Batched, NeedsNoSender;
    forall i | 0 <= i < |transfers| ensures skipped[i] == full[i] <==> NeedsNoSender(store, room, transfers[i]) {
      SameWithoutSenderExactlyWhen(store, room, i);
    }
    if skipped == full {
      forall t | t in transfers ensures NeedsNoSender(store, room, t) {
        var i :| 0 <= i < |transfers| && transfers[i] == t;
        assert skipped[i] == full[i];
      }
    }
  }

  /** The Sender read can be skipped for text-only and fully attributed Rooms without changing the
      list exactly when every file with a recorded author resolves to it, or there is no Sender. */
  lemma SkippingTheSenderReadIsSafeExactlyWhen(store: Store, room: Id)
    requires StoreOk(store)
    ensures var transfers := FindByRoomId(store.transfers, room);
            Batched(store, room, HasUnauthoredFile(transfers)) == Batched(store, room, true)
            <==> (|| HasUnauthoredFile(transfers)
                  || SenderOf(store.participants, room).None?
                  || forall t | t in transfers && t.kind.File? :: AuthorResolves(store, t))
  {
    hide Batched, SenderOf, Find, FindByRoomId;
    var transfers := FindByRoomId(store.transfers, room);
    SameListWithoutSenderExactlyWhen(store, room);
    if !HasUnauthoredFile(transfers) {
      forall t | t in transfers && t.kind.File? ensures t.author.Some? {
        var i :| 0 <= i < |transfers| && transfers[i] == t;
      }
    }
  }

  lemma {:induction false} FindByCodeFindsTheCode(rooms: seq<Room>, code: string)
    ensures match FindByCode(rooms, code)
            case None => forall r | r in rooms :: r.code != code
            case Some(r) => r in rooms && r.code == code
  {
    if rooms != [] {
      FindByCodeFindsTheCode(rooms[1..], code);
      assert rooms == [rooms[0]] + rooms[1..];
    }
  }

  /** No Room is found exactly when none has the code asked for. */
  lemma NotFoundExactlyWhenNoRoomHasTheCode(store: Store, roomCode: string)
    ensures ListTransfers(store, roomCode).Failure? <==> forall r | r in store.rooms :: r.code != roomCode
    ensures ListTransfers(store, roomCode).Failure? ==> ListTransfers(store, roomCode).error == RoomNotFound(roomCode)
  {
    FindByCodeFindsTheCode(store.rooms, roomCode);
    hide Batched, HasUnauthoredFile, FindByCode;
  }

  /** Whenever recorded authors resolve, as the foreign key guarantees, `listTransfers` answers as
      one lookup per Transfer of the Room with that code would. */
  lemma ListIsOneAtATime(store: Store, roomCode: string, items: seq<Item>) returns (room: Room)
    requires StoreOk(store)
    requires forall t | t in store.transfers :: AuthorResolves(store, t)
    requires ListTransfers(store, roomCode) == Success(items)
    ensures room in store.rooms && room.code == roomCode
    ensures var transfers := FindByRoomId(store.transfers, room.id);
            |items| == |transfers| && forall i :: 0 <= i < |items| ==> items[i] == OneAtATime(store, transfers[i])
  {
    FindByCodeFindsTheCode(store.rooms, roomCode);
    room := FindByCode(store.rooms, roomCode).value;
    BatchIsOneAtATime(store, room.id);
    SkippingTheSenderReadIsSafeExactlyWhen(store, room.id);
  }

  /** The author a Log entry must name. */
  ghost predicate NamesAuthor(store: Store, t: Transfer, author: Option<Author>) {
    if HasAuthorId(t) then
      exists p :: p in store.participants && p.id == t.author.value
                  && author == Some(Author(p.sender, p.tokenHash, p.displayName))
    else if t.kind.File? && exists p :: p in store.participants && p.room == t.room && p.sender then
      exists p :: p in store.participants && p.room == t.room && p.sender
                  && author == Some(Author(true, p.tokenHash, p.displayName))
    else author == None
  }

  /** What a Log entry must say about a Transfer, read off the tables row by row. */
  ghost predicate Describes(store: Store, t: Transfer, item: Item) {
    && item.id == t.id && item.kind == t.kind && item.createdAt == t.createdAt
    && (forall p | p in store.filePayloads && p.transferId == t.id ::
          item.fileName == Some(p.fileName) && item.fileSizeBytes == Some(p.fileSizeBytes))
    && ((forall p | p in store.filePayloads :: p.transferId != t.id) ==> item.fileName.None? && item.fileSizeBytes.None?)
    && (forall p | p in store.textPayloads && p.transferId == t.id :: item.content == Some(p.content))
    && ((forall p | p in store.textPayloads :: p.transferId != t.id) ==> item.content.None?)
    && (item.delivered <==> t.id in store.deliveries)
    && NamesAuthor(store, t, item.author)
  }

  lemma FindAnswers<T(!new)>(rows: seq<T>, key: T -> Id, id: Id)
    requires UniqueKeys(rows, key)
    ensures forall r | r in rows && key(r) == id :: Find(rows, key, id) == Some(r)
    ensures (forall r | r in rows :: key(r) != id) ==> Find(rows, key, id) == None
    ensures Find(rows, key, id).Some? ==> Find(rows, key, id).value in rows && key(Find(rows, key, id).value) == id
  {
    if k :| 0 <= k < |rows| && key(rows[k]) == id {
      FindGivesTheRow(rows, key, k);
    } else {
      FindMisses(rows, key, id);
    }
  }

  lemma OneAtATimeDescribes(store: Store, t: Transfer)
    requires StoreOk(store) && AuthorResolves(store, t)
    ensures Describes(store, t, OneAtATime(store, t))
  {
    hide Find;
    FindAnswers(store.filePayloads, FILE_KEY, t.id);
    FindAnswers(store.textPayloads, TEXT_KEY, t.id);
    assert (forall p | p in store.filePayloads :: p.transferId != t.id) ==>
        forall p | p in store.filePayloads :: FILE_KEY(p) != t.id;
    assert (forall p | p in store.textPayloads :: p.transferId != t.id) ==>
        forall p | p in store.textPayloads :: TEXT_KEY(p) != t.id;
    if HasAuthorId(t) {
      FindAnswers(store.participants, PARTICIPANT_KEY, t.author.value);
    }
  }

  /** Whenever recorded authors resolve, the Log lists the Room's Transfers oldest first and says of
      each exactly what the tables say. */
  lemma LogDescribesTheRoom(store: Store, roomCode: string, items: seq<Item>) returns (room: Room)
    requires StoreOk(store)
    requires forall t | t in store.transfers :: AuthorResolves(store, t)
    requires ListTransfers(store, roomCode) == Success(items)
    ensures room in store.rooms && room.code == roomCode
    ensures var transfers := FindByRoomId(store.transfers, room.id);
            && |items| == |transfers| && (forall i :: 0 <= i < |items| ==> Describes(store, transfers[i], items[i]))
            && forall i, j :: 0 <= i < j < |items| ==> items[i].createdAt <= items[j].createdAt
  {
    room := ListIsOneAtATime(store, roomCode, items);
    var transfers := FindByRoomId(store.transfers, room.id);
    RoomTransfersComeOldestFirst(store.transfers, room.id);
    hide OneAtATime, ListTransfers, NamesAuthor;
    forall i | 0 <= i < |items| ensures Describes(store, transfers[i], items[i]) {
      assert transfers[i] in transfers;
      OneAtATimeDescribes(store, transfers[i]);
    }
  }
}
