/** The in-memory upload session store of
    apps/api/src/infrastructure/upload-session/in-memory-upload-session.store.ts. */
module UploadSessions {
  import opened Common

  const MAX_CONCURRENT_TRANSFERS_PER_ROOM: nat := 10

  /** Times are milliseconds. */
  const ABANDONED_UPLOAD_TTL_MS: int := 3600000

  datatype SessionInput = SessionInput(
    transferId: Id, roomId: Id, fileName: string, fileSizeBytes: int, mimeType: string, totalChunks: int)

  datatype Session = Session(input: SessionInput, receivedChunks: set<nat>, openedAt: int)
  {
    function Tid(): Id { input.transferId }
    function Room(): Id { input.roomId }
    function Total(): int { input.totalChunks }
  }

  type Sessions = map<Id, Session>

  /** The Transfers a Room holds a slot for. */
  function HeldBy(sessions: Sessions, roomId: Id): set<Id> {
    set id | id in sessions && sessions[id].Room() == roomId
  }

  /** `reserve`: None and no change when the Room is full, else the new session. */
  function Reserve(sessions: Sessions, input: SessionInput, maxPerRoom: nat, now: int)
    : (Sessions, Option<Session>)
  {
    if |HeldBy(sessions, input.roomId)| >= maxPerRoom then (sessions, None)
    else
      var session := Session(input, {}, now);
      (sessions[input.transferId := session], Some(session))
  }

  /** `markReceived`: None when there is no such session. */
  function MarkReceived(sessions: Sessions, id: Id, index: nat): (Sessions, Option<Session>) {
    if id !in sessions then (sessions, None)
    else
      var session := sessions[id].(receivedChunks := sessions[id].receivedChunks + {index});
      (sessions[id := session], Some(session))
  }

  predicate Stale(session: Session, openedBefore: int) {
    session.openedAt < openedBefore
  }

  /** The sessions, in opening order, that were opened before the given time. */
  function StaleIn(sessions: Sessions, order: seq<Id>, openedBefore: int): seq<Session>
    requires forall id :: id in order ==> id in sessions
  {
    if order == [] then []
    else
      var rest := StaleIn(sessions, order[..|order| - 1], openedBefore);
      var last := sessions[order[|order| - 1]];
      if Stale(last, openedBefore) then rest + [last] else rest
  }

  /** Reserving never takes a Room past its limit, and refuses exactly when it is there. */
  lemma ReserveKeepsTheCap(sessions: Sessions, input: SessionInput, maxPerRoom: nat, now: int, room: Id)
    requires |HeldBy(sessions, room)| <= maxPerRoom
    ensures var (after, granted) := Reserve(sessions, input, maxPerRoom, now);
            && |HeldBy(after, room)| <= maxPerRoom
            && (input.roomId == room ==> (granted.None? <==> |HeldBy(sessions, room)| == maxPerRoom))
  {
    var (after, granted) := Reserve(sessions, input, maxPerRoom, now);
    if granted.Some? {
      if input.roomId == room {
        assert HeldBy(after, room) == HeldBy(sessions, room) + {input.transferId};
      } else {
        assert HeldBy(after, room) == HeldBy(sessions, room) - {input.transferId};
      }
    }
  }

  /** `order` is the insertion order of the JavaScript Map. */
  class InMemoryUploadSessionStore {
    var sessions: Sessions
    var order: seq<Id>

    ghost predicate Valid()
      reads this
    {
      Lists(order, sessions.Keys)
    }

    constructor ()
      ensures Valid() && sessions == map[]
    {
      sessions := map[];
      order := [];
    }

    method ReserveSlot(input: SessionInput, maxPerRoom: nat, now: int) returns (granted: Option<Session>)
      requires Valid()
      modifies this
      ensures Valid()
      ensures (sessions, granted) == Reserve(old(sessions), input, maxPerRoom, now)
      ensures order == if granted.Some? && input.transferId !in old(sessions)
                       then old(order) + [input.transferId] else old(order)
    {
      var active := CountActive(input.roomId);
      if active >= maxPerRoom {
        return None;
      }
      var session := Session(input, {}, now);
      if input.transferId !in sessions {
        order := order + [input.transferId];
      }
      sessions := sessions[input.transferId := session];
      granted := Some(session);
    }

    method CountActive(roomId: Id) returns (active: nat)
      requires Valid()
      ensures active == |HeldBy(sessions, roomId)|
    {
      active := 0;
      ghost var counted: set<Id> := {};
      for i := 0 to |order|
        invariant forall id :: id in counted <==> id in order[..i] && sessions[id].Room() == roomId
        invariant active == |counted|
      {
        assert order[..i + 1] == order[..i] + [order[i]];
        assert order[i] !in order[..i];
        if sessions[order[i]].Room() == roomId {
          active := active + 1;
          counted := counted + {order[i]};
        }
      }
      assert counted == HeldBy(sessions, roomId);
    }

    method Get(id: Id) returns (session: Option<Session>)
      ensures session == if id in sessions then Some(sessions[id]) else None
    {
      session := if id in sessions then Some(sessions[id]) else None;
    }

    method Mark(id: Id, index: nat) returns (updated: Option<Session>)
      requires Valid()
      modifies this
      ensures Valid() && order == old(order)
      ensures (sessions, updated) == MarkReceived(old(sessions), id, index)
    {
      if id !in sessions {
        return None;
      }
      var session := sessions[id].(receivedChunks := sessions[id].receivedChunks + {index});
      sessions := sessions[id := session];
      updated := Some(session);
    }

    method Delete(id: Id)
      requires Valid()
      modifies this
      ensures Valid() && sessions == old(sessions) - {id} && order == Without(old(order), id)
    {
      WithoutLists(order, sessions.Keys, id);
      sessions := sessions - {id};
      order := Without(order, id);
    }

    method FindAbandoned(openedBefore: int) returns (stale: seq<Session>)
      requires Valid()
      ensures stale == StaleIn(sessions, order, openedBefore)
    {
      stale := [];
      for i := 0 to |order|
        invariant stale == StaleIn(sessions, order[..i], openedBefore)
      {
        assert order[..i + 1][..i] == order[..i];
        if Stale(sessions[order[i]], openedBefore) {
          stale := stale + [sessions[order[i]]];
        }
      }
      assert order[..|order|] == order;
    }
  }

  /** `findAbandoned` returns every stale session, and only those, none twice. */
  lemma {:induction false} StaleInIsExact(sessions: Sessions, order: seq<Id>, openedBefore: int)
    requires forall id :: id in order ==> id in sessions
    requires forall id :: id in sessions ==> sessions[id].Tid() == id
    requires Distinct(order)
    ensures forall s :: s in StaleIn(sessions, order, openedBefore)
              <==> s.Tid() in order && sessions[s.Tid()] == s && Stale(s, openedBefore)
    ensures Distinct(StaleIn(sessions, order, openedBefore))
  {
    if order != [] {
      StaleInIsExact(sessions, order[..|order| - 1], openedBefore);
      assert order == order[..|order| - 1] + [order[|order| - 1]];
    }
  }

  lemma StaleAreListed(sessions: Sessions, order: seq<Id>, openedBefore: int, s: Session)
    requires forall id :: id in order ==> id in sessions
    requires forall id :: id in sessions ==> sessions[id].Tid() == id
    requires s in StaleIn(sessions, order, openedBefore)
    ensures s.Tid() in order
  {
    if order != [] && s in StaleIn(sessions, order[..|order| - 1], openedBefore) {
      StaleAreListed(sessions, order[..|order| - 1], openedBefore, s);
    }
  }

  /** They come in the order in which they were opened. */
  lemma {:induction false} StaleInKeepsOpeningOrder(sessions: Sessions, order: seq<Id>, openedBefore: int, i: nat, j: nat)
    requires forall id :: id in order ==> id in sessions
    requires forall id :: id in sessions ==> sessions[id].Tid() == id
    requires i < j < |StaleIn(sessions, order, openedBefore)|
    ensures var stale := StaleIn(sessions, order, openedBefore); Precedes(order, stale[i].Tid(), stale[j].Tid())
  {
    var n := |order| - 1;
    var rest, stale := StaleIn(sessions, order[..n], openedBefore), StaleIn(sessions, order, openedBefore);
    assert order == order[..n] + [order[n]];
    if j < |rest| {
      StaleInKeepsOpeningOrder(sessions, order[..n], openedBefore, i, j);
      var a, b :| 0 <= a < b < n && order[..n][a] == stale[i].Tid() && order[..n][b] == stale[j].Tid();
      assert order[a] == stale[i].Tid() && order[b] == stale[j].Tid();
    } else {
      assert rest[i] in rest;
      StaleAreListed(sessions, order[..n], openedBefore, rest[i]);
      var a :| 0 <= a < n && order[..n][a] == stale[i].Tid();
      assert order[a] == stale[i].Tid() && order[n] == stale[j].Tid();
    }
  }
}
