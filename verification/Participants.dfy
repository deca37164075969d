/** Participant rows and the presence service over them:
    apps/api/src/domain/participant/participant.repository.fake.ts and
    apps/api/src/room/room-presence.service.ts. */
module Participants {
  import opened Common
  import opened Gateway
  import opened Presence

  function Connected(rows: Rows): set<nat> {
    set p | p in rows && rows[p].connected
  }

  class ParticipantRepository {
    var rows: Rows
    var nextId: nat

    ghost predicate Valid()
      reads this
    {
      forall p :: p in rows ==> p < nextId
    }

    constructor ()
      ensures Valid() && rows == map[] && nextId == 0
    {
      rows, nextId := map[], 0;
    }

    method Create(claims: Claims, socket: nat) returns (id: nat)
      requires Valid()
      modifies this
      ensures Valid() && id == old(nextId) && nextId == id + 1
      ensures rows == old(rows)[id := Row(claims.room, claims.role, true, socket, 0)]
    {
      id := nextId;
      rows := rows[id := Row(claims.room, claims.role, true, socket, 0)];
      nextId := nextId + 1;
    }

    /** False when there is no such row. */
    method SetDisconnected(id: nat) returns (found: bool)
      requires Valid()
      modifies this
      ensures Valid() && nextId == old(nextId) && found == (id in old(rows))
      ensures rows == if id in old(rows) then old(rows)[id := Retire(old(rows)[id])] else old(rows)
    {
      found := id in rows;
      if found {
        rows := rows[id := Retire(rows[id])];
      }
    }

    method CountConnected(room: Id, role: Role) returns (count: nat)
      requires Valid()
      ensures count == |ConnectedRows(rows, room, role)|
    {
      count := 0;
      ghost var counted: set<nat> := {};
      for p := 0 to nextId
        invariant counted == set q | q in ConnectedRows(rows, room, role) && q < p
        invariant count == |counted|
      {
        if p in rows && rows[p].connected && rows[p].room == room && rows[p].role == role {
          count := count + 1;
          counted := counted + {p};
        }
      }
      assert counted == ConnectedRows(rows, room, role);
    }

    /** What boot does: every row left connected by a crash is disconnected. */
    method MarkAllDisconnected() returns (swept: nat)
      requires Valid()
      modifies this
      ensures Valid() && nextId == old(nextId)
      ensures rows == map p | p in old(rows) :: old(rows)[p].(connected := false)
      ensures swept == |Connected(old(rows))|
    {
      swept := 0;
      ghost var were := rows;
      ghost var seen: set<nat> := {};
      for p := 0 to nextId
        invariant rows.Keys == were.Keys && nextId == old(nextId) && Valid()
        invariant forall q :: q in rows ==> rows[q] == if q < p then were[q].(connected := false) else were[q]
        invariant seen == set q | q in Connected(were) && q < p
        invariant swept == |seen|
      {
        if p in rows && rows[p].connected {
          rows := rows[p := rows[p].(connected := false)];
          swept := swept + 1;
          seen := seen + {p};
        }
      }
      assert seen == Connected(were);
    }
  }

  lemma OneMoreRow(rows: Rows, id: nat, claims: Claims, socket: nat)
    requires id !in rows
    ensures var now := rows[id := Row(claims.room, claims.role, true, socket, 0)];
            |ConnectedRows(now, claims.room, Receiver)|
            == |ConnectedRows(rows, claims.room, Receiver)| + if claims.role.Receiver? then 1 else 0
  {
    var before := ConnectedRows(rows, claims.room, Receiver);
    assert id !in before;
    assert ConnectedRows(rows[id := Row(claims.room, claims.role, true, socket, 0)], claims.room, Receiver)
        == if claims.role.Receiver? then before + {id} else before;
  }

  class RoomPresenceService {
    const participants: ParticipantRepository

    constructor (participants: ParticipantRepository)
      ensures this.participants == participants
    {
      this.participants := participants;
    }

    /** After boot nobody counts as a connected Receiver, in any Room. */
    method OnApplicationBootstrap() returns (swept: nat)
      requires participants.Valid()
      modifies participants
      ensures participants.Valid()
      ensures participants.rows == map p | p in old(participants.rows) :: old(participants.rows)[p].(connected := false)
      ensures forall room, role :: ConnectedRows(participants.rows, room, role) == {}
    {
      swept := participants.MarkAllDisconnected();
    }

    /** The new row is counted with the rest. */
    method RecordJoin(claims: Claims, socket: nat) returns (id: nat, receivers: nat)
      requires participants.Valid()
      modifies participants
      ensures participants.Valid() && id == old(participants.nextId) && id !in old(participants.rows)
      ensures participants.rows == old(participants.rows)[id := Row(claims.room, claims.role, true, socket, 0)]
      ensures receivers == |ConnectedRows(old(participants.rows), claims.room, Receiver)|
                           + (if claims.role.Receiver? then 1 else 0)
    {
      hide ConnectedRows;
      id := participants.Create(claims, socket);
      receivers := participants.CountConnected(claims.room, Receiver);
      OneMoreRow(old(participants.rows), id, claims, socket);
    }

    /** A leave takes exactly its own row out of the count. */
    method RecordLeave(id: nat, room: Id) returns (left: Option<nat>)
      requires participants.Valid()
      modifies participants
      ensures participants.Valid()
      ensures left.None? <==> id !in old(participants.rows)
      ensures left.Some? ==> participants.rows == old(participants.rows)[id := Retire(old(participants.rows)[id])]
      ensures left.Some? ==> left.value == |ConnectedRows(old(participants.rows), room, Receiver) - {id}|
    {
      ghost var before := ConnectedRows(participants.rows, room, Receiver);
      var found := participants.SetDisconnected(id);
      if !found {
        return None;
      }
      var receivers := participants.CountConnected(room, Receiver);
      assert ConnectedRows(participants.rows, room, Receiver) == before - {id};
      left := Some(receivers);
    }
  }
}
