/** Presence in the Room gateway: the `connected` map, rosters and announcements of
    apps/api/src/room/room.gateway.ts. */
module Gateway {
  import opened Common

  datatype Role = Sender | Receiver

  /** A ConnectedParticipant; `key` is the opaque identity key its token hashes to. */
  datatype Info = Info(pid: nat, room: Id, role: Role, key: Id)

  datatype Broadcast =
    | ReceiverJoined(room: Id, count: nat)
    | ReceiverLeft(room: Id, count: nat)
    | Roster(room: Id, keys: seq<Id>, joined: Option<Id>, left: Option<Id>)

  /** `order` is the insertion order of `connected`; `log` is everything broadcast so far. */
  datatype Hall = Hall(order: seq<nat>, connected: map<nat, Info>, log: seq<Broadcast>)

  predicate IsPresent(connected: map<nat, Info>, room: Id, key: Id) {
    exists s | s in connected :: connected[s].room == room && connected[s].key == key
  }

  /** One entry per identity, in order of first connection. */
  function RosterFor(order: seq<nat>, connected: map<nat, Info>, room: Id): seq<Id> {
    if order == [] then []
    else
      var before := RosterFor(order[..|order| - 1], connected, room);
      var last := order[|order| - 1];
      if last in connected && connected[last].room == room && connected[last].key !in before
      then before + [connected[last].key] else before
  }

  /** The last, uninterrupted part of `onParticipantJoined`. */
  function Enter(h: Hall, socket: nat, info: Info, receivers: nat): Hall {
    var firstConnection := !IsPresent(h.connected, info.room, info.key);
    var order := if socket in h.connected then h.order else h.order + [socket];
    var connected := h.connected[socket := info];
    var counted := if info.role.Receiver? then h.log + [ReceiverJoined(info.room, receivers)] else h.log;
    var roster := RosterFor(order, connected, info.room);
    Hall(order, connected, counted + [Roster(info.room, roster, if firstConnection then Some(info.key) else None, None)])
  }

  /** The first part of `onParticipantLeft`, up to its `await`. */
  function Depart(h: Hall, socket: nat): Hall {
    h.(order := Without(h.order, socket), connected := h.connected - {socket})
  }

  /** What `onParticipantLeft` does once the leave is recorded. */
  function AnnounceLeave(h: Hall, info: Info, receivers: nat): Hall {
    var counted := if info.role.Receiver? then h.log + [ReceiverLeft(info.room, receivers)] else h.log;
    var stillPresent := IsPresent(h.connected, info.room, info.key);
    var roster := RosterFor(h.order, h.connected, info.room);
    h.(log := counted + [Roster(info.room, roster, None, if stillPresent then None else Some(info.key))])
  }

  /** A roster names exactly the identities present, each once. */
  lemma {:induction false} RosterIsExact(order: seq<nat>, connected: map<nat, Info>, room: Id)
    requires forall s | s in order :: s in connected
    ensures var roster := RosterFor(order, connected, room);
            && Distinct(roster)
            && forall key :: key in roster <==>
                 exists s :: s in order && connected[s].room == room && connected[s].key == key
  {
    if order != [] {
      var init, last := order[..|order| - 1], order[|order| - 1];
      assert order == init + [last];
      RosterIsExact(init, connected, room);
      forall key ensures key in RosterFor(order, connected, room) <==>
                   exists s :: s in order && connected[s].room == room && connected[s].key == key
      {
        var before := RosterFor(init, connected, room);
        if key in before {
          var s :| s in init && connected[s].room == room && connected[s].key == key;
          assert s in order;
        }
        if s :| s in order && connected[s].room == room && connected[s].key == key && key !in before {
          assert s == last;
        }
        if connected[last].room == room && connected[last].key == key {
          assert last in order;
        }
      }
    }
  }

  class RoomGateway {
    var order: seq<nat>
    var connected: map<nat, Info>
    var log: seq<Broadcast>

    ghost predicate Valid()
      reads this
    {
      Lists(order, connected.Keys)
    }

    function View(): Hall
      reads this
    {
      Hall(order, connected, log)
    }

    constructor ()
      ensures Valid() && View() == Hall([], map[], [])
    {
      order, connected, log := [], map[], [];
    }

    method Present(room: Id, key: Id) returns (present: bool)
      requires Valid()
      ensures present <==> IsPresent(connected, room, key)
    {
      for i := 0 to |order|
        invariant forall s :: s in order[..i] ==> !(connected[s].room == room && connected[s].key == key)
      {
        var info := connected[order[i]];
        if info.room == room && info.key == key {
          return true;
        }
      }
      assert order[..|order|] == order;
      return false;
    }

    method CurrentRoster(room: Id) returns (roster: seq<Id>)
      requires Valid()
      ensures roster == RosterFor(order, connected, room)
    {
      roster := [];
      for i := 0 to |order|
        invariant roster == RosterFor(order[..i], connected, room)
      {
        assert order[..i + 1][..i] == order[..i];
        var info := connected[order[i]];
        if info.room == room && info.key !in roster {
          roster := roster + [info.key];
        }
      }
      assert order[..|order|] == order;
    }

    /** After the awaits of a join: presence is read before this connection is recorded. A
        socket that dropped meanwhile is removed again at once. */
    method FinishJoin(socket: nat, info: Info, receivers: nat, dropped: bool) returns (leaving: Option<Info>)
      requires Valid()
      modifies this
      ensures Valid()
      ensures var entered := Enter(old(View()), socket, info, receivers);
              View() == (if dropped then Depart(entered, socket) else entered)
      ensures leaving == if dropped then Some(info) else None
    {
      var present := Present(info.room, info.key);
      if socket !in connected {
        order := order + [socket];
      }
      connected := connected[socket := info];
      if info.role.Receiver? {
        log := log + [ReceiverJoined(info.room, receivers)];
      }
      var roster := CurrentRoster(info.room);
      log := log + [Roster(info.room, roster, if present then None else Some(info.key), None)];
      leaving := None;
      if dropped {
        leaving := BeginLeave(socket);
      }
    }

    /** None when the socket has no entry: nothing to clean up. */
    method BeginLeave(socket: nat) returns (leaving: Option<Info>)
      requires Valid()
      modifies this
      ensures Valid()
      ensures leaving == if socket in old(connected) then Some(old(connected)[socket]) else None
      ensures View() == if socket in old(connected) then Depart(old(View()), socket) else old(View())
    {
      if socket !in connected {
        return None;
      }
      leaving := Some(connected[socket]);
      WithoutLists(order, connected.Keys, socket);
      connected := connected - {socket};
      order := Without(order, socket);
    }

    method FinishLeave(info: Info, receivers: nat)
      requires Valid()
      modifies this
      ensures Valid() && View() == AnnounceLeave(old(View()), info, receivers)
    {
      if info.role.Receiver? {
        log := log + [ReceiverLeft(info.room, receivers)];
      }
      var present := Present(info.room, info.key);
      var roster := CurrentRoster(info.room);
      log := log + [Roster(info.room, roster, None, if present then None else Some(info.key))];
    }
  }
}
