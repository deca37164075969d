/** Joins and leaves as they interleave: sockets of one API process connect, drop at any
    moment, and each join or leave runs one part at a time between its database calls
    (apps/api/src/room/room.gateway.ts, room-presence.service.ts). As in module Pipeline,
    a pick that is not possible changes nothing, so every sequence of picks is a run. */
module Presence {
  import opened Common
  import opened Gateway

  datatype Claims = Claims(room: Id, role: Role, key: Id)

  /** A Participant row. `owner` is the socket whose join created it and `retirements` how
      often it was set disconnected; no process reads these two. */
  datatype Row = Row(room: Id, role: Role, connected: bool, owner: nat, retirements: nat)

  type Rows = map<nat, Row>

  datatype Join =
    | Recording
    | Counting(pid: nat)
    | Entering(pid: nat, receivers: nat)
    | In(pid: nat)
    | Lost(orphan: Option<nat>)   // the join failed, perhaps after its row was created

  datatype Socket = Socket(claims: Claims, live: bool, join: Join)

  datatype Stage = Retiring | Recounting | Announced | Broken

  datatype Leave = Leave(socket: nat, info: Info, stage: Stage)

  datatype Hub = Hub(hall: Hall, rows: Rows, nextId: nat, sockets: map<nat, Socket>, leaves: seq<Leave>)

  datatype Step =
    | Connect(s: nat, claims: Claims)
    | JoinOn(s: nat, verdict: Verdict)
    | Disconnect(s: nat)
    | LeaveOn(i: nat, verdict: Verdict)
    | Restart

  function ConnectedRows(rows: Rows, room: Id, role: Role): set<nat> {
    set p | p in rows && rows[p].connected && rows[p].room == room && rows[p].role == role
  }

  function Retire(row: Row): Row {
    row.(connected := false, retirements := row.retirements + 1)
  }

  /** `onParticipantLeft` up to its await; a socket with no entry is left alone. */
  function BeginLeave(h: Hub, s: nat): Hub {
    if s in h.hall.connected then
      h.(hall := Depart(h.hall, s), leaves := h.leaves + [Leave(s, h.hall.connected[s], Retiring)])
    else h
  }

  /** A failed join disconnects its socket, whose handler finds no entry. */
  function FailJoin(h: Hub, s: nat, orphan: Option<nat>): Hub
    requires s in h.sockets
  {
    h.(sockets := h.sockets[s := h.sockets[s].(live := false, join := Lost(orphan))])
  }

  function CreateRow(h: Hub, s: nat, verdict: Verdict): Hub
    requires s in h.sockets
  {
    var claims := h.sockets[s].claims;
    var created := if verdict.TookEffect()
      then h.(rows := h.rows[h.nextId := Row(claims.room, claims.role, true, s, 0)], nextId := h.nextId + 1)
      else h;
    if verdict.Reported() then created.(sockets := h.sockets[s := h.sockets[s].(join := Counting(h.nextId))])
    else FailJoin(created, s, if verdict.TookEffect() then Some(h.nextId) else None)
  }

  function FinishJoin(h: Hub, s: nat, pid: nat, receivers: nat): Hub
    requires s in h.sockets
  {
    var socket := h.sockets[s];
    var info := Info(pid, socket.claims.room, socket.claims.role, socket.claims.key);
    var entered := h.(hall := Enter(h.hall, s, info, receivers), sockets := h.sockets[s := socket.(join := In(pid))]);
    if socket.live then entered else BeginLeave(entered, s)
  }

  function JoinStep(h: Hub, s: nat, verdict: Verdict): Hub
    requires s in h.sockets
  {
    var socket := h.sockets[s];
    match socket.join
    case Recording => CreateRow(h, s, verdict)
    case Counting(pid) =>
      if verdict.Reported() then
        h.(sockets := h.sockets[s := socket.(join := Entering(pid, |ConnectedRows(h.rows, socket.claims.room, Receiver)|))])
      else FailJoin(h, s, Some(pid))
    case Entering(pid, receivers) =>
      if verdict.Reported() then FinishJoin(h, s, pid, receivers) else FailJoin(h, s, Some(pid))
    case _ => h
  }

  function LeaveStep(h: Hub, i: nat, verdict: Verdict): Hub
    requires i < |h.leaves|
  {
    var leave := h.leaves[i];
    var pid := leave.info.pid;
    match leave.stage
    case Retiring =>
      h.(rows := if verdict.TookEffect() && pid in h.rows then h.rows[pid := Retire(h.rows[pid])] else h.rows,
         leaves := h.leaves[i := leave.(stage := if verdict.Reported() then Recounting else Broken)])
    case Recounting =>
      if verdict.Reported() then
        h.(hall := AnnounceLeave(h.hall, leave.info, |ConnectedRows(h.rows, leave.info.room, Receiver)|),
           leaves := h.leaves[i := leave.(stage := Announced)])
      else h.(leaves := h.leaves[i := leave.(stage := Broken)])
    case _ => h
  }

  const Init := Hub(Hall([], map[], []), map[], 0, map[], [])

  function Apply(h: Hub, step: Step): Hub {
    match step
    case Connect(s, claims) =>
      if s in h.sockets then h else h.(sockets := h.sockets[s := Socket(claims, true, Recording)])
    case JoinOn(s, verdict) => if s in h.sockets then JoinStep(h, s, verdict) else h
    case Disconnect(s) =>
      if s in h.sockets && h.sockets[s].live then
        BeginLeave(h.(sockets := h.sockets[s := h.sockets[s].(live := false)]), s)
      else h
    case LeaveOn(i, verdict) => if i < |h.leaves| then LeaveStep(h, i, verdict) else h
    // A crash: sockets and memory are gone, and boot marks every row disconnected.
    case Restart =>
      Init.(rows := map p | p in h.rows :: h.rows[p].(connected := false), nextId := h.nextId)
  }

  function Run(picks: seq<Step>): Hub {
    if picks == [] then Init else Apply(Run(picks[..|picks| - 1]), picks[|picks| - 1])
  }

  // --- What has been announced --------------------------------------------------

  /** Whether the last announcement about an identity was `joined` (true) or `left`. */
  function LastWord(log: seq<Broadcast>, room: Id, key: Id): Option<bool> {
    if log == [] then None
    else
      var last := log[|log| - 1];
      if last.Roster? && last.room == room && last.joined == Some(key) then Some(true)
      else if last.Roster? && last.room == room && last.left == Some(key) then Some(false)
      else LastWord(log[..|log| - 1], room, key)
  }

  function LastRoster(log: seq<Broadcast>, room: Id): Option<seq<Id>> {
    if log == [] then None
    else
      var last := log[|log| - 1];
      if last.Roster? && last.room == room then Some(last.keys) else LastRoster(log[..|log| - 1], room)
  }

  /** A leave not announced yet: still in flight, or failed. */
  ghost predicate Unsettled(leaves: seq<Leave>, room: Id, key: Id) {
    exists i :: 0 <= i < |leaves| && leaves[i].info.room == room && leaves[i].info.key == key && !leaves[i].stage.Announced?
  }

  ghost predicate RoomUnsettled(leaves: seq<Leave>, room: Id) {
    exists i :: 0 <= i < |leaves| && leaves[i].info.room == room && !leaves[i].stage.Announced?
  }

  ghost predicate WordAgrees(hall: Hall, leaves: seq<Leave>, room: Id, key: Id) {
    && (IsPresent(hall.connected, room, key) ==> LastWord(hall.log, room, key) == Some(true))
    && (!IsPresent(hall.connected, room, key) && !Unsettled(leaves, room, key)
        ==> LastWord(hall.log, room, key) != Some(true))
  }

  ghost predicate RosterAgrees(hall: Hall, leaves: seq<Leave>, room: Id) {
    !RoomUnsettled(leaves, room) ==>
      match LastRoster(hall.log, room)
      case None => forall key :: !IsPresent(hall.connected, room, key)
      case Some(keys) => Distinct(keys) && forall key :: key in keys <==> IsPresent(hall.connected, room, key)
  }

  ghost predicate HallOk(hall: Hall, leaves: seq<Leave>) {
    && Lists(hall.order, hall.connected.Keys)
    && (forall room, key :: WordAgrees(hall, leaves, room, key))
    && (forall room :: RosterAgrees(hall, leaves, room))
  }

  lemma CurrentRosterIsPresent(hall: Hall, room: Id)
    requires Lists(hall.order, hall.connected.Keys)
    ensures var roster := RosterFor(hall.order, hall.connected, room);
            Distinct(roster) && forall key :: key in roster <==> IsPresent(hall.connected, room, key)
  {
    RosterIsExact(hall.order, hall.connected, room);
    forall key ensures key in RosterFor(hall.order, hall.connected, room) <==> IsPresent(hall.connected, room, key) {
      if IsPresent(hall.connected, room, key) {
        var s :| s in hall.connected && hall.connected[s].room == room && hall.connected[s].key == key;
        assert s in hall.order;
      }
    }
  }

  /** What a broadcast of the current roster does to the log, after a count event or none. */
  lemma RosterIsHeard(hall: Hall, counted: seq<Broadcast>, b: Broadcast, room: Id, key: Id)
    requires b.Roster?
    requires counted == hall.log || exists c: Broadcast :: !c.Roster? && counted == hall.log + [c]
    ensures var log := counted + [b];
            && LastWord(log, room, key)
               == (if b.room == room && b.joined == Some(key) then Some(true)
                   else if b.room == room && b.left == Some(key) then Some(false) else LastWord(hall.log, room, key))
            && LastRoster(log, room) == (if b.room == room then Some(b.keys) else LastRoster(hall.log, room))
  {
    assert (counted + [b])[..|counted|] == counted;
    if counted != hall.log {
      var c: Broadcast :| !c.Roster? && counted == hall.log + [c];
      assert (hall.log + [c])[..|hall.log|] == hall.log;
    }
  }

  /** What is broadcast when a connection enters: counted, then the roster with who came. */
  lemma EnteredHall(hall: Hall, s: nat, info: Info, receivers: nat) returns (counted: seq<Broadcast>, b: Broadcast)
    requires s !in hall.connected
    ensures var hall' := Enter(hall, s, info, receivers);
            && hall'.log == counted + [b] && hall'.order == hall.order + [s] && hall'.connected == hall.connected[s := info]
            && b == Roster(info.room, RosterFor(hall'.order, hall'.connected, info.room),
                           if IsPresent(hall.connected, info.room, info.key) then None else Some(info.key), None)
    ensures counted == hall.log || exists c: Broadcast :: !c.Roster? && counted == hall.log + [c]
  {
    hide RosterFor, IsPresent;
    counted := if info.role.Receiver? then hall.log + [ReceiverJoined(info.room, receivers)] else hall.log;
    b := Roster(info.room, RosterFor(hall.order + [s], hall.connected[s := info], info.room),
                if IsPresent(hall.connected, info.room, info.key) then None else Some(info.key), None);
  }

  lemma PresentAfterEntering(connected: map<nat, Info>, s: nat, info: Info, room: Id, key: Id)
    requires s !in connected
    ensures IsPresent(connected[s := info], room, key)
       <==> IsPresent(connected, room, key) || (room == info.room && key == info.key)
  {
    var after := connected[s := info];
    assert after[s] == info;
    if t :| t in connected && connected[t].room == room && connected[t].key == key {
      assert after[t] == connected[t];
    }
  }

  lemma OneMoreListed(order: seq<nat>, keys: set<nat>, s: nat)
    requires Lists(order, keys) && s !in keys
    ensures Lists(order + [s], keys + {s})
  {
  }

  lemma EnterKeepsHall(hall: Hall, leaves: seq<Leave>, s: nat, info: Info, receivers: nat)
    requires HallOk(hall, leaves) && s !in hall.connected
    ensures HallOk(Enter(hall, s, info, receivers), leaves)
  {
    hide Enter, RosterFor, IsPresent, Lists, LastWord, LastRoster, Unsettled, RoomUnsettled;
    var hall' := Enter(hall, s, info, receivers);
    var counted, b := EnteredHall(hall, s, info, receivers);
    OneMoreListed(hall.order, hall.connected.Keys, s);
    assert hall'.connected.Keys == hall.connected.Keys + {s};
    forall room, key ensures WordAgrees(hall', leaves, room, key) {
      PresentAfterEntering(hall.connected, s, info, room, key);
      RosterIsHeard(hall, counted, b, room, key);
      assert WordAgrees(hall, leaves, room, key);
    }
    forall room ensures RosterAgrees(hall', leaves, room) {
      RosterIsHeard(hall, counted, b, room, info.key);
      CurrentRosterIsPresent(hall', room);
      forall key ensures IsPresent(hall'.connected, room, key)
                    <==> IsPresent(hall.connected, room, key) || (room == info.room && key == info.key)
      {
        PresentAfterEntering(hall.connected, s, info, room, key);
      }
      assert RosterAgrees(hall, leaves, room);
    }
  }

  lemma RemoveKeepsHall(hall: Hall, leaves: seq<Leave>, s: nat)
    requires HallOk(hall, leaves) && s in hall.connected
    ensures HallOk(Depart(hall, s), leaves + [Leave(s, hall.connected[s], Retiring)])
  {
    var hall' := Depart(hall, s);
    var info := hall.connected[s];
    var leaves' := leaves + [Leave(s, info, Retiring)];
    assert leaves'[|leaves|] == Leave(s, info, Retiring);
    WithoutLists(hall.order, hall.connected.Keys, s);
    forall room, key ensures WordAgrees(hall', leaves', room, key) {
      assert WordAgrees(hall, leaves, room, key);
      MoreLeaves(leaves, Leave(s, info, Retiring), room, key);
      RemovalIsSeen(hall, s, room, key);
    }
    forall room ensures RosterAgrees(hall', leaves', room) {
      assert RosterAgrees(hall, leaves, room);
      MoreLeaves(leaves, Leave(s, info, Retiring), room, info.key);
      forall key ensures room != info.room ==>
                   (IsPresent(hall'.connected, room, key) <==> IsPresent(hall.connected, room, key))
      {
        RemovalIsSeen(hall, s, room, key);
      }
    }
  }

  lemma MoreLeaves(leaves: seq<Leave>, leave: Leave, room: Id, key: Id)
    requires !leave.stage.Announced?
    ensures Unsettled(leaves + [leave], room, key)
       <==> Unsettled(leaves, room, key) || (leave.info.room == room && leave.info.key == key)
    ensures RoomUnsettled(leaves + [leave], room) <==> RoomUnsettled(leaves, room) || leave.info.room == room
  {
    var more := leaves + [leave];
    assert more[|leaves|] == leave;
    assert forall i :: 0 <= i < |leaves| ==> more[i] == leaves[i];
  }

  lemma RemovalIsSeen(hall: Hall, s: nat, room: Id, key: Id)
    requires s in hall.connected
    ensures IsPresent(Depart(hall, s).connected, room, key) ==> IsPresent(hall.connected, room, key)
    ensures !(hall.connected[s].room == room && hall.connected[s].key == key)
            ==> (IsPresent(Depart(hall, s).connected, room, key) <==> IsPresent(hall.connected, room, key))
  {
    if t :| t in hall.connected && hall.connected[t].room == room && hall.connected[t].key == key {
      assert t != s ==> t in Depart(hall, s).connected && Depart(hall, s).connected[t] == hall.connected[t];
    }
  }

  /** Settling leave i, with its announcement, or moving it on without one. */
  lemma AnnounceKeepsHall(hall: Hall, leaves: seq<Leave>, i: nat, receivers: nat)
    requires HallOk(hall, leaves) && i < |leaves|
    ensures HallOk(AnnounceLeave(hall, leaves[i].info, receivers), leaves[i := leaves[i].(stage := Announced)])
  {
    var info := leaves[i].info;
    var hall' := AnnounceLeave(hall, info, receivers);
    var leaves' := leaves[i := leaves[i].(stage := Announced)];
    var counted, b := hall'.log[..|hall'.log| - 1], hall'.log[|hall'.log| - 1];
    assert hall'.log == counted + [b];
    assert counted == if info.role.Receiver? then hall.log + [ReceiverLeft(info.room, receivers)] else hall.log;
    forall room, key ensures WordAgrees(hall', leaves', room, key) {
      RosterIsHeard(hall, counted, b, room, key);
      assert WordAgrees(hall, leaves, room, key);
      OthersStayUnsettled(leaves, i, Announced, room, key);
    }
    forall room ensures RosterAgrees(hall', leaves', room) {
      RosterIsHeard(hall, counted, b, room, info.key);
      CurrentRosterIsPresent(hall, room);
      assert RosterAgrees(hall, leaves, room);
      OthersStayUnsettled(leaves, i, Announced, room, info.key);
    }
  }

  lemma OthersStayUnsettled(leaves: seq<Leave>, i: nat, stage: Stage, room: Id, key: Id)
    requires i < |leaves|
    ensures var leaves' := leaves[i := leaves[i].(stage := stage)];
            && (!(leaves[i].info.room == room && leaves[i].info.key == key) || !stage.Announced?
                ==> (Unsettled(leaves, room, key) ==> Unsettled(leaves', room, key)))
            && (leaves[i].info.room != room || !stage.Announced? ==> (RoomUnsettled(leaves, room) ==> RoomUnsettled(leaves', room)))
  {
    var leaves' := leaves[i := leaves[i].(stage := stage)];
    if j :| 0 <= j < |leaves| && leaves[j].info.room == room && leaves[j].info.key == key && !leaves[j].stage.Announced? {
      assert leaves'[j].info == leaves[j].info;
    }
    if j :| 0 <= j < |leaves| && leaves[j].info.room == room && !leaves[j].stage.Announced? {
      assert leaves'[j].info == leaves[j].info;
    }
  }

  lemma MoveKeepsHall(hall: Hall, leaves: seq<Leave>, i: nat, stage: Stage)
    requires HallOk(hall, leaves) && i < |leaves| && !stage.Announced?
    ensures HallOk(hall, leaves[i := leaves[i].(stage := stage)])
  {
    var leaves' := leaves[i := leaves[i].(stage := stage)];
    forall room, key ensures WordAgrees(hall, leaves', room, key) {
      assert WordAgrees(hall, leaves, room, key);
      OthersStayUnsettled(leaves, i, stage, room, key);
    }
    forall room ensures RosterAgrees(hall, leaves', room) {
      assert RosterAgrees(hall, leaves, room);
      OthersStayUnsettled(leaves, i, stage, room, leaves[i].info.key);
    }
  }
}
