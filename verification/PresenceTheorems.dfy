/** What presence guarantees over every interleaving of joins, drops, leaves, failures and
    restarts. */
module PresenceTheorems {
  import opened Common
  import opened Gateway
  import opened Presence

  function PidOf(join: Join): Option<nat> {
    match join
    case Recording => None
    case Counting(pid) => Some(pid)
    case Entering(pid, _) => Some(pid)
    case In(pid) => Some(pid)
    case Lost(orphan) => orphan
  }

  ghost predicate Speaks(info: Info, socket: Socket) {
    socket.join == In(info.pid) && socket.claims == Claims(info.room, info.role, info.key)
  }

  function LeftBy(leaves: seq<Leave>): set<nat> {
    set i | 0 <= i < |leaves| :: leaves[i].socket
  }

  /** A socket that joined is in the map while it lives, and in exactly one leave after. */
  ghost predicate SocketsOk(connected: map<nat, Info>, sockets: map<nat, Socket>, leaves: seq<Leave>) {
    && (forall s :: s in connected ==> s in sockets && sockets[s].live && Speaks(connected[s], sockets[s]))
    && (forall s :: s in sockets && sockets[s].join.In? && sockets[s].live ==> s in connected)
    && (forall s :: s in sockets && sockets[s].join.In? && !sockets[s].live ==> s in LeftBy(leaves))
    && (forall i :: 0 <= i < |leaves| ==>
          var s := leaves[i].socket; s in sockets && !sockets[s].live && Speaks(leaves[i].info, sockets[s]))
    && (forall i, j :: 0 <= i < j < |leaves| ==> leaves[i].socket != leaves[j].socket)
  }

  ghost predicate OwnRow(rows: Rows, s: nat, socket: Socket) {
    match PidOf(socket.join)
    case None => true
    case Some(p) =>
      && p in rows && rows[p].owner == s && rows[p].room == socket.claims.room && rows[p].role == socket.claims.role
      && (socket.live || !socket.join.In? ==> rows[p].connected && rows[p].retirements == 0)
  }

  ghost predicate LeaveRow(rows: Rows, leave: Leave) {
    var p := leave.info.pid;
    && p in rows && rows[p].retirements <= 1
    && (rows[p].connected <==> rows[p].retirements == 0)
    && (leave.stage.Retiring? ==> rows[p].connected)
    && (leave.stage.Recounting? || leave.stage.Announced? ==> !rows[p].connected)
  }

  ghost predicate RowsOk(rows: Rows, nextId: nat, sockets: map<nat, Socket>, leaves: seq<Leave>) {
    && (forall p :: p in rows ==> p < nextId)
    && (forall p :: p in rows && rows[p].connected ==>
          rows[p].owner in sockets && PidOf(sockets[rows[p].owner].join) == Some(p))
    && (forall s :: s in sockets ==> OwnRow(rows, s, sockets[s]))
    && (forall i :: 0 <= i < |leaves| ==> LeaveRow(rows, leaves[i]))
  }

  ghost predicate HubOk(h: Hub) {
    && HallOk(h.hall, h.leaves)
    && SocketsOk(h.hall.connected, h.sockets, h.leaves)
    && RowsOk(h.rows, h.nextId, h.sockets, h.leaves)
  }

  // --- Sockets, then rows, under each kind of change ---------------------------------

  lemma JoiningKeepsSockets(connected: map<nat, Info>, sockets: map<nat, Socket>, leaves: seq<Leave>, s: nat, socket: Socket)
    requires SocketsOk(connected, sockets, leaves)
    requires !socket.join.In? && (s in sockets ==> !sockets[s].join.In?)
    ensures SocketsOk(connected, sockets[s := socket], leaves)
  {
  }

  lemma JoiningKeepsRows(rows: Rows, nextId: nat, sockets: map<nat, Socket>, leaves: seq<Leave>, s: nat, socket: Socket)
    requires RowsOk(rows, nextId, sockets, leaves) && !socket.join.In?
    requires if s in sockets then !sockets[s].join.In? && socket.claims == sockets[s].claims
                                  && PidOf(socket.join) == PidOf(sockets[s].join)
             else PidOf(socket.join) == None
    ensures RowsOk(rows, nextId, sockets[s := socket], leaves)
  {
  }

  lemma NewRowKeepsRows(rows: Rows, nextId: nat, sockets: map<nat, Socket>, leaves: seq<Leave>, s: nat, socket: Socket)
    requires RowsOk(rows, nextId, sockets, leaves) && s in sockets && sockets[s].join.Recording?
    requires !socket.join.In? && PidOf(socket.join) == Some(nextId)
    ensures RowsOk(rows[nextId := Row(socket.claims.room, socket.claims.role, true, s, 0)], nextId + 1,
                   sockets[s := socket], leaves)
  {
  }

  lemma StagesKeepSockets(connected: map<nat, Info>, sockets: map<nat, Socket>, leaves: seq<Leave>, i: nat, stage: Stage)
    requires SocketsOk(connected, sockets, leaves) && i < |leaves|
    ensures SocketsOk(connected, sockets, leaves[i := leaves[i].(stage := stage)])
  {
    var leaves' := leaves[i := leaves[i].(stage := stage)];
    forall t | t in LeftBy(leaves) ensures t in LeftBy(leaves') {
      var j :| 0 <= j < |leaves| && leaves[j].socket == t;
      assert leaves'[j].socket == t;
    }
  }

  /** Setting the row of leave i disconnected disturbs no other row. */
  lemma RetiringKeepsRows(connected: map<nat, Info>, rows: Rows, nextId: nat, sockets: map<nat, Socket>, leaves: seq<Leave>, i: nat, stage: Stage)
    requires SocketsOk(connected, sockets, leaves) && RowsOk(rows, nextId, sockets, leaves)
    requires i < |leaves| && leaves[i].stage.Retiring? && !stage.Retiring?
    ensures var p := leaves[i].info.pid;
            p in rows && RowsOk(rows[p := Retire(rows[p])], nextId, sockets, leaves[i := leaves[i].(stage := stage)])
  {
    var p := leaves[i].info.pid;
    assert LeaveRow(rows, leaves[i]) && OwnRow(rows, leaves[i].socket, sockets[leaves[i].socket]);
    var rows' := rows[p := Retire(rows[p])];
    forall s | s in sockets ensures OwnRow(rows', s, sockets[s]) {
      assert OwnRow(rows, s, sockets[s]);
    }
    forall j | 0 <= j < |leaves| && j != i ensures LeaveRow(rows', leaves[j]) {
      assert LeaveRow(rows, leaves[j]);
      assert OwnRow(rows, leaves[j].socket, sockets[leaves[j].socket]);
    }
  }

  lemma StagesKeepRows(rows: Rows, nextId: nat, sockets: map<nat, Socket>, leaves: seq<Leave>, i: nat, stage: Stage)
    requires RowsOk(rows, nextId, sockets, leaves) && i < |leaves|
    requires stage.Broken? || (leaves[i].stage.Recounting? && stage.Announced?)
    ensures RowsOk(rows, nextId, sockets, leaves[i := leaves[i].(stage := stage)])
  {
  }

  // --- Each step keeps the invariant -------------------------------------------------

  lemma JoinMoveIsSafe(h: Hub, s: nat, socket: Socket)
    requires HubOk(h) && !socket.join.In?
    requires if s in h.sockets then !h.sockets[s].join.In? && socket.claims == h.sockets[s].claims
                                    && PidOf(socket.join) == PidOf(h.sockets[s].join)
             else PidOf(socket.join) == None
    ensures HubOk(h.(sockets := h.sockets[s := socket]))
  {
    JoiningKeepsSockets(h.hall.connected, h.sockets, h.leaves, s, socket);
    JoiningKeepsRows(h.rows, h.nextId, h.sockets, h.leaves, s, socket);
  }

  lemma CreateRowIsSafe(h: Hub, s: nat, verdict: Verdict)
    requires HubOk(h) && s in h.sockets && h.sockets[s].join.Recording?
    ensures HubOk(CreateRow(h, s, verdict))
  {
    var socket := CreateRow(h, s, verdict).sockets[s];
    JoiningKeepsSockets(h.hall.connected, h.sockets, h.leaves, s, socket);
    if verdict.TookEffect() {
      NewRowKeepsRows(h.rows, h.nextId, h.sockets, h.leaves, s, socket);
    } else {
      JoinMoveIsSafe(h, s, socket);
    }
  }

  lemma LeavingKeepsSockets(connected: map<nat, Info>, sockets: map<nat, Socket>, leaves: seq<Leave>, s: nat)
    requires s in connected && s in sockets && !sockets[s].live && sockets[s].join.In?
    requires SocketsOk(connected, sockets[s := sockets[s].(live := true)], leaves)
    ensures SocketsOk(connected - {s}, sockets, leaves + [Leave(s, connected[s], Retiring)])
  {
    var leaves' := leaves + [Leave(s, connected[s], Retiring)];
    assert leaves'[|leaves|].socket == s;
    forall t | t in LeftBy(leaves) ensures t in LeftBy(leaves') {
      var i :| 0 <= i < |leaves| && leaves[i].socket == t;
      assert leaves'[i].socket == t;
    }
  }

  lemma BeginLeaveIsSafe(h: Hub, s: nat)
    requires HallOk(h.hall, h.leaves) && RowsOk(h.rows, h.nextId, h.sockets, h.leaves) && s in h.sockets
    requires !h.sockets[s].live && h.sockets[s].join.In? && s in h.hall.connected
    requires var p := h.sockets[s].join.pid; p in h.rows && h.rows[p].connected && h.rows[p].retirements == 0
    requires SocketsOk(h.hall.connected, h.sockets[s := h.sockets[s].(live := true)], h.leaves)
    ensures HubOk(BeginLeave(h, s))
  {
    RemoveKeepsHall(h.hall, h.leaves, s);
    LeavingKeepsSockets(h.hall.connected, h.sockets, h.leaves, s);
    assert h.hall.connected[s].pid == h.sockets[s].join.pid;
    hide HallOk, SocketsOk;
  }

  lemma EnteringKeepsSockets(connected: map<nat, Info>, sockets: map<nat, Socket>, leaves: seq<Leave>, s: nat, info: Info)
    requires SocketsOk(connected, sockets, leaves) && s in sockets && sockets[s].join.Entering?
    requires sockets[s].claims == Claims(info.room, info.role, info.key)
    ensures SocketsOk(connected[s := info], sockets[s := Socket(sockets[s].claims, true, In(info.pid))], leaves)
  {
  }

  lemma EnteringKeepsRows(h: Hub, s: nat)
    requires HubOk(h) && s in h.sockets && h.sockets[s].join.Entering?
    ensures var pid := h.sockets[s].join.pid;
            && RowsOk(h.rows, h.nextId, h.sockets[s := h.sockets[s].(join := In(pid))], h.leaves)
            && pid in h.rows && h.rows[pid].connected && h.rows[pid].retirements == 0
  {
  }

  lemma FinishJoinIsSafe(h: Hub, s: nat, pid: nat, receivers: nat)
    requires HubOk(h) && s in h.sockets && h.sockets[s].join == Entering(pid, receivers)
    ensures HubOk(FinishJoin(h, s, pid, receivers))
  {
    var socket := h.sockets[s];
    var info := Info(pid, socket.claims.room, socket.claims.role, socket.claims.key);
    assert s !in h.hall.connected;
    EnteringKeepsSockets(h.hall.connected, h.sockets, h.leaves, s, info);
    EnteringKeepsRows(h, s);
    EnterKeepsHall(h.hall, h.leaves, s, info, receivers);
    hide HallOk, SocketsOk, RowsOk;
    var entered := h.(hall := Enter(h.hall, s, info, receivers), sockets := h.sockets[s := socket.(join := In(pid))]);
    var revived := h.sockets[s := Socket(socket.claims, true, In(pid))];
    assert entered.sockets[s := entered.sockets[s].(live := true)] == revived;
    if socket.live {
      assert revived == entered.sockets;
    } else {
      BeginLeaveIsSafe(entered, s);
    }
  }

  lemma DisconnectIsSafe(h: Hub, s: nat)
    requires HubOk(h)
    ensures HubOk(Apply(h, Disconnect(s)))
  {
    if s in h.sockets && h.sockets[s].live {
      var dropped := h.(sockets := h.sockets[s := h.sockets[s].(live := false)]);
      if s in h.hall.connected {
        DroppingKeepsRows(h, s);
        assert dropped.sockets[s := dropped.sockets[s].(live := true)] == h.sockets;
        BeginLeaveIsSafe(dropped, s);
      } else {
        JoinMoveIsSafe(h, s, dropped.sockets[s]);
      }
    }
  }

  lemma DroppingKeepsRows(h: Hub, s: nat)
    requires HubOk(h) && s in h.hall.connected
    ensures RowsOk(h.rows, h.nextId, h.sockets[s := h.sockets[s].(live := false)], h.leaves)
    ensures var p := h.sockets[s].join.pid; p in h.rows && h.rows[p].connected && h.rows[p].retirements == 0
  {
    hide HallOk;
    assert OwnRow(h.rows, s, h.sockets[s]);
  }

  lemma LeaveStepIsSafe(h: Hub, i: nat, verdict: Verdict)
    requires HubOk(h) && i < |h.leaves|
    ensures HubOk(LeaveStep(h, i, verdict))
  {
    var leave := h.leaves[i];
    var stage := LeaveStep(h, i, verdict).leaves[i].stage;
    if leave.stage.Retiring? || leave.stage.Recounting? {
      StagesKeepSockets(h.hall.connected, h.sockets, h.leaves, i, stage);
      if stage.Announced? {
        AnnounceKeepsHall(h.hall, h.leaves, i, |ConnectedRows(h.rows, leave.info.room, Receiver)|);
      } else {
        MoveKeepsHall(h.hall, h.leaves, i, stage);
      }
      hide HallOk, SocketsOk;
      if leave.stage.Retiring? && verdict.TookEffect() {
        RetiringKeepsRows(h.hall.connected, h.rows, h.nextId, h.sockets, h.leaves, i, stage);
      } else {
        StagesKeepRows(h.rows, h.nextId, h.sockets, h.leaves, i, stage);
      }
    }
  }

  lemma JoinStepIsSafe(h: Hub, s: nat, verdict: Verdict)
    requires HubOk(h) && s in h.sockets
    ensures HubOk(JoinStep(h, s, verdict))
  {
    var socket := h.sockets[s];
    hide HubOk, FinishJoin, CreateRow;
    match socket.join
    case Recording => CreateRowIsSafe(h, s, verdict);
    case Counting(pid) => JoinMoveIsSafe(h, s, JoinStep(h, s, verdict).sockets[s]);
    case Entering(pid, receivers) =>
      if verdict.Reported() { FinishJoinIsSafe(h, s, pid, receivers); }
      else { JoinMoveIsSafe(h, s, FailJoin(h, s, Some(pid)).sockets[s]); }
    case _ =>
  }

  lemma StepIsSafe(h: Hub, step: Step)
    requires HubOk(h)
    ensures HubOk(Apply(h, step))
  {
    hide HubOk;
    match step
    case Connect(s, claims) =>
      if s !in h.sockets { JoinMoveIsSafe(h, s, Socket(claims, true, Recording)); }
    case Disconnect(s) => DisconnectIsSafe(h, s);
    case Restart => InitIsSafe(h);
    case LeaveOn(i, verdict) =>
      if i < |h.leaves| { LeaveStepIsSafe(h, i, verdict); }
    case JoinOn(s, verdict) =>
      if s in h.sockets { JoinStepIsSafe(h, s, verdict); }
  }

  /** A fresh process has no socket and has announced nothing; every row is disconnected. */
  lemma InitIsSafe(h: Hub)
    requires HubOk(h)
    ensures HubOk(Apply(h, Restart)) && HubOk(Init)
  {
    assert forall room, key :: !IsPresent(Init.hall.connected, room, key);
  }

  lemma {:induction false} HubIsAlwaysOk(picks: seq<Step>)
    ensures HubOk(Run(picks))
  {
    if picks == [] {
      assert forall room, key :: !IsPresent(Init.hall.connected, room, key);
    } else {
      HubIsAlwaysOk(picks[..|picks| - 1]);
      StepIsSafe(Run(picks[..|picks| - 1]), picks[|picks| - 1]);
    }
  }

  // --- Theorems ------------------------------------------------------------------

  /** The latest announcement about an identity agrees with its presence: `joined` while
      someone is connected under it, and not `joined` once nobody is and no leave of it is in
      flight or failed. */
  lemma LatestWordAgreesWithPresence(picks: seq<Step>, room: Id, key: Id)
    ensures var h := Run(picks);
            && (IsPresent(h.hall.connected, room, key) ==> LastWord(h.hall.log, room, key) == Some(true))
            && (!IsPresent(h.hall.connected, room, key) && !Unsettled(h.leaves, room, key)
                ==> LastWord(h.hall.log, room, key) != Some(true))
  {
    HubIsAlwaysOk(picks);
    assert WordAgrees(Run(picks).hall, Run(picks).leaves, room, key);
  }

  /** With no leave of the Room in flight or failed, the last roster broadcast to it names
      exactly the identities present, each once. */
  lemma LatestRosterIsCurrent(picks: seq<Step>, room: Id)
    requires !RoomUnsettled(Run(picks).leaves, room)
    ensures var h := Run(picks);
            match LastRoster(h.hall.log, room)
            case None => forall key :: !IsPresent(h.hall.connected, room, key)
            case Some(keys) => Distinct(keys) && forall key :: key in keys <==> IsPresent(h.hall.connected, room, key)
  {
    HubIsAlwaysOk(picks);
    assert RosterAgrees(Run(picks).hall, Run(picks).leaves, room);
  }

  /** However a drop interleaves with its own join: while the socket lives its entry is in
      the map and its row connected; afterwards the entry is gone, exactly one leave runs for
      it, and the row is set disconnected at most once, and exactly once when that leave is
      through. */
  lemma EveryConnectionLeavesOnce(picks: seq<Step>, s: nat) returns (i: nat)
    requires s in Run(picks).sockets && Run(picks).sockets[s].join.In?
    ensures var h := Run(picks);
            var row := h.sockets[s].join.pid;
            && row in h.rows
            && (h.sockets[s].live ==>
                  && s in h.hall.connected && h.rows[row].connected && h.rows[row].retirements == 0
                  && forall j :: 0 <= j < |h.leaves| ==> h.leaves[j].socket != s)
            && (!h.sockets[s].live ==>
                  && s !in h.hall.connected
                  && i < |h.leaves| && (forall j :: 0 <= j < |h.leaves| && h.leaves[j].socket == s <==> j == i)
                  && h.leaves[i].info.pid == row
                  && h.rows[row].retirements <= 1
                  && (h.leaves[i].stage.Announced? ==> h.rows[row].retirements == 1 && !h.rows[row].connected))
  {
    HubIsAlwaysOk(picks);
    var h := Run(picks);
    hide HallOk;
    assert OwnRow(h.rows, s, h.sockets[s]);
    i := 0;
    if !h.sockets[s].live {
      assert s in LeftBy(h.leaves);
      i :| 0 <= i < |h.leaves| && h.leaves[i].socket == s;
      assert LeaveRow(h.rows, h.leaves[i]);
    }
  }

  predicate IsReceiver(h: Hub, s: nat, room: Id) {
    s in h.sockets && h.sockets[s].claims.room == room && h.sockets[s].claims.role == Receiver
  }

  function LiveReceivers(h: Hub, room: Id): set<nat> {
    set s | s in h.sockets && IsReceiver(h, s, room) && h.sockets[s].live && h.sockets[s].join.In?
  }

  /** Receivers whose join has its row but is not through: still in flight, or failed after it. */
  function HalfJoined(h: Hub, room: Id): set<nat> {
    set s | s in h.sockets && IsReceiver(h, s, room) && !h.sockets[s].join.In? && PidOf(h.sockets[s].join).Some?
  }

  /** Receivers that are gone but whose row no leave has set disconnected yet, or ever will. */
  function HalfLeft(h: Hub, room: Id): set<nat> {
    set s | s in h.sockets && IsReceiver(h, s, room) && h.sockets[s].join.In? && !h.sockets[s].live
            && h.sockets[s].join.pid in h.rows && h.rows[h.sockets[s].join.pid].connected
  }

  function RowOf(h: Hub, s: nat): nat {
    if s in h.sockets && PidOf(h.sockets[s].join).Some? then PidOf(h.sockets[s].join).value else 0
  }

  function Holders(h: Hub, room: Id): set<nat> {
    LiveReceivers(h, room) + HalfJoined(h, room) + HalfLeft(h, room)
  }

  lemma HolderHasRow(h: Hub, room: Id, s: nat)
    requires HubOk(h) && s in Holders(h, room)
    ensures RowOf(h, s) in ConnectedRows(h.rows, room, Receiver) && h.rows[RowOf(h, s)].owner == s
  {
    hide HallOk;
    assert OwnRow(h.rows, s, h.sockets[s]);
    if s in HalfLeft(h, room) {
      assert s in LeftBy(h.leaves);
    }
  }

  lemma ConnectedRowHasHolder(h: Hub, room: Id, p: nat)
    requires HubOk(h) && p in ConnectedRows(h.rows, room, Receiver)
    ensures h.rows[p].owner in Holders(h, room) && RowOf(h, h.rows[p].owner) == p
  {
    hide HallOk;
    assert OwnRow(h.rows, h.rows[p].owner, h.sockets[h.rows[p].owner]);
  }

  lemma RowsPairWithHolders(h: Hub, room: Id)
    requires HubOk(h)
    ensures |ConnectedRows(h.rows, room, Receiver)| == |Holders(h, room)|
  {
    var holders := Holders(h, room);
    forall s | s in holders
      ensures RowOf(h, s) in ConnectedRows(h.rows, room, Receiver) && RowOf(h, s) in h.rows && h.rows[RowOf(h, s)].owner == s
    {
      HolderHasRow(h, room, s);
    }
    forall p | p in ConnectedRows(h.rows, room, Receiver)
      ensures p in h.rows && h.rows[p].owner in holders && RowOf(h, h.rows[p].owner) == p
    {
      ConnectedRowHasHolder(h, room, p);
    }
    hide HubOk, Holders, ConnectedRows;
    var rowOf: nat -> nat := s => RowOf(h, s);
    var ownerOf: nat -> nat := p => if p in h.rows then h.rows[p].owner else 0;
    BijectionKeepsSize<nat, nat>(holders, ConnectedRows(h.rows, room, Receiver), rowOf, ownerOf);
  }

  /** In every state the Receiver count read from the rows is the number of live Receiver sockets of
      the Room, of joins that have their row but are not through, and of connections gone whose row no
      leave has set disconnected; so it is right exactly when there are none of the latter two. */
  lemma ReceiverCountIsExact(picks: seq<Step>, room: Id)
    ensures var h := Run(picks);
            var count := |ConnectedRows(h.rows, room, Receiver)|;
            && count == |LiveReceivers(h, room)| + |HalfJoined(h, room)| + |HalfLeft(h, room)|
            && (count == |LiveReceivers(h, room)| <==> HalfJoined(h, room) == {} && HalfLeft(h, room) == {})
  {
    HubIsAlwaysOk(picks);
    var h := Run(picks);
    RowsPairWithHolders(h, room);
    hide HubOk, ConnectedRows;
    assert LiveReceivers(h, room) !! HalfJoined(h, room) !! HalfLeft(h, room);
  }

  /** Nothing is in flight in the Room and nothing has failed. */
  ghost predicate Quiet(h: Hub, room: Id) {
    && (forall s :: s in h.sockets && h.sockets[s].claims.room == room ==>
          h.sockets[s].join.In? || h.sockets[s].join == Lost(None))
    && !RoomUnsettled(h.leaves, room)
  }

  /** In a quiet Room the count is the number of live Receiver sockets. */
  lemma QuietRoomsCountRight(picks: seq<Step>, room: Id)
    requires Quiet(Run(picks), room)
    ensures |ConnectedRows(Run(picks).rows, room, Receiver)| == |LiveReceivers(Run(picks), room)|
  {
    ReceiverCountIsExact(picks, room);
    HubIsAlwaysOk(picks);
    var h := Run(picks);
    hide HallOk;
    assert HalfJoined(h, room) == {};
    assert HalfLeft(h, room) == {};
  }
}
