/** What a Room hears, over every run of joins, drops, leaves, failures and restarts
    (apps/api/src/room/room.gateway.ts): who is announced, with which Receiver count, and in which
    order a roster lists its people. */
module Announcements {
  import opened Common
  import opened Gateway
  import opened Presence
  import opened PresenceTheorems

  // --- Joins and leaves that go through ------------------------------------------------

  /** Socket s was still joining and has joined. */
  ghost predicate Joined(h: Hub, h': Hub, s: nat) {
    && s in h.sockets && !h.sockets[s].join.In?
    && s in h'.sockets && h'.sockets[s].join.In?
  }

  /** Leave i was not announced and is. */
  ghost predicate LeftNow(h: Hub, h': Hub, i: nat) {
    && i < |h.leaves| && !h.leaves[i].stage.Announced?
    && i < |h'.leaves| && h'.leaves[i].stage.Announced?
  }

  /** How many connected RECEIVER rows the Room of socket s had when its join counted them. */
  ghost function CountedAt(picks: seq<Step>, s: nat): nat {
    if picks == [] then 0
    else
      var before, after := Run(picks[..|picks| - 1]), Run(picks);
      if s in before.sockets && before.sockets[s].join.Counting? && s in after.sockets && after.sockets[s].join.Entering?
      then |ConnectedRows(before.rows, after.sockets[s].claims.room, Receiver)|
      else CountedAt(picks[..|picks| - 1], s)
  }

  lemma CountingStep(h: Hub, step: Step, s: nat)
    requires s in Apply(h, step).sockets && Apply(h, step).sockets[s].join.Entering?
    ensures s in h.sockets && Apply(h, step).sockets[s].claims == h.sockets[s].claims
    ensures h.sockets[s].join == Apply(h, step).sockets[s].join
            || (h.sockets[s].join.Counting?
                && Apply(h, step).sockets[s].join.receivers == |ConnectedRows(h.rows, h.sockets[s].claims.room, Receiver)|)
  {
    hide Enter, Depart, AnnounceLeave, ConnectedRows;
  }

  lemma {:induction false} EnteringCarriesItsCount(picks: seq<Step>, s: nat)
    requires s in Run(picks).sockets && Run(picks).sockets[s].join.Entering?
    ensures Run(picks).sockets[s].join.receivers == CountedAt(picks, s)
  {
    hide Apply, ConnectedRows;
    if picks != [] {
      var init, last := picks[..|picks| - 1], picks[|picks| - 1];
      CountingStep(Run(init), last, s);
      if !Run(init).sockets[s].join.Counting? {
        EnteringCarriesItsCount(init, s);
      }
    }
  }

  /** The roster goes to the Room and names those present, each once: who was there, and `newcomer`. */
  ghost predicate RosterOf(b: Broadcast, connected: map<nat, Info>, room: Id, newcomer: Option<Id>) {
    && b.Roster? && b.room == room && Distinct(b.keys)
    && forall key :: key in b.keys <==> IsPresent(connected, room, key) || newcomer == Some(key)
  }

  /** What a join announces: for a Receiver the number counted, and a roster with the newcomer, called
      `joined` unless the same identity was present already. */
  ghost predicate JoinAnnounced(connected: map<nat, Info>, claims: Claims, count: nat, said: seq<Broadcast>) {
    && |said| == (if claims.role.Receiver? then 2 else 1)
    && (claims.role.Receiver? ==> said[0] == ReceiverJoined(claims.room, count))
    && RosterOf(said[|said| - 1], connected, claims.room, Some(claims.key))
    && said[|said| - 1].left == None
    && said[|said| - 1].joined == if IsPresent(connected, claims.room, claims.key) then None else Some(claims.key)
  }

  /** What a leave announces: for a Receiver the number left, and a roster of those still present, with
      who left unless the same identity is still present. */
  ghost predicate LeaveAnnounced(connected: map<nat, Info>, info: Info, count: nat, said: seq<Broadcast>) {
    && |said| == (if info.role.Receiver? then 2 else 1)
    && (info.role.Receiver? ==> said[0] == ReceiverLeft(info.room, count))
    && RosterOf(said[|said| - 1], connected, info.room, None)
    && said[|said| - 1].joined == None
    && said[|said| - 1].left == if IsPresent(connected, info.room, info.key) then None else Some(info.key)
  }

  lemma EnterAnnounces(hall: Hall, s: nat, info: Info, receivers: nat)
    requires Lists(hall.order, hall.connected.Keys) && s !in hall.connected
    ensures var log := Enter(hall, s, info, receivers).log;
            && hall.log <= log
            && JoinAnnounced(hall.connected, Claims(info.room, info.role, info.key), receivers, log[|hall.log|..])
  {
    hide IsPresent, RosterFor, Lists;
    var order := hall.order + [s];
    var connected := hall.connected[s := info];
    OneMoreListed(hall.order, hall.connected.Keys, s);
    assert connected.Keys == hall.connected.Keys + {s};
    CurrentRosterIsPresent(Hall(order, connected, []), info.room);
    forall key
      ensures IsPresent(connected, info.room, key) <==> IsPresent(hall.connected, info.room, key) || key == info.key
    {
      PresentAfterEntering(hall.connected, s, info, info.room, key);
    }
    var roster := Roster(info.room, RosterFor(order, connected, info.room),
                         if IsPresent(hall.connected, info.room, info.key) then None else Some(info.key), None);
    var said := if info.role.Receiver? then [ReceiverJoined(info.room, receivers), roster] else [roster];
    assert Enter(hall, s, info, receivers).log == hall.log + said;
    assert RosterOf(roster, hall.connected, info.room, Some(info.key));
  }

  lemma LeavingAnnounces(hall: Hall, info: Info, receivers: nat)
    requires Lists(hall.order, hall.connected.Keys)
    ensures var log := AnnounceLeave(hall, info, receivers).log;
            hall.log <= log && LeaveAnnounced(hall.connected, info, receivers, log[|hall.log|..])
  {
    CurrentRosterIsPresent(hall, info.room);
    hide IsPresent, RosterFor, Lists;
    var roster := Roster(info.room, RosterFor(hall.order, hall.connected, info.room), None,
                         if IsPresent(hall.connected, info.room, info.key) then None else Some(info.key));
    var said := if info.role.Receiver? then [ReceiverLeft(info.room, receivers), roster] else [roster];
    assert AnnounceLeave(hall, info, receivers).log == hall.log + said;
    assert RosterOf(roster, hall.connected, info.room, None);
  }

  /** Nothing is said. */
  ghost predicate Silent(h: Hub, h': Hub) {
    && h'.hall.log == h.hall.log && (forall s :: !Joined(h, h', s)) && (forall i :: !LeftNow(h, h', i))
  }

  /** Exactly the join of socket s goes through, and is announced with its count. */
  ghost predicate OneJoin(h: Hub, h': Hub, s: nat) {
    && s in h.sockets && h.sockets[s].join.Entering? && Joined(h, h', s)
    && (forall t :: Joined(h, h', t) ==> t == s) && (forall i :: !LeftNow(h, h', i))
    && h.hall.log <= h'.hall.log
    && JoinAnnounced(h.hall.connected, h.sockets[s].claims, h.sockets[s].join.receivers, h'.hall.log[|h.hall.log|..])
  }

  /** Exactly leave i goes through, and is announced with the rows counted now. */
  ghost predicate OneLeave(h: Hub, h': Hub, i: nat) {
    && LeftNow(h, h', i) && (forall j :: LeftNow(h, h', j) ==> j == i) && (forall s :: !Joined(h, h', s))
    && h.hall.log <= h'.hall.log
    && LeaveAnnounced(h.hall.connected, h.leaves[i].info, |ConnectedRows(h.rows, h.leaves[i].info.room, Receiver)|,
                      h'.hall.log[|h.hall.log|..])
  }

  lemma FinishedJoinIsHeard(h: Hub, s: nat, pid: nat, receivers: nat)
    requires HubOk(h) && s in h.sockets && h.sockets[s].join == Entering(pid, receivers)
    ensures OneJoin(h, FinishJoin(h, s, pid, receivers), s)
  {
    var c := h.sockets[s].claims;
    assert s !in h.hall.connected;
    EnterAnnounces(h.hall, s, Info(pid, c.room, c.role, c.key), receivers);
    hide JoinAnnounced, HubOk, RosterFor, Without;
  }

  lemma JoinStepIsHeard(h: Hub, s: nat, verdict: Verdict)
    requires HubOk(h) && s in h.sockets
    ensures var h' := JoinStep(h, s, verdict); Silent(h, h') || OneJoin(h, h', s)
  {
    hide HubOk, FinishJoin, ConnectedRows, JoinAnnounced;
    if h.sockets[s].join.Entering? && verdict.Reported() {
      FinishedJoinIsHeard(h, s, h.sockets[s].join.pid, h.sockets[s].join.receivers);
    }
  }

  /** A leave is announced by the step that counts after it, if that is answered. */
  lemma LeaveStepSays(h: Hub, i: nat, verdict: Verdict)
    requires i < |h.leaves|
    ensures var h', leave := LeaveStep(h, i, verdict), h.leaves[i];
            var announced := leave.stage.Recounting? && verdict.Reported();
            && h'.sockets == h.sockets && |h'.leaves| == |h.leaves|
            && (forall j :: 0 <= j < |h.leaves| && j != i ==> h'.leaves[j] == h.leaves[j])
            && (h'.leaves[i].stage.Announced? <==> leave.stage.Announced? || announced)
            && h'.hall == (if announced then AnnounceLeave(h.hall, leave.info, |ConnectedRows(h.rows, leave.info.room, Receiver)|)
                           else h.hall)
  {
    hide AnnounceLeave, ConnectedRows, Retire;
  }

  lemma LeaveStepIsHeard(h: Hub, i: nat, verdict: Verdict)
    requires HubOk(h) && i < |h.leaves|
    ensures var h' := LeaveStep(h, i, verdict); Silent(h, h') || OneLeave(h, h', i)
  {
    var info := h.leaves[i].info;
    assert Lists(h.hall.order, h.hall.connected.Keys);
    hide HubOk, ConnectedRows, LeaveAnnounced, AnnounceLeave, Lists, LeaveStep;
    LeaveStepSays(h, i, verdict);
    LeavingAnnounces(h.hall, info, |ConnectedRows(h.rows, info.room, Receiver)|);
  }

  /** In every run each step says exactly what it should: a join that goes through is announced once,
      a Receiver's with the number of connected RECEIVER rows at the step that counted them; a leave
      that goes through once, a Receiver's with the number now; no other step says anything, and a
      restarted process has said nothing. */
  lemma StepsAnnounceExactly(picks: seq<Step>, step: Step)
    ensures var h, h' := Run(picks), Apply(Run(picks), step);
            if step.Restart? then h'.hall.log == []
            else || Silent(h, h')
                 || (step.JoinOn? && OneJoin(h, h', step.s) && h.sockets[step.s].join.receivers == CountedAt(picks, step.s))
                 || (step.LeaveOn? && OneLeave(h, h', step.i))
  {
    HubIsAlwaysOk(picks);
    var h := Run(picks);
    hide HubOk, JoinStep, LeaveStep, Run, CountedAt;
    match step
    case JoinOn(s, verdict) =>
      if s in h.sockets {
        JoinStepIsHeard(h, s, verdict);
        if h.sockets[s].join.Entering? { EnteringCarriesItsCount(picks, s); }
        hide Silent, OneJoin;
      }
    case LeaveOn(i, verdict) =>
      if i < |h.leaves| {
        LeaveStepIsHeard(h, i, verdict);
        hide Silent, OneLeave;
      }
    case _ =>
  }

  // --- The order of a roster -------------------------------------------------------------

  /** How long the run was when socket s last joined. */
  ghost function JoinedAt(picks: seq<Step>, s: nat): nat {
    if picks == [] then 0
    else if Joined(Run(picks[..|picks| - 1]), Run(picks), s) then |picks|
    else JoinedAt(picks[..|picks| - 1], s)
  }

  lemma {:induction false} JoinedInThePast(picks: seq<Step>, s: nat)
    ensures JoinedAt(picks, s) <= |picks|
  {
    hide Joined, Run;
    if picks != [] { JoinedInThePast(picks[..|picks| - 1], s); }
  }

  /** Removing a key keeps the rest in order. */
  lemma {:induction false} WithoutKeepsOrder<T>(order: seq<T>, key: T, a: T, b: T)
    ensures Precedes(Without(order, key), a, b) ==> Precedes(order, a, b)
    ensures a in Without(order, key) ==> a in order && a != key
  {
    if order != [] {
      var n := |order| - 1;
      WithoutKeepsOrder(order[..n], key, a, b);
      assert order == order[..n] + [order[n]];
      var rest, all := Without(order[..n], key), Without(order, key);
      if i, j :| 0 <= i < j < |all| && all[i] == a && all[j] == b {
        if j < |rest| {
          assert rest[i] == a && rest[j] == b;
          var k, m :| 0 <= k < m < n && order[..n][k] == a && order[..n][m] == b;
          assert order[k] == a && order[m] == b;
        } else {
          assert rest[i] == a;
          WithoutKeepsOrder(order[..n], key, a, a);
          var k :| 0 <= k < n && order[..n][k] == a;
          assert order[k] == a && order[n] == b;
        }
      }
    }
  }

  lemma AppendedLast(order: seq<nat>, s: nat, a: nat, b: nat)
    ensures Precedes(order + [s], a, b) ==> Precedes(order, a, b) || (a in order && b == s)
  {
    var all := order + [s];
    if i, j :| 0 <= i < j < |all| && all[i] == a && all[j] == b {
      assert order[i] == a;
      if j < |order| { assert order[j] == b; }
    }
  }

  /** Whoever precedes another in the map was there first, or is there when the other joins. */
  ghost predicate OrderGrowsAtTheEnd(h: Hub, h': Hub, a: nat, b: nat) {
    Precedes(h'.hall.order, a, b) ==>
      !Joined(h, h', a) && if Joined(h, h', b) then true else Precedes(h.hall.order, a, b)
  }

  lemma MembersHaveJoined(h: Hub, s: nat)
    requires HubOk(h) && s in h.hall.order
    ensures s in h.sockets && h.sockets[s].join.In?
  {
    assert s in h.hall.connected;
    hide HallOk;
  }

  lemma PrecedingIsMember(order: seq<nat>, a: nat, b: nat)
    requires Precedes(order, a, b)
    ensures a in order && b in order
  {
  }

  lemma FinishedJoinAppends(h: Hub, s: nat, pid: nat, receivers: nat)
    requires HubOk(h) && s in h.sockets && h.sockets[s].join == Entering(pid, receivers)
    ensures var h' := FinishJoin(h, s, pid, receivers);
            && s !in h.hall.order
            && (h'.hall.order == h.hall.order + [s] || h'.hall.order == Without(h.hall.order + [s], s))
            && forall t :: Joined(h, h', t) <==> t == s
  {
    assert s !in h.hall.connected;
    hide HallOk, RowsOk, RosterFor, Without, IsPresent;
  }

  lemma FinishedJoinGoesLast(h: Hub, s: nat, pid: nat, receivers: nat, a: nat, b: nat)
    requires HubOk(h) && s in h.sockets && h.sockets[s].join == Entering(pid, receivers)
    ensures OrderGrowsAtTheEnd(h, FinishJoin(h, s, pid, receivers), a, b)
  {
    hide HubOk, Without, Precedes, FinishJoin, Joined;
    FinishedJoinAppends(h, s, pid, receivers);
    AppendedLast(h.hall.order, s, a, b);
    WithoutKeepsOrder(h.hall.order + [s], s, a, b);
    if Precedes(h.hall.order, a, b) { PrecedingIsMember(h.hall.order, a, b); }
  }

  lemma StepsKeepJoinOrder(h: Hub, step: Step, a: nat, b: nat)
    requires HubOk(h) && !step.Restart?
    ensures OrderGrowsAtTheEnd(h, Apply(h, step), a, b)
  {
    if Precedes(h.hall.order, a, b) {
      PrecedingIsMember(h.hall.order, a, b);
      MembersHaveJoined(h, a);
      MembersHaveJoined(h, b);
    }
    hide HubOk, Precedes, FinishJoin, AnnounceLeave, Without, ConnectedRows;
    match step
    case JoinOn(s, verdict) =>
      if s in h.sockets && h.sockets[s].join.Entering? {
        FinishedJoinGoesLast(h, s, h.sockets[s].join.pid, h.sockets[s].join.receivers, a, b);
        hide OrderGrowsAtTheEnd;
        if !verdict.Reported() { FailedJoinKeepsOrder(h, s, a, b); }
      }
    case Disconnect(s) => WithoutKeepsOrder(h.hall.order, s, a, b);
    case LeaveOn(i, verdict) =>
      if i < |h.leaves| {
        AnnouncingKeepsOrder(h, i);
      }
    case _ =>
  }

  lemma FailedJoinKeepsOrder(h: Hub, s: nat, a: nat, b: nat)
    requires HubOk(h) && s in h.sockets && h.sockets[s].join.Entering?
    ensures OrderGrowsAtTheEnd(h, FailJoin(h, s, Some(h.sockets[s].join.pid)), a, b)
  {
    if Precedes(h.hall.order, a, b) {
      PrecedingIsMember(h.hall.order, a, b);
      MembersHaveJoined(h, a);
    }
  }

  lemma AnnouncingKeepsOrder(h: Hub, i: nat)
    requires i < |h.leaves|
    ensures forall v :: LeaveStep(h, i, v).hall.order == h.hall.order && LeaveStep(h, i, v).sockets == h.sockets
  {
    hide ConnectedRows, RosterFor, IsPresent, Retire;
  }

  /** In every run the connections are kept in the order in which they joined. */
  lemma {:induction false} ConnectionsAreInJoinOrder(picks: seq<Step>, a: nat, b: nat)
    requires Precedes(Run(picks).hall.order, a, b)
    ensures JoinedAt(picks, a) < JoinedAt(picks, b)
  {
    hide Precedes, Joined, Apply, HubOk;
    if picks == [] || picks[|picks| - 1].Restart? {
      NobodyPrecedes(picks, a, b);
    } else {
      var init, last := picks[..|picks| - 1], picks[|picks| - 1];
      HubIsAlwaysOk(init);
      StepsKeepJoinOrder(Run(init), last, a, b);
      JoinedInThePast(init, a);
      if !Joined(Run(init), Run(picks), b) {
        ConnectionsAreInJoinOrder(init, a, b);
      }
    }
  }

  lemma NobodyPrecedes(picks: seq<Step>, a: nat, b: nat)
    requires picks == [] || picks[|picks| - 1].Restart?
    ensures !Precedes(Run(picks).hall.order, a, b)
  {
  }

  predicate Speaking(connected: map<nat, Info>, s: nat, room: Id, key: Id) {
    s in connected && connected[s].room == room && connected[s].key == key
  }

  /** Some connection of a comes before every connection of b. */
  ghost predicate Older(order: seq<nat>, connected: map<nat, Info>, room: Id, a: Id, b: Id) {
    exists p :: 0 <= p < |order| && Speaking(connected, order[p], room, a)
      && forall q :: 0 <= q < |order| && Speaking(connected, order[q], room, b) ==> p < q
  }

  lemma OlderStays(order: seq<nat>, connected: map<nat, Info>, room: Id, a: Id, b: Id, s: nat)
    requires Older(order, connected, room, a, b)
    ensures Older(order + [s], connected, room, a, b)
  {
    var all := order + [s];
    var p :| 0 <= p < |order| && Speaking(connected, order[p], room, a)
             && forall q :: 0 <= q < |order| && Speaking(connected, order[q], room, b) ==> p < q;
    assert all[p] == order[p];
    forall q | 0 <= q < |all| && Speaking(connected, all[q], room, b) ensures p < q {
      assert q < |order| ==> all[q] == order[q];
    }
  }

  lemma {:induction false} RosterIsOldestFirst(order: seq<nat>, connected: map<nat, Info>, room: Id, i: nat, j: nat)
    requires forall s | s in order :: s in connected
    requires i < j < |RosterFor(order, connected, room)|
    ensures var roster := RosterFor(order, connected, room); Older(order, connected, room, roster[i], roster[j])
  {
    var n := |order| - 1;
    var init, last := order[..n], order[n];
    assert order == init + [last];
    var before, roster := RosterFor(init, connected, room), RosterFor(order, connected, room);
    RosterIsExact(init, connected, room);
    if j < |before| {
      RosterIsOldestFirst(init, connected, room, i, j);
      OlderStays(init, connected, room, roster[i], roster[j], last);
    } else {
      assert before[i] in before;
      var s :| s in init && connected[s].room == room && connected[s].key == before[i];
      var p :| 0 <= p < n && init[p] == s;
      assert order[p] == s;
      forall q | 0 <= q < |order| && Speaking(connected, order[q], room, roster[j]) ensures p < q {
        if q < n { assert init[q] in init && roster[j] in before; }
      }
    }
  }

  /** In every run a roster lists its people by their oldest connection. */
  lemma RostersListTheOldestFirst(picks: seq<Step>, room: Id, i: nat, j: nat) returns (s: nat)
    requires var hall := Run(picks).hall; i < j < |RosterFor(hall.order, hall.connected, room)|
    ensures var hall := Run(picks).hall;
            var roster := RosterFor(hall.order, hall.connected, room);
            && Speaking(hall.connected, s, room, roster[i])
            && forall t :: Speaking(hall.connected, t, room, roster[j]) ==> JoinedAt(picks, s) < JoinedAt(picks, t)
  {
    HubIsAlwaysOk(picks);
    var hall := Run(picks).hall;
    assert Lists(hall.order, hall.connected.Keys);
    hide HubOk, Run, RosterFor, JoinedAt;
    var roster := RosterFor(hall.order, hall.connected, room);
    RosterIsOldestFirst(hall.order, hall.connected, room, i, j);
    var p :| 0 <= p < |hall.order| && Speaking(hall.connected, hall.order[p], room, roster[i])
             && forall q :: 0 <= q < |hall.order| && Speaking(hall.connected, hall.order[q], room, roster[j]) ==> p < q;
    s := hall.order[p];
    forall t | Speaking(hall.connected, t, room, roster[j]) ensures JoinedAt(picks, s) < JoinedAt(picks, t) {
      var q :| 0 <= q < |hall.order| && hall.order[q] == t;
      assert Precedes(hall.order, s, t);
      ConnectionsAreInJoinOrder(picks, s, t);
    }
  }

  // --- What is answered goes through -----------------------------------------------------

  /** A join whose calls are answered joins, and its socket is connected as who it claimed to be. */
  lemma AnsweredJoinsGoThrough(h: Hub, s: nat, claims: Claims)
    requires HubOk(h) && s !in h.sockets
    ensures var entered := Apply(Apply(Apply(Apply(h, Connect(s, claims)), JoinOn(s, Done)), JoinOn(s, Done)), JoinOn(s, Done));
            && s in entered.sockets && entered.sockets[s].join.In? && Speaking(entered.hall.connected, s, claims.room, claims.key)
            && entered.hall.connected[s].role == claims.role
  {
    hide HubOk, RosterFor, IsPresent, ConnectedRows;
  }

  /** A connection that drops is gone at once, and its leave, answered, is announced. */
  lemma AnsweredLeavesGoThrough(h: Hub, s: nat)
    requires HubOk(h) && s in h.hall.connected
    ensures var dropped := Apply(h, Disconnect(s));
            var i := |h.leaves|;
            var gone := Apply(Apply(dropped, LeaveOn(i, Done)), LeaveOn(i, Done));
            && s !in dropped.hall.connected && |dropped.leaves| == i + 1 && dropped.leaves[i].socket == s
            && |gone.leaves| == i + 1 && gone.leaves[i].stage.Announced?
  {
    assert s in h.sockets && h.sockets[s].live;
    hide HubOk, RosterFor, IsPresent, ConnectedRows, Without;
  }

  /** A socket whose join failed has been disconnected, and was never in the map. */
  ghost predicate FailedAreGone(h: Hub) {
    forall s :: s in h.sockets && h.sockets[s].join.Lost? ==> !h.sockets[s].live && s !in h.hall.connected
  }

  lemma StepsDropFailedJoins(h: Hub, step: Step)
    requires HubOk(h) && FailedAreGone(h)
    ensures FailedAreGone(Apply(h, step))
  {
    hide Enter, AnnounceLeave, ConnectedRows, Without, HallOk, RowsOk;
    if step.JoinOn? && step.s in h.sockets && h.sockets[step.s].join.Entering? {
      EnteringIsNotFailing(h, step.s);
      hide FinishJoin;
    }
    if step.LeaveOn? && step.i < |h.leaves| {
      LeavingFailsNobody(h, step.i, step.verdict);
      hide LeaveStep;
    }
  }

  lemma EnteringIsNotFailing(h: Hub, s: nat)
    requires HubOk(h) && FailedAreGone(h) && s in h.sockets && h.sockets[s].join.Entering?
    ensures FailedAreGone(FinishJoin(h, s, h.sockets[s].join.pid, h.sockets[s].join.receivers))
  {
    hide RosterFor, IsPresent, Without, HallOk, RowsOk;
  }

  lemma LeavingFailsNobody(h: Hub, i: nat, verdict: Verdict)
    requires i < |h.leaves|
    ensures LeaveStep(h, i, verdict).sockets == h.sockets
    ensures LeaveStep(h, i, verdict).hall.connected == h.hall.connected
  {
    hide RosterFor, IsPresent, ConnectedRows, Retire;
  }

  lemma {:induction false} FailedJoinsAreDisconnected(picks: seq<Step>)
    ensures FailedAreGone(Run(picks))
  {
    hide FailedAreGone, Apply, HubOk;
    if picks == [] {
      NothingFailedYet();
    } else {
      FailedJoinsAreDisconnected(picks[..|picks| - 1]);
      HubIsAlwaysOk(picks[..|picks| - 1]);
      StepsDropFailedJoins(Run(picks[..|picks| - 1]), picks[|picks| - 1]);
    }
  }

  lemma NothingFailedYet()
    ensures FailedAreGone(Init)
  {
  }
}
