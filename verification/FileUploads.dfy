/** The one-lane upload scheduler of apps/web/src/features/room/hooks/useFileUploads.ts: two
    effects and the callbacks of each uploader call, run in any order the page produces. */
module FileUploads {
  import opened Common

  datatype UploadState = Uploading(percent: nat) | Completed(transferId: Id) | Failed

  datatype Outcome = Resolved(transferId: Id) | Rejected

  /** `Settled` is between a promise's `then`/`catch` and its `finally`. `removed` observes whether
      the call had been aborted when it settled. */
  datatype Phase = Running | Settled(outcome: Outcome, removed: bool) | Finished(outcome: Outcome, removed: bool)

  /** One uploader call; `begun` is the queue it was picked from. */
  datatype Call = Call(id: Id, begun: nat, aborted: bool, phase: Phase)

  /** `queues` is every queue the hook was given, the last one current; `active` is the call
      `activeRef` holds. */
  datatype Lane = Lane(
    queues: seq<seq<Id>>, session: bool, active: Option<nat>, started: set<Id>, states: map<Id, UploadState>,
    calls: seq<Call>)
  {
    predicate Sound() {
      queues != [] && (active.Some? ==> active.value < |calls|)
    }

    function Files(): seq<Id>
      requires queues != []
    {
      queues[|queues| - 1]
    }
  }

  /** Index of the first file not started yet, or the queue's length. */
  function NextIndex(files: seq<Id>, started: set<Id>): (k: nat)
    ensures k <= |files|
    ensures forall j :: 0 <= j < k ==> files[j] in started
    ensures k < |files| ==> files[k] !in started
  {
    if files == [] || files[0] !in started then 0 else 1 + NextIndex(files[1..], started)
  }

  /** The effect on `[files]`. */
  function QueueEffect(l: Lane): (r: Lane)
    requires l.Sound()
    ensures r.Sound()
  {
    var calls :=
      if l.active.Some? && l.calls[l.active.value].id !in l.Files()
      then l.calls[l.active.value := l.calls[l.active.value].(aborted := true)] else l.calls;
    l.(calls := calls, started := set id | id in l.started && id in l.Files())
  }

  /** The effect on `[files, token, apiOrigin, uploader, states]`. */
  function StartEffect(l: Lane): (r: Lane)
    requires l.Sound()
    ensures r.Sound()
  {
    var k := NextIndex(l.Files(), l.started);
    if !l.session || l.active.Some? || k == |l.Files()| then l
    else
      var id := l.Files()[k];
      l.(started := l.started + {id},
         active := Some(|l.calls|),
         states := l.states[id := Uploading(0)],
         calls := l.calls + [Call(id, |l.queues| - 1, false, Running)])
  }

  function SetFiles(l: Lane, files: seq<Id>): Lane
    requires l.Sound()
  {
    StartEffect(QueueEffect(l.(queues := l.queues + [files])))
  }

  function SetSession(l: Lane, session: bool): Lane
    requires l.Sound()
  {
    StartEffect(l.(session := session))
  }

  /** Nothing happens for a call that is not running. */
  function Progress(l: Lane, i: nat, percent: nat): Lane
    requires l.Sound()
  {
    if i >= |l.calls| || l.calls[i].phase != Running then l
    else StartEffect(l.(states := l.states[l.calls[i].id := Uploading(percent)]))
  }

  function SettledStates(states: map<Id, UploadState>, call: Call, outcome: Outcome): map<Id, UploadState> {
    match outcome
    case Resolved(transferId) => states[call.id := Completed(transferId)]
    case Rejected => if call.aborted then states - {call.id} else states[call.id := Failed]
  }

  function Answered(l: Lane, i: nat, outcome: Outcome): Lane
    requires i < |l.calls|
  {
    l.(states := SettledStates(l.states, l.calls[i], outcome),
       calls := l.calls[i := l.calls[i].(phase := Settled(outcome, l.calls[i].aborted))])
  }

  function Settle(l: Lane, i: nat, outcome: Outcome): Lane
    requires l.Sound()
  {
    if i >= |l.calls| || l.calls[i].phase != Running then l
    else StartEffect(Answered(l, i, outcome))
  }

  /** The `finally` of a call; it clears `activeRef` whoever it belongs to. */
  function Released(l: Lane, i: nat): Lane
    requires i < |l.calls| && l.calls[i].phase.Settled?
  {
    l.(active := None, calls := l.calls[i := l.calls[i].(phase := Finished(l.calls[i].phase.outcome, l.calls[i].phase.removed))])
  }

  function Finish(l: Lane, i: nat): Lane
    requires l.Sound()
  {
    if i >= |l.calls| || !l.calls[i].phase.Settled? then l
    else StartEffect(Released(l, i))
  }

  datatype Event =
    | Files(files: seq<Id>) | Session(session: bool)
    | OnProgress(i: nat, percent: nat) | OnSettled(i: nat, outcome: Outcome) | OnFinally(i: nat)

  function Step(l: Lane, e: Event): (r: Lane)
    requires l.Sound()
    ensures r.Sound()
  {
    match e
    case Files(files) => SetFiles(l, files)
    case Session(session) => SetSession(l, session)
    case OnProgress(i, percent) => Progress(l, i, percent)
    case OnSettled(i, outcome) => Settle(l, i, outcome)
    case OnFinally(i) => Finish(l, i)
  }

  const MOUNTED: Lane := Lane([[]], false, None, {}, map[], [])

  function Run(events: seq<Event>): (l: Lane)
    ensures l.Sound()
  {
    if events == [] then MOUNTED else Step(Run(events[..|events| - 1]), events[|events| - 1])
  }

  /** `id` stayed in the queue from version `from` to version `to`. */
  ghost predicate Stayed(queues: seq<seq<Id>>, from: nat, to: nat, id: Id) {
    forall v :: from <= v <= to && v < |queues| ==> id in queues[v]
  }

  /** One of the first `n` calls was for `id`, which has been queued ever since, up to version `to`. */
  ghost predicate CalledFor(l: Lane, n: nat, to: nat, id: Id) {
    exists j :: 0 <= j < n && j < |l.calls| && l.calls[j].id == id && Stayed(l.queues, l.calls[j].begun, to, id)
  }

  /** Call `i` was for a file of the queue it was picked from, not called for in that stay, and
      every file ahead of it had been. */
  ghost predicate NextInLine(l: Lane, i: nat)
    requires i < |l.calls|
  {
    var begun, id := l.calls[i].begun, l.calls[i].id;
    && begun < |l.queues|
    && !CalledFor(l, i, begun, id)
    && exists k :: 0 <= k < |l.queues[begun]| && l.queues[begun][k] == id
                   && forall ahead :: 0 <= ahead < k ==> CalledFor(l, i, begun, l.queues[begun][ahead])
  }

  ghost predicate OneAtATime(l: Lane) {
    && (l.active.Some? ==> l.active.value == |l.calls| - 1 && !l.calls[l.active.value].phase.Finished?)
    && (forall i :: 0 <= i < |l.calls| && !l.calls[i].phase.Finished? ==> l.active == Some(i))
  }

  ghost predicate StartedIsCalledFor(l: Lane)
    requires l.Sound()
  {
    forall id :: id in l.started <==> CalledFor(l, |l.calls|, |l.queues| - 1, id)
  }

  ghost predicate AbortedMeansLeft(l: Lane)
    requires l.Sound()
  {
    l.active.Some? ==>
      var call := l.calls[l.active.value];
      call.aborted <==> !Stayed(l.queues, call.begun, |l.queues| - 1, call.id)
  }

  ghost predicate InLine(l: Lane) {
    forall i :: 0 <= i < |l.calls| ==> NextInLine(l, i)
  }

  ghost predicate NoneWaits(l: Lane)
    requires l.Sound()
  {
    l.active.None? && l.session ==> forall id | id in l.Files() :: id in l.started
  }

  ghost predicate OnlyTheRunningRowUploads(l: Lane)
    requires l.Sound()
  {
    forall id | id in l.states && l.states[id].Uploading? ::
      l.active.Some? && l.calls[l.active.value].id == id && l.calls[l.active.value].phase == Running
  }

  /** No later call was for the same file. */
  ghost predicate LatestFor(calls: seq<Call>, i: nat)
    requires i < |calls|
  {
    forall j :: i < j < |calls| ==> calls[j].id != calls[i].id
  }

  /** What a row shows about its latest call: a rejection shows as an error, unless the row had been
      removed by then; so a row removed mid-upload leaves no trace. */
  ghost predicate Shows(states: map<Id, UploadState>, call: Call) {
    match call.phase
    case Running => call.id in states && states[call.id].Uploading?
    case Settled(outcome, removed) => ShowsOutcome(states, call.id, outcome, removed)
    case Finished(outcome, removed) => ShowsOutcome(states, call.id, outcome, removed)
  }

  ghost predicate ShowsOutcome(states: map<Id, UploadState>, id: Id, outcome: Outcome, removed: bool) {
    match outcome
    case Resolved(transferId) => id in states && states[id] == Completed(transferId)
    case Rejected => if removed then id !in states else id in states && states[id] == Failed
  }

  ghost predicate RowsTellTheTruth(l: Lane) {
    && (forall i :: 0 <= i < |l.calls| && LatestFor(l.calls, i) ==> Shows(l.states, l.calls[i]))
    && (forall id | id in l.states :: exists i :: 0 <= i < |l.calls| && l.calls[i].id == id)
  }

  /** Everything but the wake-up, which only holds once the start effect has run. */
  ghost predicate Steady(l: Lane)
    requires l.Sound()
  {
    && OneAtATime(l) && StartedIsCalledFor(l) && AbortedMeansLeft(l) && InLine(l) && OnlyTheRunningRowUploads(l)
  }

  /** Calls and queues are only ever appended to, so what was so stays so. */
  ghost predicate Extends(a: Lane, b: Lane) {
    && |a.calls| <= |b.calls| && a.queues <= b.queues
    && forall i :: 0 <= i < |a.calls| ==> a.calls[i].id == b.calls[i].id && a.calls[i].begun == b.calls[i].begun
  }

  lemma CalledForIsStable(a: Lane, b: Lane, n: nat, to: nat, id: Id)
    requires Extends(a, b) && n <= |a.calls| && to < |a.queues|
    ensures CalledFor(a, n, to, id) <==> CalledFor(b, n, to, id)
  {
  }

  lemma NextInLineIsStable(a: Lane, b: Lane, i: nat)
    requires Extends(a, b) && i < |a.calls| && NextInLine(a, i)
    ensures NextInLine(b, i)
  {
  }

  lemma InLineIsStable(a: Lane, b: Lane)
    requires Extends(a, b) && |a.calls| == |b.calls| && InLine(a)
    ensures InLine(b)
  {
    forall i | 0 <= i < |b.calls| ensures NextInLine(b, i) {
      NextInLineIsStable(a, b, i);
    }
  }

  lemma StartedIsStable(a: Lane, b: Lane)
    requires Extends(a, b) && |a.calls| == |b.calls| && a.queues == b.queues && a.Sound() && b.Sound()
    requires StartedIsCalledFor(a) && a.started == b.started
    ensures StartedIsCalledFor(b)
  {
  }

  lemma StartKeepsStarted(l: Lane)
    requires l.Sound() && Steady(l)
    ensures StartedIsCalledFor(StartEffect(l))
  {
    var r := StartEffect(l);
    if r != l {
      var n, to := |l.calls|, |l.queues| - 1;
      forall id ensures id in r.started <==> CalledFor(r, |r.calls|, to, id) {
        CalledForIsStable(l, r, n, to, id);
        if id == r.calls[n].id {
          assert Stayed(r.queues, r.calls[n].begun, to, id);
        }
        if CalledFor(r, n + 1, to, id) && id != r.calls[n].id {
          assert CalledFor(r, n, to, id);
        }
      }
    }
  }

  lemma StartKeepsLine(l: Lane)
    requires l.Sound() && Steady(l)
    ensures InLine(StartEffect(l))
  {
    var r := StartEffect(l);
    forall i | 0 <= i < |r.calls| ensures NextInLine(r, i) {
      if i < |l.calls| {
        NextInLineIsStable(l, r, i);
      } else {
        var to, k := |l.queues| - 1, NextIndex(l.Files(), l.started);
        CalledForIsStable(l, r, i, to, l.Files()[k]);
        forall ahead | 0 <= ahead < k ensures CalledFor(r, i, to, r.queues[to][ahead]) {
          CalledForIsStable(l, r, i, to, l.Files()[ahead]);
        }
      }
    }
  }

  lemma StartWakes(l: Lane)
    requires l.Sound() && Steady(l)
    ensures Steady(StartEffect(l)) && NoneWaits(StartEffect(l))
  {
    StartKeepsStarted(l);
    StartKeepsLine(l);
    hide StartedIsCalledFor, InLine;
  }

  lemma QueueKeepsStarted(l: Lane, files: seq<Id>)
    requires l.Sound() && Steady(l)
    ensures StartedIsCalledFor(QueueEffect(l.(queues := l.queues + [files])))
  {
    var r := QueueEffect(l.(queues := l.queues + [files]));
    var n, to := |l.calls|, |l.queues| - 1;
    forall id ensures id in r.started <==> CalledFor(r, n, to + 1, id) {
      CalledForIsStable(l, r, n, to, id);
      if id in r.started {
        var j :| 0 <= j < n && r.calls[j].id == id && Stayed(r.queues, r.calls[j].begun, to, id);
        assert Stayed(r.queues, r.calls[j].begun, to + 1, id);
      }
      if CalledFor(r, n, to + 1, id) {
        var j :| 0 <= j < n && r.calls[j].id == id && Stayed(r.queues, r.calls[j].begun, to + 1, id);
        assert NextInLine(l, j);
        assert id in r.queues[to + 1];
        assert Stayed(r.queues, r.calls[j].begun, to, id);
      }
    }
  }

  lemma QueueKeepsSteady(l: Lane, files: seq<Id>)
    requires l.Sound() && Steady(l)
    ensures Steady(QueueEffect(l.(queues := l.queues + [files])))
  {
    var r := QueueEffect(l.(queues := l.queues + [files]));
    QueueKeepsStarted(l, files);
    InLineIsStable(l, r);
    if l.active.Some? {
      assert NextInLine(l, l.active.value);
    }
    hide StartedIsCalledFor, InLine, NextInLine;
  }

  lemma ProgressKeepsSteady(l: Lane, i: nat, percent: nat)
    requires l.Sound() && Steady(l) && i < |l.calls| && l.calls[i].phase == Running
    ensures Steady(l.(states := l.states[l.calls[i].id := Uploading(percent)]))
  {
    var m := l.(states := l.states[l.calls[i].id := Uploading(percent)]);
    StartedIsStable(l, m);
    InLineIsStable(l, m);
    hide StartedIsCalledFor, InLine;
  }

  lemma SettleKeepsSteady(l: Lane, i: nat, outcome: Outcome)
    requires l.Sound() && Steady(l) && i < |l.calls| && l.calls[i].phase == Running
    ensures Steady(Answered(l, i, outcome))
  {
    var m := Answered(l, i, outcome);
    StartedIsStable(l, m);
    InLineIsStable(l, m);
    hide StartedIsCalledFor, InLine;
  }

  lemma FinishKeepsSteady(l: Lane, i: nat)
    requires l.Sound() && Steady(l) && i < |l.calls| && l.calls[i].phase.Settled?
    ensures Steady(Released(l, i))
  {
    var m := Released(l, i);
    StartedIsStable(l, m);
    InLineIsStable(l, m);
    hide StartedIsCalledFor, InLine;
  }

  lemma StepKeepsSteady(l: Lane, e: Event)
    requires l.Sound() && Steady(l) && NoneWaits(l)
    ensures Steady(Step(l, e)) && NoneWaits(Step(l, e))
  {
    match e
    case Files(files) =>
      QueueKeepsSteady(l, files);
      hide Steady, QueueEffect;
      StartWakes(QueueEffect(l.(queues := l.queues + [files])));
    case Session(session) =>
      var m := l.(session := session);
      StartedIsStable(l, m);
      InLineIsStable(l, m);
      hide StartedIsCalledFor, InLine;
      StartWakes(m);
    case OnProgress(i, percent) =>
      if i < |l.calls| && l.calls[i].phase == Running {
        ProgressKeepsSteady(l, i, percent);
        hide Steady;
        StartWakes(l.(states := l.states[l.calls[i].id := Uploading(percent)]));
      }
    case OnSettled(i, outcome) =>
      if i < |l.calls| && l.calls[i].phase == Running {
        SettleKeepsSteady(l, i, outcome);
        hide Steady;
        StartWakes(Answered(l, i, outcome));
      }
    case OnFinally(i) =>
      if i < |l.calls| && l.calls[i].phase.Settled? {
        FinishKeepsSteady(l, i);
        hide Steady;
        StartWakes(Released(l, i));
      }
  }

  lemma {:induction false} RunIsSteady(events: seq<Event>)
    ensures Steady(Run(events)) && NoneWaits(Run(events))
  {
    if events == [] {
    } else {
      RunIsSteady(events[..|events| - 1]);
      StepKeepsSteady(Run(events[..|events| - 1]), events[|events| - 1]);
    }
  }

  /** At every moment at most one call is unsettled, only its row shows progress, and it is aborted
      exactly when its row has left the queue since it began. */
  lemma OneUploadAtATime(events: seq<Event>)
    ensures var l := Run(events);
            && (forall i :: 0 <= i < |l.calls| - 1 ==> l.calls[i].phase.Finished?)
            && (forall id | id in l.states && l.states[id].Uploading? ::
                  l.calls != [] && l.calls[|l.calls| - 1].id == id && l.calls[|l.calls| - 1].phase == Running)
            && (l.calls != [] && !l.calls[|l.calls| - 1].phase.Finished? ==>
                  var call := l.calls[|l.calls| - 1];
                  call.aborted <==> !Stayed(l.queues, call.begun, |l.queues| - 1, call.id))
  {
    hide StartedIsCalledFor, InLine, Stayed, Step;
    RunIsSteady(events);
  }

  /** A change that keeps every call's file and what its row shows keeps rows truthful. */
  lemma RowsFollowCalls(a: Lane, b: Lane)
    requires RowsTellTheTruth(a) && |a.calls| == |b.calls|
    requires forall i :: 0 <= i < |a.calls| ==> b.calls[i].id == a.calls[i].id
    requires forall i :: 0 <= i < |a.calls| && LatestFor(a.calls, i) && Shows(a.states, a.calls[i]) ==> Shows(b.states, b.calls[i])
    requires forall id | id in b.states :: id in a.states || exists i :: 0 <= i < |a.calls| && a.calls[i].id == id
    ensures RowsTellTheTruth(b)
  {
    forall i | 0 <= i < |b.calls| && LatestFor(b.calls, i) ensures Shows(b.states, b.calls[i]) {
      assert LatestFor(a.calls, i);
    }
    forall id | id in b.states ensures exists i :: 0 <= i < |b.calls| && b.calls[i].id == id {
      var i :| 0 <= i < |a.calls| && a.calls[i].id == id;
      assert b.calls[i].id == id;
    }
  }

  lemma StartKeepsRows(l: Lane)
    requires l.Sound() && RowsTellTheTruth(l)
    ensures RowsTellTheTruth(StartEffect(l))
  {
    var r := StartEffect(l);
    if r != l {
      var n := |l.calls|;
      forall i | 0 <= i <= n && LatestFor(r.calls, i) ensures Shows(r.states, r.calls[i]) {
        if i < n {
          assert r.calls[n].id != r.calls[i].id;
          assert forall j :: 0 <= j < n ==> r.calls[j] == l.calls[j];
          assert LatestFor(l.calls, i);
        }
      }
      forall id | id in r.states ensures exists i :: 0 <= i < |r.calls| && r.calls[i].id == id {
        if id == r.calls[n].id {
        } else {
          var i :| 0 <= i < n && l.calls[i].id == id;
          assert r.calls[i].id == id;
        }
      }
    }
  }

  lemma SettleKeepsRows(l: Lane, i: nat, outcome: Outcome)
    requires i < |l.calls| && LatestFor(l.calls, i) && RowsTellTheTruth(l)
    ensures RowsTellTheTruth(Answered(l, i, outcome))
  {
    var m := Answered(l, i, outcome);
    forall k | 0 <= k < |l.calls| && LatestFor(l.calls, k) ensures Shows(m.states, m.calls[k]) {
      assert k != i ==> l.calls[k].id != l.calls[i].id;
    }
    RowsFollowCalls(l, m);
  }

  lemma StepKeepsRows(l: Lane, e: Event)
    requires l.Sound() && OneAtATime(l) && RowsTellTheTruth(l)
    ensures RowsTellTheTruth(Step(l, e))
  {
    hide RowsTellTheTruth;
    match e
    case Files(files) =>
      var m := l.(queues := l.queues + [files]);
      RowsFollowCalls(l, m);
      RowsFollowCalls(m, QueueEffect(m));
      StartKeepsRows(QueueEffect(m));
    case Session(session) =>
      RowsFollowCalls(l, l.(session := session));
      StartKeepsRows(l.(session := session));
    case OnProgress(i, percent) =>
      if i < |l.calls| && l.calls[i].phase == Running {
        var m := l.(states := l.states[l.calls[i].id := Uploading(percent)]);
        RowsFollowCalls(l, m);
        StartKeepsRows(m);
      }
    case OnSettled(i, outcome) =>
      if i < |l.calls| && l.calls[i].phase == Running {
        SettleKeepsRows(l, i, outcome);
        StartKeepsRows(Answered(l, i, outcome));
      }
    case OnFinally(i) =>
      if i < |l.calls| && l.calls[i].phase.Settled? {
        RowsFollowCalls(l, Released(l, i));
        StartKeepsRows(Released(l, i));
      }
  }

  lemma {:induction false} RunTellsTheTruth(events: seq<Event>)
    ensures RowsTellTheTruth(Run(events))
  {
    if events == [] {
    } else {
      RunIsSteady(events[..|events| - 1]);
      RunTellsTheTruth(events[..|events| - 1]);
      StepKeepsRows(Run(events[..|events| - 1]), events[|events| - 1]);
    }
  }

  /** Every row shows how its latest upload stands or ended, and only uploaded files have a state. */
  lemma RowsShowTheirUploads(events: seq<Event>, i: nat)
    requires i < |Run(events).calls|
    ensures LatestFor(Run(events).calls, i) ==> Shows(Run(events).states, Run(events).calls[i])
    ensures forall id | id in Run(events).states :: exists j :: 0 <= j < |Run(events).calls| && Run(events).calls[j].id == id
  {
    RunTellsTheTruth(events);
  }

  lemma RunUnfolds(before: seq<Event>, last: Event)
    ensures Run(before + [last]) == Step(Run(before), last)
  {
    hide Step;
    assert (before + [last])[..|before + [last]| - 1] == before;
  }

  /** The last thing reported of a call: how far it is, from nothing on, or how it ended. */
  datatype Report = Percent(percent: nat) | Ended(outcome: Outcome)

  ghost function LastReport(events: seq<Event>, i: nat): Report {
    if events == [] then Percent(0)
    else
      var before, last := LastReport(events[..|events| - 1], i), events[|events| - 1];
      if i >= |Run(events[..|events| - 1]).calls| || before.Ended? then before
      else if last.OnProgress? && last.i == i then Percent(last.percent)
      else if last.OnSettled? && last.i == i then Ended(last.outcome)
      else before
  }

  /** The call stands, and its row shows, as was last reported. */
  ghost predicate AsReported(l: Lane, i: nat, report: Report)
    requires i < |l.calls|
  {
    match l.calls[i].phase
    case Running => report.Percent? && l.calls[i].id in l.states && l.states[l.calls[i].id] == Uploading(report.percent)
    case Settled(outcome, _) => report == Ended(outcome)
    case Finished(outcome, _) => report == Ended(outcome)
  }

  lemma StartKeepsReports(l: Lane, i: nat, report: Report)
    requires l.Sound() && OneAtATime(l) && i < |l.calls| && AsReported(l, i, report)
    ensures AsReported(StartEffect(l), i, report)
  {
  }

  lemma NewCallsBeginAtNothing(l: Lane, e: Event, i: nat)
    requires l.Sound() && |l.calls| <= i < |Step(l, e).calls|
    ensures AsReported(Step(l, e), i, Percent(0))
  {
    hide NextIndex;
  }

  lemma StepKeepsReports(l: Lane, e: Event, i: nat, report: Report)
    requires l.Sound() && Steady(l) && i < |l.calls| && AsReported(l, i, report)
    ensures i < |Step(l, e).calls|
    ensures AsReported(Step(l, e), i,
              if report.Ended? then report
              else if e.OnProgress? && e.i == i then Percent(e.percent)
              else if e.OnSettled? && e.i == i then Ended(e.outcome) else report)
  {
    hide StartedIsCalledFor, InLine, AbortedMeansLeft, StartEffect;
    match e
    case Files(files) =>
      var m := QueueEffect(l.(queues := l.queues + [files]));
      StartKeepsReports(m, i, report);
      StartOnlyAdds(m);
    case Session(session) =>
      StartKeepsReports(l.(session := session), i, report);
      StartOnlyAdds(l.(session := session));
    case OnProgress(j, percent) =>
      if j < |l.calls| && l.calls[j].phase == Running {
        var m := l.(states := l.states[l.calls[j].id := Uploading(percent)]);
        StartKeepsReports(m, i, if j == i then Percent(percent) else report);
        StartOnlyAdds(m);
      }
    case OnSettled(j, outcome) =>
      if j < |l.calls| && l.calls[j].phase == Running {
        StartKeepsReports(Answered(l, j, outcome), i, if j == i then Ended(outcome) else report);
        StartOnlyAdds(Answered(l, j, outcome));
      }
    case OnFinally(j) =>
      if j < |l.calls| && l.calls[j].phase.Settled? {
        StartKeepsReports(Released(l, j), i, report);
        StartOnlyAdds(Released(l, j));
      }
  }

  lemma StartOnlyAdds(l: Lane)
    requires l.Sound()
    ensures |l.calls| <= |StartEffect(l).calls|
  {
  }

  lemma StepOnlyAdds(l: Lane, e: Event)
    requires l.Sound()
    ensures |l.calls| <= |Step(l, e).calls|
  {
  }

  lemma {:induction false} NothingReportedBeforeItBegins(events: seq<Event>, i: nat)
    requires i >= |Run(events).calls|
    ensures LastReport(events, i) == Percent(0)
  {
    hide Run, Step;
    if events != [] {
      var n := |events| - 1;
      RunUnfolds(events[..n], events[n]);
      assert events == events[..n] + [events[n]];
      StepOnlyAdds(Run(events[..n]), events[n]);
      NothingReportedBeforeItBegins(events[..n], i);
    }
  }

  /** Over every run: a row being uploaded shows the percentage last reported, and an upload ends as its
      uploader first said it did. */
  lemma {:induction false} RowsShowWhatWasReported(events: seq<Event>, i: nat)
    requires i < |Run(events).calls|
    ensures AsReported(Run(events), i, LastReport(events, i))
  {
    hide Run, Step, AsReported;
    if events == [] {
      NothingBegunAtFirst();
    } else {
      var n := |events| - 1;
      var before, last := Run(events[..n]), events[n];
      assert events == events[..n] + [last];
      RunUnfolds(events[..n], last);
      if i < |before.calls| {
        RowsShowWhatWasReported(events[..n], i);
        RunIsSteady(events[..n]);
        StepKeepsReports(before, last, i, LastReport(events[..n], i));
      } else {
        NothingReportedBeforeItBegins(events[..n], i);
        NewCallsBeginAtNothing(before, last, i);
      }
    }
  }

  lemma NothingBegunAtFirst()
    ensures Run([]).calls == []
  {
  }

  /** Over every run: while a row's latest upload is the aborted one, it shows no trace of it once that
      upload is rejected. */
  lemma AbortedUploadsLeaveNoTrace(events: seq<Event>, more: seq<Event>, i: nat)
    requires i < |Run(events).calls| && Run(events).calls[i].phase == Running && Run(events).calls[i].aborted
    requires i < |Run(events + more).calls| && LatestFor(Run(events + more).calls, i)
    ensures var call := Run(events + more).calls[i];
            && call.id == Run(events).calls[i].id && (call.phase == Running ==> call.aborted)
            && (call.phase != Running ==> call.phase.removed)
            && (call.phase != Running && call.phase.outcome.Rejected? ==> call.id !in Run(events + more).states)
  {
    AbortionLasts(events, more, i);
    RunTellsTheTruth(events + more);
  }

  lemma StepKeepsAbortion(l: Lane, e: Event, i: nat)
    requires l.Sound() && i < |l.calls| && Gone(l.calls[i])
    ensures var next := Step(l, e);
            i < |next.calls| && Gone(next.calls[i]) && next.calls[i].id == l.calls[i].id
  {
  }

  /** Aborted, and if settled, aborted before. */
  predicate Gone(call: Call) {
    call.aborted && (call.phase != Running ==> call.phase.removed)
  }

  lemma RunOneMore(events: seq<Event>, more: seq<Event>)
    requires more != []
    ensures Run(events + more) == Step(Run(events + more[..|more| - 1]), more[|more| - 1])
  {
    hide Step, Run;
    var before, last := events + more[..|more| - 1], more[|more| - 1];
    assert events + more == before + [last];
    RunUnfolds(before, last);
  }

  lemma {:induction false} AbortionLasts(events: seq<Event>, more: seq<Event>, i: nat)
    requires i < |Run(events).calls| && Gone(Run(events).calls[i])
    ensures var l := Run(events + more);
            i < |l.calls| && Gone(l.calls[i]) && l.calls[i].id == Run(events).calls[i].id
  {
    hide Run, Step, Gone;
    if more == [] {
      assert events + more == events;
    } else {
      AbortionLasts(events, more[..|more| - 1], i);
      RunOneMore(events, more);
      StepKeepsAbortion(Run(events + more[..|more| - 1]), more[|more| - 1], i);
    }
  }

  /** Every upload was the next in line when it began: nothing is skipped, and nothing is uploaded
      twice while it stays queued. */
  lemma UploadsFollowTheQueue(events: seq<Event>, i: nat)
    requires i < |Run(events).calls|
    ensures NextInLine(Run(events), i)
  {
    RunIsSteady(events);
  }

  /** Nothing is uploaded without a session: a call begins only while there is one. */
  lemma CallsBeginWithASession(events: seq<Event>, e: Event)
    ensures var before, after := Run(events), Run(events + [e]);
            |before.calls| <= |after.calls| <= |before.calls| + 1
            && (|after.calls| > |before.calls| ==> after.session)
            && after.session == if e.Session? then e.session else before.session
  {
    RunUnfolds(events, e);
    hide NextIndex, Run;
  }

  /** No wake-up is lost: with a session and nothing uploading, every queued file has had its upload
      run to the end in its present stay. */
  lemma IdleLaneHasNothingToDo(events: seq<Event>, id: Id)
    requires var l := Run(events); l.session && id in l.Files()
    requires forall i :: 0 <= i < |Run(events).calls| ==> Run(events).calls[i].phase.Finished?
    ensures var l := Run(events);
            exists j :: 0 <= j < |l.calls| && l.calls[j].id == id && l.calls[j].phase.Finished?
                        && Stayed(l.queues, l.calls[j].begun, |l.queues| - 1, id)
  {
    RunIsSteady(events);
    assert id in Run(events).started;
  }

  class UploadLane {
    var queues: seq<seq<Id>>
    var session: bool
    var active: Option<nat>
    var started: set<Id>
    var states: map<Id, UploadState>
    var calls: seq<Call>

    function View(): Lane
      reads this
    {
      Lane(queues, session, active, started, states, calls)
    }

    constructor ()
      ensures View() == MOUNTED
    {
      queues, session, active, started, states, calls := [[]], false, None, {}, map[], [];
    }

    method OnFiles()
      requires View().Sound()
      modifies this
      ensures View() == QueueEffect(old(View()))
    {
      var present := queues[|queues| - 1];
      if active.Some? && calls[active.value].id !in present {
        calls := calls[active.value := calls[active.value].(aborted := true)];
      }
      var todo := started;
      ghost var was := started;
      while todo != {}
        invariant todo <= was
        invariant forall id :: id in started <==> id in was && (id in todo || id in present)
        invariant View() == old(View()).(started := started, calls := calls)
        invariant calls == QueueEffect(old(View())).calls
      {
        var id :| id in todo;
        todo := todo - {id};
        if id !in present {
          started := started - {id};
        }
      }
    }

    method StartNext()
      requires View().Sound()
      modifies this
      ensures View() == StartEffect(old(View()))
    {
      if !session || active.Some? {
        return;
      }
      var files := queues[|queues| - 1];
      var k := 0;
      while k < |files| && files[k] in started
        invariant k <= |files| && forall j :: 0 <= j < k ==> files[j] in started
      {
        k := k + 1;
      }
      if k == |files| {
        return;
      }
      started := started + {files[k]};
      active := Some(|calls|);
      calls := calls + [Call(files[k], |queues| - 1, false, Running)];
      states := states[files[k] := Uploading(0)];
    }

    /** Whatever the page reports, followed by the effects it triggers. */
    method Handle(e: Event)
      requires View().Sound()
      modifies this
      ensures View() == Step(old(View()), e)
    {
      match e {
        case Files(files) =>
          queues := queues + [files];
          OnFiles();
        case Session(now) =>
          session := now;
        case OnProgress(i, percent) =>
          if i >= |calls| || calls[i].phase != Running {
            return;
          }
          states := states[calls[i].id := Uploading(percent)];
        case OnSettled(i, outcome) =>
          if i >= |calls| || calls[i].phase != Running {
            return;
          }
          states := SettledStates(states, calls[i], outcome);
          calls := calls[i := calls[i].(phase := Settled(outcome, calls[i].aborted))];
        case OnFinally(i) =>
          if i >= |calls| || !calls[i].phase.Settled? {
            return;
          }
          calls := calls[i := calls[i].(phase := Finished(calls[i].phase.outcome, calls[i].phase.removed))];
          active := None;
      }
      StartNext();
    }
  }
}
