/** Delivery receipts: the server announces a finished download at most once
    (apps/api/src/transfer/transfer-delivery.service.ts), and the client flashes each one exactly
    once (apps/web/src/features/room/hooks/useDeliveryFlash.ts). */
module Delivery {
  import opened Common

  /** `rows` are the Transfers with a Delivery row, `awaiting` the calls between their row and their
      announcement, `announced` the events sent. `won` observes the calls whose insert succeeded. */
  datatype Server = Server(rows: set<Id>, awaiting: multiset<Id>, announced: seq<Id>, won: set<Id>)

  datatype ServerStep =
    | Insert(transfer: Id, verdict: Verdict)
    | Announce(transfer: Id)

  /** The insert violates the unique column when the row exists; that ends the call quietly, and
      any other failure ends it with an error. */
  function InsertRow(s: Server, transfer: Id, verdict: Verdict): Server {
    if transfer in s.rows || verdict.Refused? then s
    else if verdict.Reported() then
      Server(s.rows + {transfer}, s.awaiting + multiset{transfer}, s.announced, s.won + {transfer})
    else s.(rows := s.rows + {transfer})
  }

  function AnnounceRow(s: Server, transfer: Id): Server {
    if transfer in s.awaiting
    then s.(awaiting := s.awaiting - multiset{transfer}, announced := s.announced + [transfer]) else s
  }

  function ServeStep(s: Server, step: ServerStep): Server {
    match step
    case Insert(transfer, verdict) => InsertRow(s, transfer, verdict)
    case Announce(transfer) => AnnounceRow(s, transfer)
  }

  function Serve(steps: seq<ServerStep>): Server {
    if steps == [] then Server({}, multiset{}, [], {})
    else ServeStep(Serve(steps[..|steps| - 1]), steps[|steps| - 1])
  }

  ghost predicate Balanced(s: Server, id: Id) {
    && s.won <= s.rows
    && multiset(s.announced)[id] + s.awaiting[id] == if id in s.won then 1 else 0
  }

  lemma StepKeepsBalance(s: Server, step: ServerStep, id: Id)
    requires Balanced(s, id)
    ensures Balanced(ServeStep(s, step), id)
  {
  }

  lemma {:induction false} EachWinnerIsAwaitingOrAnnounced(steps: seq<ServerStep>, id: Id)
    ensures Balanced(Serve(steps), id)
  {
    if steps != [] {
      EachWinnerIsAwaitingOrAnnounced(steps[..|steps| - 1], id);
      StepKeepsBalance(Serve(steps[..|steps| - 1]), steps[|steps| - 1], id);
    }
  }

  /** Step k inserts a row for `id` that takes effect unless the row is there already. */
  ghost predicate Inserts(steps: seq<ServerStep>, id: Id, k: nat) {
    k < |steps| && steps[k].Insert? && steps[k].transfer == id && steps[k].verdict.TookEffect()
  }

  ghost predicate FirstInsert(steps: seq<ServerStep>, id: Id, k: nat) {
    Inserts(steps, id, k) && forall j: nat :: j < k ==> !Inserts(steps, id, j)
  }

  ghost predicate FirstIsAnswered(steps: seq<ServerStep>, id: Id) {
    exists k: nat :: FirstInsert(steps, id, k) && steps[k].verdict == Done
  }

  ghost predicate SomeInsert(steps: seq<ServerStep>, id: Id) {
    exists k: nat :: Inserts(steps, id, k)
  }

  lemma InsertsOfPrefix(steps: seq<ServerStep>, id: Id, n: nat, k: nat)
    requires k < n <= |steps|
    ensures Inserts(steps[..n], id, k) <==> Inserts(steps, id, k)
    ensures FirstInsert(steps[..n], id, k) <==> FirstInsert(steps, id, k)
  {
    forall j: nat | j < n ensures Inserts(steps[..n], id, j) <==> Inserts(steps, id, j) {}
  }

  /** A later step decides only if no insert took effect before it. */
  lemma LastStepDecidesOrNot(steps: seq<ServerStep>, id: Id)
    requires steps != []
    ensures var n := |steps| - 1;
            FirstIsAnswered(steps, id) <==>
              if SomeInsert(steps[..n], id) then FirstIsAnswered(steps[..n], id)
              else Inserts(steps, id, n) && steps[n].verdict == Done
  {
    var n := |steps| - 1;
    forall k: nat | k < n
      ensures Inserts(steps[..n], id, k) <==> Inserts(steps, id, k)
      ensures FirstInsert(steps[..n], id, k) <==> FirstInsert(steps, id, k)
    {
      InsertsOfPrefix(steps, id, n, k);
    }
    if SomeInsert(steps[..n], id) {
      var k: nat :| Inserts(steps[..n], id, k);
      assert Inserts(steps, id, k) && !FirstInsert(steps, id, n);
      if w: nat :| FirstInsert(steps[..n], id, w) && steps[..n][w].verdict == Done {
        assert FirstInsert(steps, id, w) && steps[w].verdict == Done;
      }
      if w: nat :| FirstInsert(steps, id, w) && steps[w].verdict == Done {
        assert FirstInsert(steps[..n], id, w) && steps[..n][w].verdict == Done;
      }
    } else {
      assert Inserts(steps, id, n) ==> FirstInsert(steps, id, n);
    }
  }

  lemma SomeInsertGrows(steps: seq<ServerStep>, id: Id)
    requires steps != []
    ensures SomeInsert(steps, id) <==> SomeInsert(steps[..|steps| - 1], id) || Inserts(steps, id, |steps| - 1)
  {
    var n := |steps| - 1;
    if k: nat :| Inserts(steps, id, k) && k < n { InsertsOfPrefix(steps, id, n, k); }
    if k: nat :| Inserts(steps[..n], id, k) { InsertsOfPrefix(steps, id, n, k); }
  }

  lemma RowsAndWinnersGrow(s: Server, step: ServerStep, id: Id)
    requires s.won <= s.rows
    ensures var makes := step.Insert? && step.transfer == id && step.verdict.TookEffect();
            var next := ServeStep(s, step);
            && (id in next.rows <==> id in s.rows || makes)
            && (id in next.won <==> if id in s.rows then id in s.won else makes && step.verdict == Done)
  {
  }

  /** Of all the inserts of a run the first to take effect makes the row, and it alone wins, if it is
      answered. */
  lemma {:induction false} FirstAnsweredInsertWins(steps: seq<ServerStep>, id: Id)
    ensures id in Serve(steps).rows <==> SomeInsert(steps, id)
    ensures id in Serve(steps).won <==> FirstIsAnswered(steps, id)
  {
    if steps != [] {
      var n := |steps| - 1;
      FirstAnsweredInsertWins(steps[..n], id);
      EachWinnerIsAwaitingOrAnnounced(steps[..n], id);
      LastStepDecidesOrNot(steps, id);
      SomeInsertGrows(steps, id);
      hide FirstIsAnswered, SomeInsert, ServeStep;
      RowsAndWinnersGrow(Serve(steps[..n]), steps[n], id);
    }
  }

  /** However many downloads of a Transfer finish, in whatever interleaving, it is announced at most
      once; with no call in flight, exactly once if the first insert to take effect was answered, and
      never otherwise. */
  lemma AnnouncedAtMostOnce(steps: seq<ServerStep>, id: Id)
    ensures multiset(Serve(steps).announced)[id] <= 1
    ensures id !in Serve(steps).awaiting ==>
              (id in Serve(steps).announced <==> FirstIsAnswered(steps, id))
  {
    FirstAnsweredInsertWins(steps, id);
    EachWinnerIsAwaitingOrAnnounced(steps, id);
    assert id in Serve(steps).announced <==> id in multiset(Serve(steps).announced);
  }

  class TransferDeliveryService {
    var rows: set<Id>
    var announced: seq<Id>

    constructor ()
      ensures rows == {} && announced == []
    {
      rows, announced := {}, [];
    }

    /** One call run without interruption; false is the error thrown to the caller. */
    method ConfirmDelivered(transfer: Id, verdict: Verdict) returns (ok: bool)
      modifies this
      ensures var before := Server(old(rows), multiset{}, old(announced), {});
              var after := AnnounceRow(InsertRow(before, transfer, verdict), transfer);
              rows == after.rows && announced == after.announced
      ensures ok <==> transfer in old(rows) || verdict.Reported()
    {
      if transfer in rows {
        return true;
      }
      if verdict.TookEffect() {
        rows := rows + {transfer};
      }
      if !verdict.Reported() {
        return false;
      }
      announced := announced + [transfer];
      return true;
    }
  }

  datatype FlashItem = FlashItem(transferId: Id, fileName: Option<string>)

  /** `seen` is None until the first effect; `shown` is every item that was ever current. */
  datatype Flash = Flash(seen: Option<set<Id>>, queue: seq<FlashItem>, current: Option<FlashItem>, shown: seq<FlashItem>)

  function Item(id: Id, names: map<Id, string>): FlashItem {
    FlashItem(id, if id in names then Some(names[id]) else None)
  }

  function IdsOf(ids: seq<Id>): set<Id> {
    set id | id in ids
  }

  /** The ids of `delivered`, in its insertion order, not seen before it. */
  function Unseen(delivered: seq<Id>, seen: set<Id>): seq<Id> {
    if delivered == [] then []
    else
      var init, last := delivered[..|delivered| - 1], delivered[|delivered| - 1];
      Unseen(init, seen) + if last in seen || last in init then [] else [last]
  }

  function Items(ids: seq<Id>, names: map<Id, string>): (items: seq<FlashItem>)
    ensures |items| == |ids| && forall i :: 0 <= i < |ids| ==> items[i] == Item(ids[i], names)
  {
    seq(|ids|, i requires 0 <= i < |ids| => Item(ids[i], names))
  }

  lemma UnseenStep(delivered: seq<Id>, i: nat, seen: set<Id>, names: map<Id, string>)
    requires i < |delivered|
    ensures Items(Unseen(delivered[..0], seen), names) == []
    ensures Items(Unseen(delivered[..i + 1], seen), names)
            == Items(Unseen(delivered[..i], seen), names)
               + if delivered[i] in seen + IdsOf(delivered[..i]) then [] else [Item(delivered[i], names)]
    ensures IdsOf(delivered[..0]) == {} && IdsOf(delivered[..i + 1]) == IdsOf(delivered[..i]) + {delivered[i]}
  {
    assert delivered[..i + 1] == delivered[..i] + [delivered[i]];
    assert delivered[..i + 1][..i] == delivered[..i];
  }

  /** setCurrent to the head of the queue, or to nothing. */
  function ShowNext(f: Flash): Flash {
    if f.queue == [] then f.(current := None)
    else f.(current := Some(f.queue[0]), queue := f.queue[1..], shown := f.shown + [f.queue[0]])
  }

  /** The effect on `[delivered]`. */
  function DeliveredEffect(f: Flash, delivered: seq<Id>, names: map<Id, string>): Flash {
    if f.seen.None? then f.(seen := Some(IdsOf(delivered)))
    else
      var queued := f.(seen := Some(f.seen.value + IdsOf(delivered)),
                       queue := f.queue + Items(Unseen(delivered, f.seen.value), names));
      if queued.current.Some? then queued else ShowNext(queued)
  }

  /** The display timer of the current item. */
  function DisplayOver(f: Flash): Flash {
    if f.current.None? then f else ShowNext(f)
  }

  class DeliveryFlash {
    var seen: Option<set<Id>>
    var queue: seq<FlashItem>
    var current: Option<FlashItem>
    var shown: seq<FlashItem>

    function View(): Flash
      reads this
    {
      Flash(seen, queue, current, shown)
    }

    constructor ()
      ensures View() == Flash(None, [], None, [])
    {
      seen, queue, current, shown := None, [], None, [];
    }

    method Shift()
      modifies this
      ensures View() == ShowNext(old(View()))
    {
      if queue == [] {
        current := None;
      } else {
        current := Some(queue[0]);
        shown := shown + [queue[0]];
        queue := queue[1..];
      }
    }

    method OnDeliveredChanged(delivered: seq<Id>, names: map<Id, string>)
      modifies this
      ensures View() == DeliveredEffect(old(View()), delivered, names)
    {
      if seen.None? {
        seen := Some(IdsOf(delivered));
        return;
      }
      hide Unseen, Items, IdsOf;
      var mark := seen.value;
      for i := 0 to |delivered|
        invariant mark == old(seen).value + IdsOf(delivered[..i])
        invariant View() == old(View()).(queue := queue)
        invariant queue == old(queue) + Items(Unseen(delivered[..i], old(seen).value), names)
      {
        var id := delivered[i];
        UnseenStep(delivered, i, old(seen).value, names);
        if id in mark {
          continue;
        }
        mark := mark + {id};
        queue := queue + [Item(id, names)];
      }
      assert delivered[..|delivered|] == delivered;
      seen := Some(mark);
      if current.None? {
        Shift();
      }
    }

    method OnDisplayTimeout()
      modifies this
      ensures View() == DisplayOver(old(View()))
    {
      if current.Some? {
        Shift();
      }
    }
  }

  /** `delivered` is the socket state's Set in insertion order; the effects see it only when the page
      renders. `rendered` observes how much of it the last effect saw. */
  datatype Page = Page(delivered: seq<Id>, rendered: nat, flash: Flash)

  datatype PageStep = Receive(id: Id) | Render(names: map<Id, string>) | DisplayTimeout

  function OnDelivered(delivered: seq<Id>, id: Id): seq<Id> {
    if id in delivered then delivered else delivered + [id]
  }

  function PageNext(p: Page, step: PageStep): Page {
    match step
    case Receive(id) => p.(delivered := OnDelivered(p.delivered, id))
    case Render(names) => Page(p.delivered, |p.delivered|, DeliveredEffect(p.flash, p.delivered, names))
    case DisplayTimeout => p.(flash := DisplayOver(p.flash))
  }

  /** A page that mounts with `mounted` already delivered. */
  function Live(mounted: seq<Id>, steps: seq<PageStep>): Page {
    if steps == [] then Page(mounted, |mounted|, DeliveredEffect(Flash(None, [], None, []), mounted, map[]))
    else PageNext(Live(mounted, steps[..|steps| - 1]), steps[|steps| - 1])
  }

  ghost predicate Flashes(items: seq<FlashItem>, ids: seq<Id>) {
    |items| == |ids| && forall i :: 0 <= i < |ids| ==> items[i].transferId == ids[i]
  }

  ghost predicate PageOk(mounted: seq<Id>, p: Page) {
    && Distinct(p.delivered)
    && mounted <= p.delivered
    && |mounted| <= p.rendered <= |p.delivered|
    && p.flash.seen == Some(IdsOf(p.delivered[..p.rendered]))
    && Flashes(p.flash.shown + p.flash.queue, p.delivered[|mounted|..p.rendered])
    && (p.flash.current.None? ==> p.flash.queue == [])
    && ShowsTheLast(p.flash)
  }

  /** What shows is the last item shown. */
  ghost predicate ShowsTheLast(f: Flash) {
    f.current.Some? ==> f.shown != [] && f.current.value == f.shown[|f.shown| - 1]
  }

  lemma {:induction false} UnseenIsTheSuffix(delivered: seq<Id>, k: nat)
    requires Distinct(delivered) && k <= |delivered|
    ensures Unseen(delivered, IdsOf(delivered[..k])) == delivered[k..]
  {
    var seen := IdsOf(delivered[..k]);
    if k == |delivered| {
      NothingUnseen(delivered, seen);
    } else {
      var init, last := delivered[..|delivered| - 1], delivered[|delivered| - 1];
      assert init[..k] == delivered[..k];
      UnseenIsTheSuffix(init, k);
      assert last !in delivered[..k] && last !in init;
      assert delivered[k..] == init[k..] + [last];
    }
  }

  lemma {:induction false} NothingUnseen(delivered: seq<Id>, seen: set<Id>)
    requires forall id | id in delivered :: id in seen
    ensures Unseen(delivered, seen) == []
  {
    if delivered != [] { NothingUnseen(delivered[..|delivered| - 1], seen); }
  }

  lemma ShowNextKeepsOrder(f: Flash)
    ensures ShowNext(f).shown + ShowNext(f).queue == f.shown + f.queue
  {
  }

  lemma EffectQueuesTheRest(f: Flash, delivered: seq<Id>, k: nat, names: map<Id, string>)
    requires Distinct(delivered) && k <= |delivered| && f.seen == Some(IdsOf(delivered[..k]))
    ensures var g := DeliveredEffect(f, delivered, names);
            && g.seen == Some(IdsOf(delivered))
            && g.shown + g.queue == f.shown + f.queue + Items(delivered[k..], names)
            && (g.current.None? ==> g.queue == [])
            && (ShowsTheLast(f) ==> ShowsTheLast(g))
  {
    UnseenIsTheSuffix(delivered, k);
    assert delivered[..k] + delivered[k..] == delivered;
    assert IdsOf(delivered[..k]) + IdsOf(delivered) == IdsOf(delivered);
    hide IdsOf, Unseen, Items;
    var added := Items(delivered[k..], names);
    assert f.shown + (f.queue + added) == f.shown + f.queue + added;
    ShowNextKeepsOrder(f.(seen := Some(f.seen.value + IdsOf(delivered)), queue := f.queue + added));
  }

  lemma FlashesGrow(items: seq<FlashItem>, ids: seq<Id>, more: seq<Id>, names: map<Id, string>)
    requires Flashes(items, ids)
    ensures Flashes(items + Items(more, names), ids + more)
  {
  }

  lemma RenderKeepsPageOk(mounted: seq<Id>, p: Page, names: map<Id, string>)
    requires PageOk(mounted, p)
    ensures PageOk(mounted, PageNext(p, Render(names)))
  {
    hide DeliveredEffect, Flashes, Items, ShowsTheLast;
    EffectQueuesTheRest(p.flash, p.delivered, p.rendered, names);
    FlashesGrow(p.flash.shown + p.flash.queue, p.delivered[|mounted|..p.rendered], p.delivered[p.rendered..], names);
    assert p.delivered[|mounted|..|p.delivered|] == p.delivered[|mounted|..p.rendered] + p.delivered[p.rendered..];
    assert p.delivered[..|p.delivered|] == p.delivered;
  }

  lemma {:induction false} LiveIsOk(mounted: seq<Id>, steps: seq<PageStep>)
    requires Distinct(mounted)
    ensures PageOk(mounted, Live(mounted, steps))
  {
    if steps == [] {
      assert mounted[..|mounted|] == mounted;
    } else {
      var p := Live(mounted, steps[..|steps| - 1]);
      LiveIsOk(mounted, steps[..|steps| - 1]);
      match steps[|steps| - 1]
      case Receive(id) =>
        var q := OnDelivered(p.delivered, id);
        assert q[..p.rendered] == p.delivered[..p.rendered];
        assert q[|mounted|..p.rendered] == p.delivered[|mounted|..p.rendered];
      case Render(names) => RenderKeepsPageOk(mounted, p, names);
      case DisplayTimeout => ShowNextKeepsOrder(p.flash);
    }
  }

  /** Flashed so far and still queued are, in order, exactly the Transfers delivered since mounting,
      each once; nothing waits while nothing shows. */
  lemma EachDeliveryFlashesOnceInOrder(mounted: seq<Id>, steps: seq<PageStep>)
    requires Distinct(mounted)
    ensures var p := Live(mounted, steps);
            && Distinct(p.delivered) && mounted <= p.delivered && |mounted| <= p.rendered <= |p.delivered|
            && Flashes(p.flash.shown + p.flash.queue, p.delivered[|mounted|..p.rendered])
            && (p.flash.current.None? ==> Flashes(p.flash.shown, p.delivered[|mounted|..p.rendered]))
            && (p.flash.current.Some? ==> p.flash.shown != [] && p.flash.current.value == p.flash.shown[|p.flash.shown| - 1])
  {
    LiveIsOk(mounted, steps);
    var p := Live(mounted, steps);
    if p.flash.current.None? {
      assert p.flash.shown + p.flash.queue == p.flash.shown;
    }
  }

  /** What a render queues carries the file name known at that moment, or none; nothing else about the
      items shown or queued ever changes. */
  lemma NamesAreThoseKnownAtTheRender(mounted: seq<Id>, steps: seq<PageStep>, step: PageStep)
    requires Distinct(mounted)
    ensures var p, q := Live(mounted, steps), PageNext(Live(mounted, steps), step);
            var all, now := p.flash.shown + p.flash.queue, q.flash.shown + q.flash.queue;
            && all <= now && p.rendered <= |p.delivered|
            && (!step.Render? ==> now == all)
            && (step.Render? ==>
                  && |now| - |all| == |p.delivered| - p.rendered
                  && forall i :: p.rendered <= i < |p.delivered| ==>
                       var id := p.delivered[i];
                       now[|all| + i - p.rendered] == FlashItem(id, if id in step.names then Some(step.names[id]) else None))
  {
    hide Live, DeliveredEffect, Flashes, Unseen, ShowNext, IdsOf, ShowsTheLast;
    LiveIsOk(mounted, steps);
    var p := Live(mounted, steps);
    match step
    case Render(names) =>
      EffectQueuesTheRest(p.flash, p.delivered, p.rendered, names);
    case DisplayTimeout => ShowNextKeepsOrder(p.flash);
    case Receive(_) =>
  }

  function Timeouts(n: nat): seq<PageStep> {
    if n == 0 then [] else Timeouts(n - 1) + [DisplayTimeout]
  }

  lemma {:induction false} TimeoutsDrainTheQueue(mounted: seq<Id>, steps: seq<PageStep>, n: nat)
    requires Distinct(mounted)
    requires n <= |Live(mounted, steps).flash.queue|
    ensures var p, q := Live(mounted, steps), Live(mounted, steps + Timeouts(n));
            && q.rendered == p.rendered && q.delivered == p.delivered
            && q.flash.queue == p.flash.queue[n..]
            && q.flash.shown == p.flash.shown + p.flash.queue[..n]
            && (p.flash.current.Some? ==> q.flash.current.Some?)
  {
    if n == 0 {
      assert steps + Timeouts(0) == steps;
    } else {
      TimeoutsDrainTheQueue(mounted, steps, n - 1);
      LiveIsOk(mounted, steps);
      OneMoreTimeout(mounted, steps, n);
      var f := Live(mounted, steps).flash;
      hide Live, PageOk;
      assert f.queue[..n] == f.queue[..n - 1] + [f.queue[n - 1]];
      assert f.queue[n - 1..][1..] == f.queue[n..];
    }
  }

  lemma OneMoreTimeout(mounted: seq<Id>, steps: seq<PageStep>, n: nat)
    requires n > 0
    ensures Live(mounted, steps + Timeouts(n)) == PageNext(Live(mounted, steps + Timeouts(n - 1)), DisplayTimeout)
  {
    var before, all := steps + Timeouts(n - 1), steps + Timeouts(n);
    assert all == before + [DisplayTimeout];
    assert all[..|all| - 1] == before;
  }

  /** Once no more deliveries come, every one of them has been shown after as many display timeouts
      as items were queued. */
  lemma EveryDeliveryIsShown(mounted: seq<Id>, steps: seq<PageStep>)
    requires Distinct(mounted)
    ensures var p := Live(mounted, steps);
            && |mounted| <= p.rendered <= |p.delivered|
            && Flashes(Live(mounted, steps + Timeouts(|p.flash.queue|)).flash.shown, p.delivered[|mounted|..p.rendered])
  {
    var p := Live(mounted, steps);
    TimeoutsDrainTheQueue(mounted, steps, |p.flash.queue|);
    LiveIsOk(mounted, steps);
    assert p.flash.queue[..|p.flash.queue|] == p.flash.queue;
  }
}
