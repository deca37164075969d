/** The live feed behind the Room stream: the event reducers of
    apps/web/src/features/room/hooks/useRoomSocket.ts, and what they mean for the merged log. */
module RoomFeed {
  import opened Common
  import opened TransferLog

  /** Where a Transfer first appears among the live files, or the list's length. */
  function IndexOf(transfers: seq<Progress>, id: Id): (k: nat)
    ensures k <= |transfers|
    ensures k < |transfers| ==> transfers[k].transferId == id
    ensures forall j :: 0 <= j < k ==> transfers[j].transferId != id
  {
    if transfers == [] || transfers[0].transferId == id then 0 else 1 + IndexOf(transfers[1..], id)
  }

  /** Progress replaces the Transfer's entry in place; a new Transfer is appended. */
  function OnProgress(transfers: seq<Progress>, p: Progress): seq<Progress> {
    var at := IndexOf(transfers, p.transferId);
    if at == |transfers| then transfers + [p] else transfers[at := p]
  }

  predicate HasText(texts: seq<RoomText>, id: Id) {
    exists i :: 0 <= i < |texts| && texts[i].transferId == id
  }

  /** A text is appended once; a retransmit is ignored. */
  function OnText(texts: seq<RoomText>, t: RoomText): seq<RoomText> {
    if HasText(texts, t.transferId) then texts else texts + [t]
  }

  /** `Echo` is the sender's own message on its ack; `Refetch` a newer history snapshot; `Identify`
      this client's identity key. */
  datatype Event =
    | Progressed(p: Progress)
    | Incoming(transferId: Id, link: bool, content: string, author: Option<Author>)
    | Echo(transferId: Id, link: bool, content: string)
    | DeliveredNow(id: Id)
    | Identify(key: Id)
    | Refetch(history: seq<HistoryItem>)

  function After(input: Input, e: Event): Input {
    match e
    case Progressed(p) => input.(transfers := OnProgress(input.transfers, p))
    case Incoming(id, link, content, author) =>
      input.(texts := OnText(input.texts, RoomText(id, link, content, author, false)))
    case Echo(id, link, content) =>
      input.(texts := OnText(input.texts, RoomText(id, link, content, None, true)), ownIds := input.ownIds + {id})
    case DeliveredNow(id) => input.(delivered := input.delivered + {id})
    case Identify(key) => input.(selfKey := Some(key))
    case Refetch(history) => input.(history := history)
  }

  function AfterAll(input: Input, events: seq<Event>): Input
    decreases |events|
  {
    if events == [] then input else AfterAll(After(input, events[0]), events[1..])
  }

  /** What the server guarantees: a Transfer keeps its uploader, a client its identity key, and a
      later snapshot still records every Transfer, each once. */
  ghost predicate Plausible(input: Input, e: Event) {
    match e
    case Progressed(p) =>
      forall q | q in input.transfers && q.transferId == p.transferId :: SameUploader(q.author, p.author)
    case Identify(key) => input.selfKey.None? || input.selfKey == Some(key)
    case Refetch(history) =>
      && DistinctItems(history)
      && forall item | item in input.history :: exists later :: later in history && StillRecorded(item, later)
    case _ => true
  }

  ghost predicate PlausibleAll(input: Input, events: seq<Event>)
    decreases |events|
  {
    events != [] ==> Plausible(input, events[0]) && PlausibleAll(After(input, events[0]), events[1..])
  }

  /** Each live Transfer has one entry. */
  ghost predicate OneEntryEach(input: Input) {
    && (forall i, j :: 0 <= i < j < |input.transfers| ==> input.transfers[i].transferId != input.transfers[j].transferId)
    && (forall i, j :: 0 <= i < j < |input.texts| ==> input.texts[i].transferId != input.texts[j].transferId)
  }

  lemma ProgressKeepsTransfers(transfers: seq<Progress>, p: Progress, q: Progress) returns (r: Progress)
    requires q in transfers
    requires q.transferId == p.transferId ==> SameUploader(q.author, p.author)
    ensures r in OnProgress(transfers, p) && r.transferId == q.transferId && SameUploader(q.author, r.author)
  {
    var now := OnProgress(transfers, p);
    var k :| 0 <= k < |transfers| && transfers[k] == q;
    r := now[k];
  }

  lemma SameItemsAreStillRecorded(history: seq<HistoryItem>)
    ensures forall item | item in history :: exists later :: later in history && StillRecorded(item, later)
  {
    forall item | item in history ensures exists later :: later in history && StillRecorded(item, later) {
      assert StillRecorded(item, item);
    }
  }

  lemma HistoryStays(input: Input, e: Event)
    requires Plausible(input, e) && DistinctItems(input.history)
    ensures Knows(input, After(input, e)) && DistinctItems(After(input, e).history)
    ensures forall item | item in input.history ::
              exists later :: later in After(input, e).history && StillRecorded(item, later)
    ensures forall t | t in input.texts :: t in After(input, e).texts
  {
    hide OnProgress, StillRecorded, SameUploader, HasText, DistinctItems;
    if !e.Refetch? { SameItemsAreStillRecorded(input.history); }
  }

  lemma TransferStays(input: Input, e: Event, q: Progress) returns (r: Progress)
    requires Plausible(input, e) && q in input.transfers
    ensures r in After(input, e).transfers && r.transferId == q.transferId && SameUploader(q.author, r.author)
  {
    if e.Progressed? {
      hide OnProgress, SameUploader;
      r := ProgressKeepsTransfers(input.transfers, e.p, q);
    } else {
      r := q;
    }
  }

  lemma EntriesStayApart(input: Input, e: Event)
    requires OneEntryEach(input)
    ensures OneEntryEach(After(input, e))
  {
    hide IndexOf;
  }

  /** Every event makes the merge's input grow and keeps one entry per live Transfer. */
  lemma EventsGrowTheLog(input: Input, e: Event)
    requires Plausible(input, e) && DistinctItems(input.history) && OneEntryEach(input)
    ensures Grows(input, After(input, e)) && OneEntryEach(After(input, e))
  {
    hide After, StillRecorded, SameUploader, Plausible, OneEntryEach, DistinctItems, Knows;
    HistoryStays(input, e);
    EntriesStayApart(input, e);
    forall q | q in input.transfers
      ensures exists r :: r in After(input, e).transfers && r.transferId == q.transferId && SameUploader(q.author, r.author)
    {
      var r := TransferStays(input, e, q);
    }
  }

  /** Through any events, a message once in the stream stays there, and stays delivered and mine once
      it is. */
  lemma {:induction false} NoMessageRegresses(input: Input, events: seq<Event>, row: Row) returns (later: Row)
    requires PlausibleAll(input, events) && DistinctItems(input.history) && OneEntryEach(input)
    requires row in Merged(input)
    ensures later in Merged(AfterAll(input, events)) && AtLeast(row, later)
    decreases |events|
  {
    later := row;
    if events != [] {
      EventsGrowTheLog(input, events[0]);
      var next := NothingRegresses(input, After(input, events[0]), row);
      later := NoMessageRegresses(After(input, events[0]), events[1..], next);
    }
  }

  /** Progress stands in the feed: in place of the Transfer's entry, or as a new one at the end; every
      other entry stays where it is. */
  lemma ProgressIsRecorded(input: Input, p: Progress)
    requires OneEntryEach(input)
    ensures var before, after := input.transfers, After(input, Progressed(p)).transfers;
            && p in after && |before| <= |after|
            && (forall i :: 0 <= i < |before| ==> after[i] == if before[i].transferId == p.transferId then p else before[i])
            && (forall i :: |before| <= i < |after| ==> after[i] == p)
            && (|after| > |before| <==> forall q | q in before :: q.transferId != p.transferId)
  {
    var at := IndexOf(input.transfers, p.transferId);
    if at < |input.transfers| {
      assert input.transfers[at] in input.transfers;
      assert OnProgress(input.transfers, p)[at] == p;
    } else {
      assert OnProgress(input.transfers, p)[at] == p;
    }
  }

  /** A text stands in the feed once: a retransmit changes nothing, a new one goes last. An echo is this
      client's own and is remembered as sent. */
  lemma TextsAreRecorded(input: Input, id: Id, link: bool, content: string, author: Option<Author>)
    ensures var known := exists t :: t in input.texts && t.transferId == id;
            var heard, sent := After(input, Incoming(id, link, content, author)), After(input, Echo(id, link, content));
            && heard == input.(texts := heard.texts) && sent == input.(texts := sent.texts, ownIds := sent.ownIds)
            && heard.texts == (if known then input.texts else input.texts + [RoomText(id, link, content, author, false)])
            && sent.texts == (if known then input.texts else input.texts + [RoomText(id, link, content, None, true)])
            && sent.ownIds == input.ownIds + {id}
  {
    if t :| t in input.texts && t.transferId == id {
      var i :| 0 <= i < |input.texts| && input.texts[i] == t;
      assert HasText(input.texts, id);
    }
  }

  // --- News in any order -----------------------------------------------------------------

  lemma {:induction false} HistoryStaysDistinct(input: Input, events: seq<Event>)
    requires PlausibleAll(input, events) && DistinctItems(input.history)
    ensures DistinctItems(AfterAll(input, events).history)
    decreases |events|
  {
    hide DistinctItems;
    if events != [] {
      HistoryStays(input, events[0]);
      HistoryStaysDistinct(After(input, events[0]), events[1..]);
    }
  }

  lemma {:induction false} FilesStay(input: Input, events: seq<Event>, q: Progress) returns (r: Progress)
    requires PlausibleAll(input, events) && q in input.transfers
    ensures r in AfterAll(input, events).transfers && r.transferId == q.transferId && SameUploader(q.author, r.author)
    decreases |events|
  {
    hide After, Plausible;
    r := q;
    if events != [] {
      var next := TransferStays(input, events[0], q);
      r := FilesStay(After(input, events[0]), events[1..], next);
    }
  }

  lemma {:induction false} HeardFilesStay(input: Input, events: seq<Event>, p: Progress) returns (r: Progress)
    requires PlausibleAll(input, events) && Progressed(p) in events
    ensures r in AfterAll(input, events).transfers && r.transferId == p.transferId && SameUploader(p.author, r.author)
    decreases |events|
  {
    var next := After(input, events[0]);
    if events[0] == Progressed(p) {
      assert OnProgress(input.transfers, p)[IndexOf(input.transfers, p.transferId)] == p;
      r := FilesStay(next, events[1..], p);
    } else {
      assert Progressed(p) in events[1..];
      r := HeardFilesStay(next, events[1..], p);
    }
  }

  /** What is known to be delivered is what was, and what has been announced since. */
  lemma {:induction false} DeliveredIsWhatWasAnnounced(input: Input, events: seq<Event>, id: Id)
    ensures id in AfterAll(input, events).delivered <==> id in input.delivered || DeliveredNow(id) in events
    decreases |events|
  {
    if events != [] {
      assert events == [events[0]] + events[1..];
      DeliveredIsWhatWasAnnounced(After(input, events[0]), events[1..], id);
    }
  }

  lemma {:induction false} TheKeyStays(input: Input, events: seq<Event>, key: Id)
    requires PlausibleAll(input, events) && (input.selfKey == Some(key) || Identify(key) in events)
    ensures AfterAll(input, events).selfKey == Some(key)
    decreases |events|
  {
    if events != [] {
      assert events == [events[0]] + events[1..];
      TheKeyStays(After(input, events[0]), events[1..], key);
    }
  }

  lemma SameUploaderCarriesTheKey(a: Option<Author>, b: Option<Author>, key: Option<Id>)
    requires SameUploader(a, b) && CarriesKey(a, key)
    ensures CarriesKey(b, key)
  {
    assert key == Some(b.value.identity.value.key);
  }

  /** News of a file, of its delivery and of who this client is may come in any order: once all came,
      the row of the file is delivered, and mine if it was uploaded under this client's key. */
  lemma NewsComesInAnyOrder(input: Input, events: seq<Event>, p: Progress, row: Row)
    requires PlausibleAll(input, events) && DistinctItems(input.history) && Progressed(p) in events
    requires row in Merged(AfterAll(input, events)) && row.id == p.transferId
    ensures DeliveredNow(p.transferId) in events ==> row.status.Delivered?
    ensures forall key :: Identify(key) in events && CarriesKey(p.author, Some(key)) ==> row.mine
  {
    var later := AfterAll(input, events);
    HistoryStaysDistinct(input, events);
    RowsSayWhatTheSourcesSay(later, row);
    var q := HeardFilesStay(input, events, p);
    DeliveredIsWhatWasAnnounced(input, events, p.transferId);
    hide AfterAll, Merged, PlausibleAll, CarriesKey, SameUploader, DistinctItems;
    forall key | Identify(key) in events && CarriesKey(p.author, Some(key)) ensures row.mine {
      TheKeyStays(input, events, key);
      SameUploaderCarriesTheKey(p.author, q.author, Some(key));
    }
  }
}
