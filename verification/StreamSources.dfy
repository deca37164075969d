/** What the rows of the Room stream (apps/web/src/features/room/utils/transfer-log.ts) show, said of
    what came in: the history, the live files and the live texts. */
module StreamSources {
  import opened Common
  import opened TransferLog

  /** A history item with something to show. */
  predicate Readable(item: HistoryItem) {
    item.kind.File? || item.content.Some?
  }

  ghost predicate LatestItem(history: seq<HistoryItem>, id: Id, k: nat) {
    && k < |history| && history[k].id == id && Readable(history[k])
    && forall j :: k < j < |history| && history[j].id == id ==> !Readable(history[j])
  }

  ghost predicate LatestFile(transfers: seq<Progress>, id: Id, k: nat) {
    && k < |transfers| && transfers[k].transferId == id
    && forall j :: k < j < |transfers| ==> transfers[j].transferId != id
  }

  ghost predicate LatestText(texts: seq<RoomText>, id: Id, k: nat) {
    && k < |texts| && texts[k].transferId == id
    && forall j :: k < j < |texts| ==> texts[j].transferId != id
  }

  ghost predicate NoItem(history: seq<HistoryItem>, id: Id) {
    forall j :: 0 <= j < |history| && history[j].id == id ==> !Readable(history[j])
  }

  ghost predicate NoFile(transfers: seq<Progress>, id: Id) {
    forall j :: 0 <= j < |transfers| ==> transfers[j].transferId != id
  }

  ghost predicate NoText(texts: seq<RoomText>, id: Id) {
    forall j :: 0 <= j < |texts| ==> texts[j].transferId != id
  }

  // --- What a row shows ------------------------------------------------------------------

  /** A file under the given name, of the given size, with its download link; its uploader is named
      unless it is this client. */
  ghost predicate ShowsFile(row: Row, name: string, size: Option<nat>, author: Option<Author>, input: Input) {
    && row.kind == File && row.name == name && row.content == None && row.sizeBytes == size
    && row.href == input.href(row.id, name)
    && if CarriesKey(author, input.selfKey) then row.author == None else Renamed(author, row.author, input.overrides)
  }

  /** A text: a link by itself, a snippet by its words. */
  ghost predicate ShowsText(row: Row, link: bool, content: string, author: Option<Author>, input: Input) {
    && row.kind == (if link then Link else Snippet) && row.content == Some(content) && row.sizeBytes == None
    && row.name == (if link then content else Joined(Words(content)))
    && row.href == (if link then Some(content) else None)
    && Renamed(author, row.author, input.overrides)
  }

  ghost predicate ShowsItem(row: Row, item: HistoryItem, input: Input) {
    if item.kind.File? then
      ShowsFile(row, if item.fileName.Some? then item.fileName.value else "File", item.fileSizeBytes, item.author, input)
    else item.content.Some? && ShowsText(row, item.kind.Link?, item.content.value, item.author, input)
  }

  /** What the last word about a Transfer was: its latest live text, else its latest live file, else its
      latest readable record. */
  datatype Source = TextAt(k: nat) | FileAt(k: nat) | ItemAt(k: nat)

  ghost predicate IsLatest(source: Source, input: Input, id: Id) {
    match source
    case TextAt(k) => LatestText(input.texts, id, k)
    case FileAt(k) => NoText(input.texts, id) && LatestFile(input.transfers, id, k)
    case ItemAt(k) => NoText(input.texts, id) && NoFile(input.transfers, id) && LatestItem(input.history, id, k)
  }

  ghost predicate Shows(row: Row, source: Source, input: Input) {
    match source
    case TextAt(k) =>
      k < |input.texts| && ShowsText(row, input.texts[k].link, input.texts[k].content, input.texts[k].author, input)
    case FileAt(k) =>
      k < |input.transfers| && ShowsFile(row, input.transfers[k].fileName, Some(input.transfers[k].fileSizeBytes),
                                         input.transfers[k].author, input)
    case ItemAt(k) => k < |input.history| && ShowsItem(row, input.history[k], input)
  }

  // --- From rows back to their sources ---------------------------------------------------

  lemma {:induction false} LastOf(rows: seq<Row>, id: Id) returns (k: nat)
    ensures if Of(rows, id) == [] then forall j :: 0 <= j < |rows| ==> rows[j].id != id
            else && k < |rows| && rows[k].id == id && rows[k] == Of(rows, id)[|Of(rows, id)| - 1]
                 && forall j :: k < j < |rows| ==> rows[j].id != id
  {
    k := 0;
    if rows != [] {
      var n := |rows| - 1;
      k := LastOf(rows[..n], id);
      if rows[n].id == id { k := n; }
    }
  }

  lemma NextStored(history: seq<HistoryItem>, n: nat, input: Input, id: Id)
    requires |history| == n + 1
    ensures var last := history[n];
            var before := Of(Persisted(history[..n], input), id);
            && (HistoryRow(last, input).Some? <==> Readable(last))
            && Of(Persisted(history, input), id)
               == before + if Readable(last) && last.id == id then [HistoryRow(last, input).value] else []
  {
    var last := history[n];
    HistoryRowSays(last, input);
    HistoryRowKeepsId(last, input);
    hide HistoryRow;
    var before := Persisted(history[..n], input);
    if Readable(last) {
      var row := HistoryRow(last, input).value;
      assert (before + [row])[..|before|] == before;
      assert Persisted(history, input) == before + [row];
    } else {
      assert Persisted(history, input) == before;
    }
  }

  lemma {:induction false} LastPersisted(history: seq<HistoryItem>, input: Input, id: Id) returns (k: nat)
    ensures var stored := Of(Persisted(history, input), id);
            if stored == [] then NoItem(history, id)
            else LatestItem(history, id, k) && HistoryRow(history[k], input) == Some(stored[|stored| - 1])
  {
    hide HistoryRow, Readable;
    k := 0;
    if history != [] {
      var n := |history| - 1;
      k := LastPersisted(history[..n], input, id);
      NextStored(history, n, input, id);
      hide Persisted, Of;
      if history[n].id == id && Readable(history[n]) { k := n; }
    }
  }

  lemma LatestItemIsOne(history: seq<HistoryItem>, id: Id, i: nat, k: nat)
    requires LatestItem(history, id, i) && LatestItem(history, id, k)
    ensures i == k
  {
  }

  /** All of a row that says what the message is. */
  ghost predicate SamePayload(row: Row, shown: Row, overrides: map<Id, Identity>) {
    && shown.id == row.id && shown.kind == row.kind && shown.name == row.name && shown.content == row.content
    && shown.sizeBytes == row.sizeBytes && shown.href == row.href && Renamed(row.author, shown.author, overrides)
  }

  lemma LiveTextShows(t: RoomText, input: Input, row: Row)
    requires SamePayload(LiveTextRow(t, input), row, input.overrides)
    ensures ShowsText(row, t.link, t.content, t.author, input)
  {
    PreviewIsOneLine(t.content);
    hide SnippetPreview, Joined, Words, Renamed, NoSpaceRuns, Ink;
  }

  lemma LiveFileShows(p: Progress, input: Input, row: Row)
    requires SamePayload(LiveFileRow(p, input), row, input.overrides)
    ensures ShowsFile(row, p.fileName, Some(p.fileSizeBytes), p.author, input)
  {
    OwnFilesCarryTheKey(p.author, input.selfKey);
    hide CarriesKey, IsOwnFile;
  }

  lemma HistoryItemShows(item: HistoryItem, input: Input, row: Row)
    requires HistoryRow(item, input).Some? && SamePayload(HistoryRow(item, input).value, row, input.overrides)
    ensures ShowsItem(row, item, input)
  {
    OwnFilesCarryTheKey(item.author, input.selfKey);
    if item.content.Some? { PreviewIsOneLine(item.content.value); }
    hide CarriesKey, IsOwnFile, SnippetPreview, Joined, Words, NoSpaceRuns, Ink;
  }

  lemma MergedPayload(input: Input, row: Row)
    requires row in Merged(input)
    ensures var mentions := Mentions(Persisted(input.history, input), Live(input), row.id);
            && mentions != []
            && SamePayload(mentions[|mentions| - 1], row, input.overrides)
            && row.receivedAt == mentions[0].receivedAt
  {
    MergeIsExactlyTheStream(input, Ordered(input));
    hide Ordered, Mentions, Persisted, Live, AnyDelivered, AnyMine, InOrder, Merged, Renamed;
    var i :| 0 <= i < |Merged(input)| && Merged(input)[i] == row;
    assert Ordered(input)[i] in Ordered(input);
  }

  /** Where a live row comes from. */
  lemma LiveSource(input: Input, id: Id, k: nat) returns (source: Source)
    requires k < |Live(input)| && Live(input)[k].id == id
    requires forall j :: k < j < |Live(input)| ==> Live(input)[j].id != id
    ensures IsLatest(source, input, id)
    ensures match source
            case TextAt(t) => t < |input.texts| && Live(input)[k] == LiveTextRow(input.texts[t], input)
            case FileAt(f) => f < |input.transfers| && Live(input)[k] == LiveFileRow(input.transfers[f], input)
            case ItemAt(_) => false
  {
    hide Live, IsOwnFile, SnippetPreview;
    LiveRows(input);
    var n := |input.transfers|;
    if k >= n {
      source := TextAt(k - n);
      forall j | k - n < j < |input.texts| ensures input.texts[j].transferId != id {
        assert Live(input)[n + j].id != id;
      }
    } else {
      source := FileAt(k);
      forall j | 0 <= j < |input.texts| ensures input.texts[j].transferId != id {
        assert Live(input)[n + j].id != id;
      }
      forall j | k < j < n ensures input.transfers[j].transferId != id {
        assert Live(input)[j].id != id;
      }
    }
  }

  lemma NothingLive(input: Input, id: Id)
    requires forall j :: 0 <= j < |Live(input)| ==> Live(input)[j].id != id
    ensures NoText(input.texts, id) && NoFile(input.transfers, id)
  {
    hide Live, IsOwnFile, SnippetPreview;
    LiveRows(input);
    var n := |input.transfers|;
    forall j | 0 <= j < |input.texts| ensures input.texts[j].transferId != id {
      assert Live(input)[n + j].id != id;
    }
    forall j | 0 <= j < n ensures input.transfers[j].transferId != id {
      assert Live(input)[j].id != id;
    }
  }

  lemma LastMention(persisted: seq<Row>, live: seq<Row>, id: Id)
    requires Mentions(persisted, live, id) != []
    ensures var mentions := Mentions(persisted, live, id);
            && (Of(live, id) != [] ==> mentions[|mentions| - 1] == Of(live, id)[|Of(live, id)| - 1])
            && (Of(live, id) == [] ==>
                  Of(persisted, id) != [] && mentions[|mentions| - 1] == Of(persisted, id)[|Of(persisted, id)| - 1])
  {
    hide Of;
  }

  // --- The stream ------------------------------------------------------------------------

  /** Every row shows the last word about its Transfer: name, body, size, link and author come from its
      latest live text, else its latest live file, else its record. */
  lemma RowsShowTheirLatestSource(input: Input, row: Row) returns (source: Source)
    requires row in Merged(input)
    ensures IsLatest(source, input, row.id) && Shows(row, source, input)
  {
    MergedPayload(input, row);
    var persisted, live := Persisted(input.history, input), Live(input);
    hide Merged, Persisted, Live, Of, HistoryRow, LiveFileRow, LiveTextRow, ShowsItem, ShowsFile, ShowsText, SamePayload;
    LastMention(persisted, live, row.id);
    hide Mentions;
    var k := LastOf(live, row.id);
    if Of(live, row.id) == [] {
      NothingLive(input, row.id);
      var i := LastPersisted(input.history, input, row.id);
      source := ItemAt(i);
      HistoryItemShows(input.history[i], input, row);
    } else {
      source := LiveSource(input, row.id, k);
      match source
      case TextAt(t) => LiveTextShows(input.texts[t], input, row);
      case FileAt(f) => LiveFileShows(input.transfers[f], input, row);
    }
  }

  lemma {:induction false} OfLiveTimes(rows: seq<Row>, id: Id, time: int)
    requires forall j :: 0 <= j < |rows| && rows[j].id == id ==> rows[j].receivedAt == time
    ensures forall j :: 0 <= j < |Of(rows, id)| ==> Of(rows, id)[j].receivedAt == time
  {
    if rows != [] { OfLiveTimes(rows[..|rows| - 1], id, time); }
  }

  lemma LiveTimes(input: Input, j: nat)
    requires j < |Live(input)|
    ensures var id := Live(input)[j].id;
            Live(input)[j].receivedAt == if id in input.liveTimestamps then input.liveTimestamps[id] else input.now
  {
    hide Live, IsOwnFile, SnippetPreview;
    LiveRows(input);
    var n := |input.transfers|;
    if j < n {
      assert Live(input)[j] == LiveFileRow(input.transfers[j], input);
    } else {
      assert Live(input)[n + (j - n)] == LiveTextRow(input.texts[j - n], input);
    }
  }

  lemma HistoryTimes(item: HistoryItem, input: Input)
    ensures HistoryRow(item, input).Some? ==> HistoryRow(item, input).value.receivedAt == item.createdAt
  {
  }

  /** A Transfer with a readable record stands at the time it was created, whatever the feed says of it;
      one the history does not have stands at the time it was first seen, or now. */
  lemma RowsStandAtTheirTime(input: Input, row: Row)
    requires row in Merged(input)
    ensures forall k: nat :: LatestItem(input.history, row.id, k) ==> row.receivedAt == input.history[k].createdAt
    ensures NoItem(input.history, row.id) ==>
              row.receivedAt == if row.id in input.liveTimestamps then input.liveTimestamps[row.id] else input.now
  {
    MergedPayload(input, row);
    var persisted, live := Persisted(input.history, input), Live(input);
    hide Merged, Persisted, Live, HistoryRow, SamePayload;
    var i := LastPersisted(input.history, input, row.id);
    if Of(persisted, row.id) != [] {
      HistoryTimes(input.history[i], input);
      forall k: nat | LatestItem(input.history, row.id, k) ensures k == i { LatestItemIsOne(input.history, row.id, i, k); }
    } else {
      forall j | 0 <= j < |live| && live[j].id == row.id
        ensures live[j].receivedAt == if row.id in input.liveTimestamps then input.liveTimestamps[row.id] else input.now
      {
        LiveTimes(input, j);
      }
      OfLiveTimes(live, row.id, if row.id in input.liveTimestamps then input.liveTimestamps[row.id] else input.now);
    }
  }

  // --- Which rows, in which order --------------------------------------------------------

  function ReadableIds(history: seq<HistoryItem>): seq<Id> {
    if history == [] then []
    else
      var last := history[|history| - 1];
      ReadableIds(history[..|history| - 1]) + if Readable(last) then [last.id] else []
  }

  /** Every id mentioned, in the order of mention: readable records, live files, live texts. */
  function MentionedIds(input: Input): seq<Id> {
    ReadableIds(input.history)
    + seq(|input.transfers|, i requires 0 <= i < |input.transfers| => input.transfers[i].transferId)
    + seq(|input.texts|, i requires 0 <= i < |input.texts| => input.texts[i].transferId)
  }

  function IdsOf(rows: seq<Row>): (ids: seq<Id>)
    ensures |ids| == |rows| && forall i :: 0 <= i < |rows| ==> ids[i] == rows[i].id
  {
    seq(|rows|, i requires 0 <= i < |rows| => rows[i].id)
  }

  lemma {:induction false} PersistedIds(history: seq<HistoryItem>, input: Input)
    ensures IdsOf(Persisted(history, input)) == ReadableIds(history)
  {
    if history != [] {
      var n := |history| - 1;
      PersistedIds(history[..n], input);
      HistoryRowSays(history[n], input);
      HistoryRowKeepsId(history[n], input);
      hide HistoryRow;
    }
  }

  lemma LiveIds(input: Input)
    ensures IdsOf(Live(input))
         == seq(|input.transfers|, i requires 0 <= i < |input.transfers| => input.transfers[i].transferId)
            + seq(|input.texts|, i requires 0 <= i < |input.texts| => input.texts[i].transferId)
  {
    LiveRows(input);
    hide Live, IsOwnFile, SnippetPreview, LiveTime;
    var n := |input.transfers|;
    forall j | 0 <= j < |Live(input)|
      ensures Live(input)[j].id == if j < n then input.transfers[j].transferId else input.texts[j - n].transferId
    {
      if j >= n { assert Live(input)[n + (j - n)] == LiveTextRow(input.texts[j - n], input); }
    }
  }

  lemma IdsOfBoth(a: seq<Row>, b: seq<Row>)
    ensures IdsOf(a + b) == IdsOf(a) + IdsOf(b)
  {
  }

  lemma AllIds(input: Input)
    ensures IdsOf(Persisted(input.history, input) + Live(input)) == MentionedIds(input)
  {
    hide Live, Persisted, ReadableIds, IdsOf;
    PersistedIds(input.history, input);
    LiveIds(input);
    IdsOfBoth(Persisted(input.history, input), Live(input));
    var ids := ReadableIds(input.history);
    var files := seq(|input.transfers|, i requires 0 <= i < |input.transfers| => input.transfers[i].transferId);
    var texts := seq(|input.texts|, i requires 0 <= i < |input.texts| => input.texts[i].transferId);
    assert ids + (files + texts) == ids + files + texts;
  }

  /** a is mentioned before b ever is. */
  ghost predicate FirstMentionedBefore(ids: seq<Id>, a: Id, b: Id) {
    exists k :: 0 <= k < |ids| && ids[k] == a && forall m :: 0 <= m <= k ==> ids[m] != b
  }

  lemma {:induction false} FirstIdsAreMentioned(rows: seq<Row>, id: Id)
    ensures id in FirstIds(rows) <==> id in IdsOf(rows)
  {
    if rows != [] {
      var n := |rows| - 1;
      FirstIdsAreMentioned(rows[..n], id);
      assert IdsOf(rows) == IdsOf(rows[..n]) + [rows[n].id];
    }
  }

  lemma MentionedEarlier(ids: seq<Id>, last: Id, a: Id, b: Id)
    requires (a in ids && b !in ids) || FirstMentionedBefore(ids, a, b)
    ensures FirstMentionedBefore(ids + [last], a, b)
  {
    var all := ids + [last];
    if a in ids && b !in ids {
      var k :| 0 <= k < |ids| && ids[k] == a;
      assert all[k] == a && forall m :: 0 <= m <= k ==> all[m] == ids[m];
    } else {
      var k :| 0 <= k < |ids| && ids[k] == a && forall m :: 0 <= m <= k ==> ids[m] != b;
      assert all[k] == a && forall m :: 0 <= m <= k ==> all[m] == ids[m];
    }
  }

  lemma {:induction false} FirstIdsFollowMentions(rows: seq<Row>, a: Id, b: Id)
    requires Precedes(FirstIds(rows), a, b)
    ensures FirstMentionedBefore(IdsOf(rows), a, b)
  {
    var n := |rows| - 1;
    var before, id := FirstIds(rows[..n]), rows[n].id;
    assert IdsOf(rows) == IdsOf(rows[..n]) + [id];
    var all := FirstIds(rows);
    var i, j :| 0 <= i < j < |all| && all[i] == a && all[j] == b;
    hide FirstMentionedBefore;
    if j < |before| {
      assert before[i] == a && before[j] == b;
      FirstIdsFollowMentions(rows[..n], a, b);
    } else {
      assert before[i] == a && b == id && id !in before;
      FirstIdsAreMentioned(rows[..n], a);
      FirstIdsAreMentioned(rows[..n], b);
    }
    MentionedEarlier(IdsOf(rows[..n]), id, a, b);
  }

  lemma {:induction false} SomethingMentions(persisted: seq<Row>, live: seq<Row>, id: Id)
    ensures Mentions(persisted, live, id) != [] <==> id in IdsOf(persisted + live)
  {
    var p := LastOf(persisted, id);
    var l := LastOf(live, id);
    var ids := IdsOf(persisted + live);
    if Of(persisted, id) != [] { assert ids[p] == id; }
    if Of(live, id) != [] { assert ids[|persisted| + l] == id; }
  }

  lemma OrderedFollowsMentions(input: Input, i: nat, j: nat)
    requires i < j < |Ordered(input)|
    ensures var a, b := Ordered(input)[i], Ordered(input)[j];
            a.receivedAt < b.receivedAt
            || (a.receivedAt == b.receivedAt && FirstMentionedBefore(MentionedIds(input), a.id, b.id))
  {
    var all := Persisted(input.history, input) + Live(input);
    var a, b := Ordered(input)[i], Ordered(input)[j];
    OrderedIsAStream(input);
    AllIds(input);
    hide Ordered, Persisted, Live, FirstIds, MentionedIds, FirstMentionedBefore, Precedes;
    assert Before(FirstIds(all), a, b);
    if Precedes(FirstIds(all), a.id, b.id) { FirstIdsFollowMentions(all, a.id, b.id); }
  }

  /** The stream has exactly one row for each id mentioned, oldest first, equal times in the order in
      which the Transfers were first mentioned. */
  lemma StreamIsOneRowEachOldestFirst(input: Input)
    ensures forall i, j :: 0 <= i < j < |Merged(input)| ==>
              var a, b := Merged(input)[i], Merged(input)[j];
              && a.id != b.id
              && (a.receivedAt < b.receivedAt
                  || (a.receivedAt == b.receivedAt && FirstMentionedBefore(MentionedIds(input), a.id, b.id)))
    ensures forall id :: id in MentionedIds(input) <==> exists i :: 0 <= i < |Merged(input)| && Merged(input)[i].id == id
  {
    var persisted, live := Persisted(input.history, input), Live(input);
    OrderedIsAStream(input);
    AllIds(input);
    FirstIdsAreDistinct(persisted + live);
    hide Persisted, Live, MentionedIds, Ordered, Mentions, FirstIds, FirstMentionedBefore, Summary;
    forall i, j | 0 <= i < j < |Merged(input)|
      ensures Merged(input)[i].id != Merged(input)[j].id
      ensures Merged(input)[i].receivedAt < Merged(input)[j].receivedAt
              || (Merged(input)[i].receivedAt == Merged(input)[j].receivedAt
                  && FirstMentionedBefore(MentionedIds(input), Merged(input)[i].id, Merged(input)[j].id))
    {
      OrderedFollowsMentions(input, i, j);
      OneRowPerId(input, i, j);
    }
    forall id ensures id in MentionedIds(input) <==> exists i :: 0 <= i < |Merged(input)| && Merged(input)[i].id == id {
      RowForEachId(input, id);
    }
  }

  lemma OneRowPerId(input: Input, i: nat, j: nat)
    requires i < j < |Ordered(input)|
    ensures Ordered(input)[i].id != Ordered(input)[j].id
  {
    var all := Persisted(input.history, input) + Live(input);
    OrderedIsAStream(input);
    FirstIdsAreDistinct(all);
    hide Ordered, Persisted, Live, Mentions, FirstIds, Summary;
    var a, b := Ordered(input)[i], Ordered(input)[j];
    assert a in Ordered(input) && b in Ordered(input);
    assert Before(FirstIds(all), a, b);
    if a.id == b.id {
      assert a == b;
      BeforeIsAsymmetric(FirstIds(all), a, b);
    }
  }

  lemma RowForEachId(input: Input, id: Id)
    ensures id in MentionedIds(input) <==> exists i :: 0 <= i < |Merged(input)| && Merged(input)[i].id == id
  {
    var persisted, live := Persisted(input.history, input), Live(input);
    AllIds(input);
    SomethingMentions(persisted, live, id);
    OrderedIsAStream(input);
    if id in MentionedIds(input) {
      var mentions := Mentions(persisted, live, id);
      forall k | 0 <= k < |mentions| ensures mentions[k].id == id { MentionsAreRows(input, id, mentions[k]); }
      hide Persisted, Live, MentionedIds, Ordered, Mentions, AnyDelivered, AnyMine;
      var row := Summary(mentions);
      assert row.id == id && row in Ordered(input);
      var i :| 0 <= i < |Ordered(input)| && Ordered(input)[i] == row;
      assert Merged(input)[i].id == id;
    } else {
      hide Persisted, Live, MentionedIds, Ordered, Mentions, Summary;
      forall i | 0 <= i < |Merged(input)| ensures Merged(input)[i].id != id {
        assert Ordered(input)[i] in Ordered(input);
      }
    }
  }
}
