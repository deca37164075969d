/** The Room stream: apps/web/src/features/room/utils/transfer-log.ts merges the persisted history
    with the live socket feed. */
module TransferLog {
  import opened Common

  datatype Kind = File | Snippet | Link

  datatype Status = InProgress | Delivered

  datatype Identity = Identity(key: Id, colorKey: string, name: string)

  datatype Author = Author(sender: bool, identity: Option<Identity>)

  /** `createdAt` is the parsed timestamp. */
  datatype HistoryItem = HistoryItem(
    id: Id, kind: Kind, fileName: Option<string>, fileSizeBytes: Option<nat>, content: Option<string>,
    author: Option<Author>, delivered: bool, createdAt: int)

  datatype Progress = Progress(transferId: Id, fileName: string, fileSizeBytes: nat, author: Option<Author>)

  datatype RoomText = RoomText(transferId: Id, link: bool, content: string, author: Option<Author>, mine: bool)

  datatype Row = Row(
    id: Id, kind: Kind, name: string, content: Option<string>, status: Status, sizeBytes: Option<nat>,
    href: Option<string>, author: Option<Author>, mine: bool, receivedAt: int)

  /** `now` stands for Date.now(), read once per merge; `href` gives no link without a session. */
  datatype Input = Input(
    history: seq<HistoryItem>, transfers: seq<Progress>, texts: seq<RoomText>, delivered: set<Id>, ownIds: set<Id>,
    selfKey: Option<Id>, liveTimestamps: map<Id, int>, now: int, overrides: map<Id, Identity>,
    href: (Id, string) -> Option<string>)

  /** What JavaScript's \s matches and trim removes. */
  predicate IsSpace(c: char) {
    || c in " \t\n\r" || c in [11 as char, 12 as char, 0xa0 as char, 0x1680 as char]
    || 0x2000 as char <= c <= 0x200a as char
    || c in [0x2028 as char, 0x2029 as char, 0x202f as char, 0x205f as char, 0x3000 as char, 0xfeff as char]
  }

  /** Runs of whitespace become one space, none at the front. */
  function Collapsed(s: string): string {
    if s == "" then ""
    else
      var init, last := Collapsed(s[..|s| - 1]), s[|s| - 1];
      if !IsSpace(last) then init + [last]
      else if init == "" || init[|init| - 1] == ' ' then init else init + " "
  }

  function SnippetPreview(content: string): string {
    var s := Collapsed(content);
    if s != "" && s[|s| - 1] == ' ' then s[..|s| - 1] else s
  }

  predicate IsOwnFile(author: Option<Author>, selfKey: Option<Id>) {
    && selfKey.Some? && author.Some? && author.value.identity.Some?
    && author.value.identity.value.key == selfKey.value
  }

  function TextRow(id: Id, link: bool, content: string, author: Option<Author>, mine: bool, receivedAt: int): Row {
    Row(id, if link then Link else Snippet, if link then content else SnippetPreview(content), Some(content),
        Delivered, None, if link then Some(content) else None, author, mine, receivedAt)
  }

  /** None for a text without a readable body. */
  function HistoryRow(item: HistoryItem, input: Input): Option<Row> {
    if item.kind.File? then
      var name := if item.fileName.Some? then item.fileName.value else "File";
      var mine := IsOwnFile(item.author, input.selfKey);
      Some(Row(item.id, File, name, None, if item.delivered then Delivered else InProgress, item.fileSizeBytes,
               input.href(item.id, name), if mine then None else item.author, mine, item.createdAt))
    else if item.content.None? then None
    else Some(TextRow(item.id, item.kind.Link?, item.content.value, item.author, item.id in input.ownIds, item.createdAt))
  }

  function LiveTime(id: Id, input: Input): int {
    if id in input.liveTimestamps then input.liveTimestamps[id] else input.now
  }

  function LiveFileRow(p: Progress, input: Input): Row {
    var mine := IsOwnFile(p.author, input.selfKey);
    Row(p.transferId, File, p.fileName, None, if p.transferId in input.delivered then Delivered else InProgress,
        Some(p.fileSizeBytes), input.href(p.transferId, p.fileName), if mine then None else p.author, mine,
        LiveTime(p.transferId, input))
  }

  function LiveTextRow(t: RoomText, input: Input): Row {
    TextRow(t.transferId, t.link, t.content, t.author, t.mine, LiveTime(t.transferId, input))
  }

  /** The rows of the history, in its order, without unreadable texts. */
  function Persisted(history: seq<HistoryItem>, input: Input): seq<Row> {
    if history == [] then []
    else
      var row := HistoryRow(history[|history| - 1], input);
      Persisted(history[..|history| - 1], input) + if row.Some? then [row.value] else []
  }

  function LiveFiles(transfers: seq<Progress>, input: Input): seq<Row> {
    seq(|transfers|, i requires 0 <= i < |transfers| => LiveFileRow(transfers[i], input))
  }

  function LiveTexts(texts: seq<RoomText>, input: Input): seq<Row> {
    seq(|texts|, i requires 0 <= i < |texts| => LiveTextRow(texts[i], input))
  }

  /** A JavaScript Map from id to row. */
  datatype Table = Table(order: seq<Id>, at: map<Id, Row>)

  function Set(t: Table, row: Row): Table {
    Table(if row.id in t.at then t.order else t.order + [row.id], t.at[row.id := row])
  }

  /** A live row laid over what is there: the time stays, delivery and authorship never regress. */
  function Refined(existing: Row, row: Row): Row {
    row.(receivedAt := existing.receivedAt,
         status := if existing.status.Delivered? then Delivered else row.status,
         mine := existing.mine || row.mine)
  }

  function Overlay(t: Table, row: Row): Table {
    Set(t, if row.id in t.at then Refined(t.at[row.id], row) else row)
  }

  function Fill(persisted: seq<Row>, live: seq<Row>): Table {
    if live != [] then Overlay(Fill(persisted, live[..|live| - 1]), live[|live| - 1])
    else if persisted != [] then Set(Fill(persisted[..|persisted| - 1], []), persisted[|persisted| - 1])
    else Table([], map[])
  }

  ghost predicate TableOk(t: Table) {
    Lists(t.order, t.at.Keys) && forall id | id in t.at :: t.at[id].id == id
  }

  lemma {:induction false} FillIsOk(persisted: seq<Row>, live: seq<Row>)
    ensures TableOk(Fill(persisted, live))
  {
    if live != [] {
      FillIsOk(persisted, live[..|live| - 1]);
    } else if persisted != [] {
      FillIsOk(persisted[..|persisted| - 1], []);
    }
  }

  function Of(rows: seq<Row>, id: Id): seq<Row> {
    if rows == [] then []
    else Of(rows[..|rows| - 1], id) + if rows[|rows| - 1].id == id then [rows[|rows| - 1]] else []
  }

  /** What says anything about `id`: its latest persisted row, then its live rows in order. */
  function Mentions(persisted: seq<Row>, live: seq<Row>, id: Id): seq<Row> {
    var stored := Of(persisted, id);
    (if stored == [] then [] else [stored[|stored| - 1]]) + Of(live, id)
  }

  predicate AnyDelivered(rows: seq<Row>) {
    exists i :: 0 <= i < |rows| && rows[i].status.Delivered?
  }

  predicate AnyMine(rows: seq<Row>) {
    exists i :: 0 <= i < |rows| && rows[i].mine
  }

  /** The one row that mentions of an id amount to: the latest payload, the first time, delivered
      or mine if any says so. */
  function Summary(rows: seq<Row>): Row
    requires rows != []
  {
    rows[|rows| - 1].(receivedAt := rows[0].receivedAt,
                      status := if AnyDelivered(rows) then Delivered else InProgress,
                      mine := AnyMine(rows))
  }

  lemma SummaryGrows(rows: seq<Row>, row: Row)
    requires rows != []
    ensures Summary(rows + [row]) == Refined(Summary(rows), row)
  {
    var all := rows + [row];
    assert all[|rows|] == row;
    assert forall i :: 0 <= i < |rows| ==> all[i] == rows[i];
    if i :| 0 <= i < |rows| && rows[i].status.Delivered? { assert all[i].status.Delivered?; }
    if i :| 0 <= i < |rows| && rows[i].mine { assert all[i].mine; }
  }

  lemma SummaryOfOne(row: Row)
    ensures Summary([row]) == row
  {
  }

  /** The filled table holds, for each id mentioned, the summary of its mentions. */
  lemma {:induction false} FillSummarizes(persisted: seq<Row>, live: seq<Row>, id: Id)
    ensures var mentions := Mentions(persisted, live, id); var t := Fill(persisted, live);
            && (id in t.at <==> mentions != [])
            && (id in t.at ==> t.at[id] == Summary(mentions))
  {
    hide AnyDelivered, AnyMine;
    if live != [] {
      var init, row := live[..|live| - 1], live[|live| - 1];
      var before := Mentions(persisted, init, id);
      FillSummarizes(persisted, init, id);
      if row.id == id {
        assert Mentions(persisted, live, id) == before + [row];
        SummaryOfOne(row);
        if before == [] {
          assert before + [row] == [row];
        } else {
          SummaryGrows(before, row);
        }
      } else {
        assert Mentions(persisted, live, id) == before;
      }
    } else if persisted != [] {
      var init, row := persisted[..|persisted| - 1], persisted[|persisted| - 1];
      FillSummarizes(init, [], id);
      SummaryOfOne(row);
      assert row.id == id ==> Mentions(persisted, [], id) == [row];
      assert row.id != id ==> Mentions(persisted, [], id) == Mentions(init, [], id);
    }
  }

  function FirstIds(rows: seq<Row>): seq<Id> {
    if rows == [] then []
    else
      var before, id := FirstIds(rows[..|rows| - 1]), rows[|rows| - 1].id;
      if id in before then before else before + [id]
  }

  lemma {:induction false} FillKeepsFirstOrder(persisted: seq<Row>, live: seq<Row>)
    ensures Fill(persisted, live).order == FirstIds(persisted + live)
  {
    FillIsOk(persisted, live);
    if live != [] {
      FillKeepsFirstOrder(persisted, live[..|live| - 1]);
      FillIsOk(persisted, live[..|live| - 1]);
      assert (persisted + live)[..|persisted + live| - 1] == persisted + live[..|live| - 1];
    } else if persisted != [] {
      var init := persisted[..|persisted| - 1];
      FillKeepsFirstOrder(init, []);
      FillIsOk(init, []);
      assert init + [] == init && persisted + [] == persisted;
    }
  }

  function Values(t: Table): (rows: seq<Row>)
    requires TableOk(t)
    ensures |rows| == |t.order|
    ensures forall i :: 0 <= i < |rows| ==> rows[i] == t.at[t.order[i]]
  {
    seq(|t.order|, i requires 0 <= i < |t.order| => t.at[t.order[i]])
  }

  /** Where a row goes among rows in time order: after all that are not later. */
  function Inserted(sorted: seq<Row>, row: Row): seq<Row> {
    if sorted == [] || sorted[|sorted| - 1].receivedAt <= row.receivedAt then sorted + [row]
    else Inserted(sorted[..|sorted| - 1], row) + [sorted[|sorted| - 1]]
  }

  /** Array.prototype.sort by receivedAt, which is stable. */
  function SortedByTime(rows: seq<Row>): seq<Row> {
    if rows == [] then [] else Inserted(SortedByTime(rows[..|rows| - 1]), rows[|rows| - 1])
  }

  function WithIdentityOverride(author: Option<Author>, overrides: map<Id, Identity>): Option<Author> {
    if author.None? || author.value.identity.None? then author
    else
      var key := author.value.identity.value.key;
      if key in overrides then Some(author.value.(identity := Some(overrides[key]))) else author
  }

  function Relabelled(rows: seq<Row>, overrides: map<Id, Identity>): (r: seq<Row>)
    ensures |r| == |rows|
    ensures forall i :: 0 <= i < |r| ==> r[i] == rows[i].(author := WithIdentityOverride(rows[i].author, overrides))
  {
    seq(|rows|, i requires 0 <= i < |rows| => rows[i].(author := WithIdentityOverride(rows[i].author, overrides)))
  }

  function Live(input: Input): seq<Row> {
    LiveFiles(input.transfers, input) + LiveTexts(input.texts, input)
  }

  function Ordered(input: Input): seq<Row> {
    var persisted := Persisted(input.history, input);
    FillIsOk(persisted, Live(input));
    SortedByTime(Values(Fill(persisted, Live(input))))
  }

  function Merged(input: Input): seq<Row> {
    Relabelled(Ordered(input), input.overrides)
  }

  lemma NextPersisted(input: Input, i: nat)
    requires i < |input.history|
    ensures var row := HistoryRow(input.history[i], input);
            var before := Fill(Persisted(input.history[..i], input), []);
            Fill(Persisted(input.history[..i + 1], input), []) == if row.Some? then Set(before, row.value) else before
  {
    var filled, row := Persisted(input.history[..i], input), HistoryRow(input.history[i], input);
    assert input.history[..i + 1][..i] == input.history[..i];
    if row.Some? {
      assert Persisted(input.history[..i + 1], input) == filled + [row.value];
      assert (filled + [row.value])[..|filled|] == filled;
    } else {
      assert Persisted(input.history[..i + 1], input) == filled;
    }
  }

  lemma NextLive(persisted: seq<Row>, live: seq<Row>, i: nat)
    requires i < |live|
    ensures Fill(persisted, live[..i + 1]) == Overlay(Fill(persisted, live[..i]), live[i])
  {
    assert live[..i + 1][..i] == live[..i];
  }

  lemma LiveRows(input: Input)
    ensures Fill(Persisted(input.history[..0], input), []) == Table([], map[])
    ensures var n := |input.transfers|;
            && |Live(input)| == n + |input.texts|
            && (forall i :: 0 <= i < n ==> Live(input)[i] == LiveFileRow(input.transfers[i], input))
            && (forall i :: 0 <= i < |input.texts| ==> Live(input)[n + i] == LiveTextRow(input.texts[i], input))
  {
    hide HistoryRow, LiveFileRow, LiveTextRow;
  }

  /** The three loops that fill the Map. */
  method FillTable(input: Input) returns (rows: Table)
    ensures rows == Fill(Persisted(input.history, input), Live(input))
  {
    hide HistoryRow, LiveFileRow, LiveTextRow, Set, Overlay, Persisted, Fill, Live;
    ghost var persisted, live := Persisted(input.history, input), Live(input);
    LiveRows(input);
    rows := Table([], map[]);
    for i := 0 to |input.history|
      invariant rows == Fill(Persisted(input.history[..i], input), [])
    {
      NextPersisted(input, i);
      var row := HistoryRow(input.history[i], input);
      if row.Some? {
        rows := Set(rows, row.value);
      }
    }
    assert input.history[..|input.history|] == input.history;
    var n := |input.transfers|;
    assert live[..0] == [];
    for i := 0 to n
      invariant rows == Fill(persisted, live[..i])
    {
      NextLive(persisted, live, i);
      rows := Overlay(rows, LiveFileRow(input.transfers[i], input));
    }
    for i := 0 to |input.texts|
      invariant rows == Fill(persisted, live[..n + i])
    {
      NextLive(persisted, live, n + i);
      rows := Overlay(rows, LiveTextRow(input.texts[i], input));
    }
    assert live[..n + |input.texts|] == live;
  }

  method MergeTransferLog(input: Input) returns (log: seq<Row>)
    ensures log == Merged(input)
  {
    FillIsOk(Persisted(input.history, input), Live(input));
    var rows := FillTable(input);
    var ordered := SortedByTime(Values(rows));
    if input.overrides == map[] {
      NoOverridesChangeNothing(ordered);
      return ordered;
    }
    return Relabelled(ordered, input.overrides);
  }

  lemma NoOverridesChangeNothing(rows: seq<Row>)
    ensures Relabelled(rows, map[]) == rows
  {
  }

  /** Strictly earlier, or as early and first mentioned earlier. */
  ghost predicate Before(order: seq<Id>, a: Row, b: Row) {
    a.receivedAt < b.receivedAt || (a.receivedAt == b.receivedAt && Precedes(order, a.id, b.id))
  }

  ghost predicate InOrder(order: seq<Id>, rows: seq<Row>) {
    forall i, j :: 0 <= i < j < |rows| ==> Before(order, rows[i], rows[j])
  }

  lemma {:induction false} InsertedInOrder(order: seq<Id>, sorted: seq<Row>, row: Row)
    requires InOrder(order, sorted)
    requires forall r | r in sorted :: Precedes(order, r.id, row.id)
    ensures InOrder(order, Inserted(sorted, row))
    ensures forall r :: r in Inserted(sorted, row) <==> r in sorted || r == row
  {
    if sorted == [] || sorted[|sorted| - 1].receivedAt <= row.receivedAt {
      forall i | 0 <= i < |sorted| ensures Before(order, sorted[i], row) {
        assert sorted[i] in sorted;
        assert i < |sorted| - 1 ==> Before(order, sorted[i], sorted[|sorted| - 1]);
      }
    } else {
      hide Precedes;
      var init, last := sorted[..|sorted| - 1], sorted[|sorted| - 1];
      assert sorted == init + [last];
      InsertedInOrder(order, init, row);
      var r := Inserted(init, row);
      forall i | 0 <= i < |r| ensures Before(order, r[i], last) {
        assert r[i] in r;
        if r[i] != row {
          var k :| 0 <= k < |init| && init[k] == r[i];
          assert Before(order, sorted[k], sorted[|sorted| - 1]);
        }
      }
    }
  }

  lemma {:induction false} SortedInOrder(order: seq<Id>, rows: seq<Row>)
    requires forall i :: 0 <= i < |rows| ==> i < |order| && order[i] == rows[i].id
    ensures InOrder(order, SortedByTime(rows))
    ensures forall r :: r in SortedByTime(rows) <==> r in rows
  {
    if rows != [] {
      var init, last := rows[..|rows| - 1], rows[|rows| - 1];
      assert rows == init + [last];
      SortedInOrder(order, init);
      forall r | r in SortedByTime(init) ensures Precedes(order, r.id, last.id) {
        var i :| 0 <= i < |init| && init[i] == r;
        assert order[i] == r.id && order[|rows| - 1] == last.id;
      }
      InsertedInOrder(order, SortedByTime(init), last);
    }
  }

  /** The stream, described without a table or a sort: one summary per id mentioned, in time order,
      equal times in the order of first mention. */
  ghost predicate IsStream(input: Input, rows: seq<Row>) {
    var persisted, live := Persisted(input.history, input), Live(input);
    && InOrder(FirstIds(persisted + live), rows)
    && (forall row :: row in rows <==>
          Mentions(persisted, live, row.id) != [] && row == Summary(Mentions(persisted, live, row.id)))
  }

  lemma OrderedIsAStream(input: Input)
    ensures IsStream(input, Ordered(input))
  {
    var persisted, live := Persisted(input.history, input), Live(input);
    var t := Fill(persisted, live);
    FillIsOk(persisted, live);
    FillKeepsFirstOrder(persisted, live);
    SortedInOrder(t.order, Values(t));
    forall row
      ensures row in Ordered(input) <==>
                Mentions(persisted, live, row.id) != [] && row == Summary(Mentions(persisted, live, row.id))
    {
      FillSummarizes(persisted, live, row.id);
      if row in Values(t) {
        var i :| 0 <= i < |t.order| && Values(t)[i] == row;
        assert t.order[i] in t.at;
      }
      if row.id in t.at {
        var i :| 0 <= i < |t.order| && t.order[i] == row.id;
        assert Values(t)[i] == t.at[row.id];
      }
    }
  }

  lemma {:induction false} FirstIdsAreDistinct(rows: seq<Row>)
    ensures Distinct(FirstIds(rows))
  {
    if rows != [] { FirstIdsAreDistinct(rows[..|rows| - 1]); }
  }

  lemma BeforeIsAsymmetric(order: seq<Id>, a: Row, b: Row)
    requires Distinct(order) && Before(order, a, b)
    ensures !Before(order, b, a)
  {
  }

  lemma {:induction false} OrderAndMembersDetermine(order: seq<Id>, a: seq<Row>, b: seq<Row>)
    requires Distinct(order) && InOrder(order, a) && InOrder(order, b)
    requires forall r :: r in a <==> r in b
    ensures a == b
  {
    assert |b| > 0 ==> b[0] in a;
    if a == [] {
    } else {
      assert a[0] in b;
      var k :| 0 <= k < |b| && b[k] == a[0];
      var m :| 0 <= m < |a| && a[m] == b[0];
      if k > 0 && m > 0 {
        BeforeIsAsymmetric(order, b[0], b[k]);
      }
      forall r ensures r in a[1..] <==> r in b[1..] {
        assert r in a <==> r == a[0] || r in a[1..];
        assert r in b <==> r == b[0] || r in b[1..];
        if r == a[0] {
          FirstIsNotRepeated(order, a);
          FirstIsNotRepeated(order, b);
        }
      }
      OrderAndMembersDetermine(order, a[1..], b[1..]);
    }
  }

  lemma FirstIsNotRepeated(order: seq<Id>, a: seq<Row>)
    requires Distinct(order) && InOrder(order, a) && a != []
    ensures a[0] !in a[1..]
  {
  }

  /** The same author, under the latest name. */
  ghost predicate Renamed(author: Option<Author>, shown: Option<Author>, overrides: map<Id, Identity>) {
    if author.None? || author.value.identity.None? then shown == author
    else
      var identity := author.value.identity.value;
      && shown.Some? && shown.value.sender == author.value.sender
      && shown.value.identity == Some(if identity.key in overrides then overrides[identity.key] else identity)
  }

  /** The same row, with the latest name of its author: nothing but the identity of a renamed author
      may differ. */
  ghost predicate SameButRenamed(row: Row, shown: Row, overrides: map<Id, Identity>) {
    shown.(author := row.author) == row && Renamed(row.author, shown.author, overrides)
  }

  lemma StreamIsOne(input: Input, a: seq<Row>, b: seq<Row>)
    requires IsStream(input, a) && IsStream(input, b)
    ensures a == b
  {
    var all := Persisted(input.history, input) + Live(input);
    FirstIdsAreDistinct(all);
    hide Persisted, Live, Mentions, Summary, FirstIds, InOrder, Distinct;
    OrderAndMembersDetermine(FirstIds(all), a, b);
  }

  /** Before renames, the merge is the stream and nothing else is, whatever the input; what it returns
      is that list row by row, with nothing but the identities of renamed authors changed. */
  lemma MergeIsExactlyTheStream(input: Input, rows: seq<Row>)
    ensures IsStream(input, rows) <==> rows == Ordered(input)
    ensures |Merged(input)| == |Ordered(input)|
    ensures forall i :: 0 <= i < |Merged(input)| ==> SameButRenamed(Ordered(input)[i], Merged(input)[i], input.overrides)
  {
    hide Ordered, IsStream;
    OrderedIsAStream(input);
    if IsStream(input, rows) { StreamIsOne(input, rows, Ordered(input)); }
  }

  ghost predicate SameUploader(a: Option<Author>, b: Option<Author>) {
    && a.Some? == b.Some?
    && (a.Some? ==> a.value.identity.Some? == b.value.identity.Some?)
    && (a.Some? && a.value.identity.Some? ==> a.value.identity.value.key == b.value.identity.value.key)
  }

  /** The same Transfer in a later history. */
  ghost predicate StillRecorded(item: HistoryItem, later: HistoryItem) {
    && later.id == item.id && later.kind == item.kind && later.content == item.content
    && SameUploader(item.author, later.author)
    && (item.delivered ==> later.delivered)
  }

  ghost predicate Knows(a: Input, b: Input) {
    (a.selfKey.Some? ==> b.selfKey == a.selfKey) && a.delivered <= b.delivered && a.ownIds <= b.ownIds
  }

  /** Time passes in one Room: nothing recorded, received or sent is taken back. */
  ghost predicate Grows(a: Input, b: Input) {
    && Knows(a, b)
    && DistinctItems(b.history)
    && (forall item | item in a.history :: exists later :: later in b.history && StillRecorded(item, later))
    && (forall p | p in a.transfers ::
          exists q :: q in b.transfers && q.transferId == p.transferId && SameUploader(p.author, q.author))
    && (forall t | t in a.texts :: t in b.texts)
  }

  ghost predicate AtLeast(row: Row, later: Row) {
    && later.id == row.id
    && (row.status.Delivered? ==> later.status.Delivered?)
    && (row.mine ==> later.mine)
  }

  lemma {:induction false} OfIsTheRowsWithThatId(rows: seq<Row>, id: Id, row: Row)
    ensures row in Of(rows, id) <==> row in rows && row.id == id
  {
    if rows != [] {
      assert rows == rows[..|rows| - 1] + [rows[|rows| - 1]];
      OfIsTheRowsWithThatId(rows[..|rows| - 1], id, row);
    }
  }

  lemma {:induction false} PersistedIsTheReadableItems(history: seq<HistoryItem>, input: Input, row: Row)
    ensures row in Persisted(history, input) <==> exists item :: item in history && HistoryRow(item, input) == Some(row)
  {
    hide HistoryRow;
    if history != [] {
      var init, last := history[..|history| - 1], history[|history| - 1];
      assert history == init + [last];
      PersistedIsTheReadableItems(init, input, row);
    }
  }

  lemma HistoryRowKeepsId(item: HistoryItem, input: Input)
    ensures HistoryRow(item, input).Some? ==> HistoryRow(item, input).value.id == item.id
  {
  }

  lemma {:induction false} OneRowPerItem(history: seq<HistoryItem>, input: Input, row: Row)
    requires DistinctItems(history)
    requires row in Persisted(history, input)
    ensures Of(Persisted(history, input), row.id) == [row]
  {
    hide HistoryRow;
    var init, last := history[..|history| - 1], history[|history| - 1];
    var rows := Persisted(init, input);
    HistoryRowKeepsId(last, input);
    forall other | other in rows ensures other.id != last.id {
      PersistedIsTheReadableItems(init, input, other);
      var item :| item in init && HistoryRow(item, input) == Some(other);
      HistoryRowKeepsId(item, input);
    }
    if HistoryRow(last, input) == Some(row) {
      assert Persisted(history, input) == rows + [row];
      assert Of(rows, row.id) == [] by {
        if Of(rows, row.id) != [] {
          OfIsTheRowsWithThatId(rows, row.id, Of(rows, row.id)[0]);
        }
      }
    } else {
      assert row in rows;
      OneRowPerItem(init, input, row);
      if HistoryRow(last, input).Some? {
        var all := rows + [HistoryRow(last, input).value];
        assert Persisted(history, input) == all && all[..|rows|] == rows;
        assert Of(all, row.id) == Of(rows, row.id);
      } else {
        assert Persisted(history, input) == rows;
      }
    }
  }

  lemma LaterItemIsAtLeast(item: HistoryItem, later: HistoryItem, a: Input, b: Input)
    requires StillRecorded(item, later) && Knows(a, b) && HistoryRow(item, a).Some?
    ensures HistoryRow(later, b).Some? && AtLeast(HistoryRow(item, a).value, HistoryRow(later, b).value)
  {
  }

  lemma LaterFileIsAtLeast(p: Progress, q: Progress, a: Input, b: Input)
    requires q.transferId == p.transferId && SameUploader(p.author, q.author) && Knows(a, b)
    ensures AtLeast(LiveFileRow(p, a), LiveFileRow(q, b))
  {
  }

  lemma PersistedMentionsSurvive(a: Input, b: Input, row: Row) returns (later: Row)
    requires Grows(a, b) && row in Persisted(a.history, a)
    ensures AtLeast(row, later) && later in Mentions(Persisted(b.history, b), Live(b), row.id)
  {
    hide HistoryRow, StillRecorded, Knows, Persisted, Live;
    PersistedIsTheReadableItems(a.history, a, row);
    var item :| item in a.history && HistoryRow(item, a) == Some(row);
    var now :| now in b.history && StillRecorded(item, now);
    LaterItemIsAtLeast(item, now, a, b);
    later := HistoryRow(now, b).value;
    PersistedIsTheReadableItems(b.history, b, later);
    OneRowPerItem(b.history, b, later);
  }

  lemma LiveMentionsSurvive(a: Input, b: Input, row: Row) returns (later: Row)
    requires Grows(a, b) && row in Live(a)
    ensures AtLeast(row, later) && later in Mentions(Persisted(b.history, b), Live(b), row.id)
  {
    hide Live, LiveFileRow, TextRow, Persisted, Of, Knows, SameUploader;
    LiveRows(a);
    LiveRows(b);
    var n := |a.transfers|;
    var k :| 0 <= k < |Live(a)| && Live(a)[k] == row;
    if k < n {
      assert a.transfers[k] in a.transfers;
      var q :| q in b.transfers && q.transferId == a.transfers[k].transferId && SameUploader(a.transfers[k].author, q.author);
      var j :| 0 <= j < |b.transfers| && b.transfers[j] == q;
      LaterFileIsAtLeast(a.transfers[k], q, a, b);
      later := Live(b)[j];
    } else {
      assert a.texts[k - n] in b.texts;
      var j :| 0 <= j < |b.texts| && b.texts[j] == a.texts[k - n];
      later := Live(b)[|b.transfers| + j];
      LaterTextIsAtLeast(a.texts[k - n], a, b);
    }
    OfIsTheRowsWithThatId(Live(b), row.id, later);
  }

  lemma LaterTextIsAtLeast(t: RoomText, a: Input, b: Input)
    ensures AtLeast(LiveTextRow(t, a), LiveTextRow(t, b))
  {
  }

  lemma MentionsAreRows(input: Input, id: Id, row: Row)
    requires row in Mentions(Persisted(input.history, input), Live(input), id)
    ensures row.id == id && (row in Live(input) || row in Persisted(input.history, input))
  {
    var stored := Of(Persisted(input.history, input), id);
    OfIsTheRowsWithThatId(Live(input), id, row);
    if stored != [] {
      OfIsTheRowsWithThatId(Persisted(input.history, input), id, stored[|stored| - 1]);
    }
  }

  lemma MentionsSurvive(a: Input, b: Input, id: Id, row: Row) returns (later: Row)
    requires Grows(a, b) && row in Mentions(Persisted(a.history, a), Live(a), id)
    ensures AtLeast(row, later) && later in Mentions(Persisted(b.history, b), Live(b), id)
  {
    MentionsAreRows(a, id, row);
    if row in Live(a) {
      later := LiveMentionsSurvive(a, b, row);
    } else {
      later := PersistedMentionsSurvive(a, b, row);
    }
  }

  lemma SummaryIsAtLeast(was: seq<Row>, now: seq<Row>)
    requires was != [] && now != []
    requires forall i, j :: 0 <= i < |was| && 0 <= j < |now| ==> was[i].id == now[j].id
    requires forall i :: 0 <= i < |was| ==> exists later :: later in now && AtLeast(was[i], later)
    ensures AtLeast(Summary(was), Summary(now))
  {
  }

  lemma OrderedDoesNotRegress(a: Input, b: Input, row: Row) returns (later: Row)
    requires Grows(a, b) && row in Ordered(a)
    ensures later in Ordered(b) && AtLeast(row, later)
  {
    var was := Mentions(Persisted(a.history, a), Live(a), row.id);
    var now := Mentions(Persisted(b.history, b), Live(b), row.id);
    assert was != [] && row == Summary(was) by { OrderedIsAStream(a); }
    hide Mentions, Persisted, Live, Ordered, Grows, AtLeast, AnyDelivered, AnyMine;
    forall i | 0 <= i < |was| ensures was[i].id == row.id && exists next :: next in now && AtLeast(was[i], next) {
      MentionsAreRows(a, row.id, was[i]);
      var next := MentionsSurvive(a, b, row.id, was[i]);
    }
    assert now != [] by {
      var next := MentionsSurvive(a, b, row.id, was[0]);
    }
    forall j | 0 <= j < |now| ensures now[j].id == row.id {
      MentionsAreRows(b, row.id, now[j]);
    }
    SummaryIsAtLeast(was, now);
    later := Summary(now);
    OrderedIsAStream(b);
  }

  /** As history, live feed, delivered set and own ids grow, no message disappears from the stream and
      none stops being delivered or mine. */
  lemma NothingRegresses(a: Input, b: Input, row: Row) returns (later: Row)
    requires Grows(a, b) && row in Merged(a)
    ensures later in Merged(b) && AtLeast(row, later)
  {
    hide Ordered, Grows;
    var i :| 0 <= i < |Merged(a)| && Merged(a)[i] == row;
    var base := OrderedDoesNotRegress(a, b, Ordered(a)[i]);
    var j :| 0 <= j < |Ordered(b)| && Ordered(b)[j] == base;
    later := Merged(b)[j];
  }

  ghost predicate DistinctItems(history: seq<HistoryItem>) {
    forall i, j :: 0 <= i < j < |history| ==> history[i].id != history[j].id
  }

  /** Some source says the Transfer is delivered: its record, the delivered set, or being a text. */
  ghost predicate SaysDelivered(input: Input, id: Id) {
    || (exists item :: item in input.history && item.id == id && if item.kind.File? then item.delivered else item.content.Some?)
    || (exists p :: p in input.transfers && p.transferId == id && id in input.delivered)
    || (exists t :: t in input.texts && t.transferId == id)
  }

  /** The author goes by the given identity key. */
  ghost predicate CarriesKey(author: Option<Author>, key: Option<Id>) {
    exists identity: Identity :: key == Some(identity.key) && author.Some? && author.value.identity == Some(identity)
  }

  /** Some source says the Transfer is this client's: a file with its identity key, a text it
      recorded as sent, or its own echo. */
  ghost predicate SaysMine(input: Input, id: Id) {
    || (exists item :: item in input.history && item.id == id
                       && if item.kind.File? then CarriesKey(item.author, input.selfKey)
                          else item.content.Some? && id in input.ownIds)
    || (exists p :: p in input.transfers && p.transferId == id && CarriesKey(p.author, input.selfKey))
    || (exists t :: t in input.texts && t.transferId == id && t.mine)
  }

  lemma OwnFilesCarryTheKey(author: Option<Author>, key: Option<Id>)
    ensures IsOwnFile(author, key) <==> CarriesKey(author, key)
  {
    if IsOwnFile(author, key) { assert key == Some(author.value.identity.value.key); }
  }

  ghost predicate IsRow(input: Input, row: Row) {
    row in Live(input) || row in Persisted(input.history, input)
  }

  lemma MentionsAreExactlyTheRows(input: Input, id: Id, row: Row)
    requires DistinctItems(input.history)
    ensures row in Mentions(Persisted(input.history, input), Live(input), id) <==> row.id == id && IsRow(input, row)
  {
    var persisted, live := Persisted(input.history, input), Live(input);
    if row in Mentions(persisted, live, id) { MentionsAreRows(input, id, row); }
    OfIsTheRowsWithThatId(live, id, row);
    if row in persisted { OneRowPerItem(input.history, input, row); }
  }

  lemma HistoryRowSays(item: HistoryItem, input: Input)
    ensures HistoryRow(item, input).Some? <==> item.kind.File? || item.content.Some?
    ensures HistoryRow(item, input).Some? ==>
              var row := HistoryRow(item, input).value;
              && row.id == item.id
              && (row.status.Delivered? <==> if item.kind.File? then item.delivered else true)
              && (row.mine <==> if item.kind.File? then CarriesKey(item.author, input.selfKey) else item.id in input.ownIds)
  {
    OwnFilesCarryTheKey(item.author, input.selfKey);
    hide SnippetPreview, IsOwnFile;
  }

  lemma ItemHasRow(input: Input, item: HistoryItem)
    requires item in input.history && HistoryRow(item, input).Some?
    ensures IsRow(input, HistoryRow(item, input).value)
  {
    hide HistoryRow;
    PersistedIsTheReadableItems(input.history, input, HistoryRow(item, input).value);
  }

  lemma LiveHaveRows(input: Input)
    ensures forall p | p in input.transfers :: IsRow(input, LiveFileRow(p, input))
    ensures forall t | t in input.texts :: IsRow(input, LiveTextRow(t, input))
  {
    hide LiveFileRow, LiveTextRow, Live, Persisted;
    LiveRows(input);
    forall p | p in input.transfers ensures IsRow(input, LiveFileRow(p, input)) {
      var k :| 0 <= k < |input.transfers| && input.transfers[k] == p;
      assert Live(input)[k] in Live(input);
    }
    forall t | t in input.texts ensures IsRow(input, LiveTextRow(t, input)) {
      var k :| 0 <= k < |input.texts| && input.texts[k] == t;
      assert Live(input)[|input.transfers| + k] in Live(input);
    }
  }

  lemma RowsComeFromSources(input: Input, row: Row)
    requires IsRow(input, row)
    ensures row.status.Delivered? ==> SaysDelivered(input, row.id)
    ensures row.mine ==> SaysMine(input, row.id)
  {
    hide HistoryRow, IsOwnFile, SnippetPreview, Persisted, Live, CarriesKey;
    if row in Live(input) {
      LiveRows(input);
      var n := |input.transfers|;
      var k :| 0 <= k < |Live(input)| && Live(input)[k] == row;
      if k < n {
        assert input.transfers[k] in input.transfers;
        OwnFilesCarryTheKey(input.transfers[k].author, input.selfKey);
      } else {
        assert input.texts[k - n] in input.texts;
      }
    } else {
      PersistedIsTheReadableItems(input.history, input, row);
      var item :| item in input.history && HistoryRow(item, input) == Some(row);
      HistoryRowSays(item, input);
    }
  }

  lemma DeliveredHasRow(input: Input, id: Id) returns (row: Row)
    requires SaysDelivered(input, id)
    ensures IsRow(input, row) && row.id == id && row.status.Delivered?
  {
    hide HistoryRow, IsOwnFile, SnippetPreview, IsRow;
    LiveHaveRows(input);
    if item :| item in input.history && item.id == id && if item.kind.File? then item.delivered else item.content.Some? {
      HistoryRowSays(item, input);
      ItemHasRow(input, item);
      row := HistoryRow(item, input).value;
    } else if p :| p in input.transfers && p.transferId == id && id in input.delivered {
      row := LiveFileRow(p, input);
    } else {
      var t :| t in input.texts && t.transferId == id;
      row := LiveTextRow(t, input);
    }
  }

  lemma MineHasRow(input: Input, id: Id) returns (row: Row)
    requires SaysMine(input, id)
    ensures IsRow(input, row) && row.id == id && row.mine
  {
    hide HistoryRow, IsOwnFile, CarriesKey, SnippetPreview, IsRow;
    LiveHaveRows(input);
    if item :| item in input.history && item.id == id
               && if item.kind.File? then CarriesKey(item.author, input.selfKey) else item.content.Some? && id in input.ownIds {
      HistoryRowSays(item, input);
      ItemHasRow(input, item);
      row := HistoryRow(item, input).value;
    } else if p :| p in input.transfers && p.transferId == id && CarriesKey(p.author, input.selfKey) {
      OwnFilesCarryTheKey(p.author, input.selfKey);
      row := LiveFileRow(p, input);
    } else {
      var t :| t in input.texts && t.transferId == id && t.mine;
      row := LiveTextRow(t, input);
    }
  }

  lemma MergedRowIsASummary(input: Input, row: Row)
    requires row in Merged(input)
    ensures var mentions := Mentions(Persisted(input.history, input), Live(input), row.id);
            && mentions != []
            && (row.status.Delivered? <==> AnyDelivered(mentions))
            && (row.mine <==> AnyMine(mentions))
  {
    hide Ordered, Mentions, Persisted, Live, AnyDelivered, AnyMine;
    var i :| 0 <= i < |Merged(input)| && Merged(input)[i] == row;
    assert Ordered(input)[i] in Ordered(input);
    OrderedIsAStream(input);
  }

  /** A message is shown delivered, and shown as this client's, exactly when some source says so. */
  lemma RowsSayWhatTheSourcesSay(input: Input, row: Row)
    requires DistinctItems(input.history) && row in Merged(input)
    ensures row.status.Delivered? <==> SaysDelivered(input, row.id)
    ensures row.mine <==> SaysMine(input, row.id)
  {
    hide Mentions, Persisted, Live, Merged, SaysDelivered, SaysMine, IsRow;
    MergedRowIsASummary(input, row);
    var mentions := Mentions(Persisted(input.history, input), Live(input), row.id);
    forall k | 0 <= k < |mentions| ensures mentions[k].id == row.id && IsRow(input, mentions[k]) {
      MentionsAreExactlyTheRows(input, row.id, mentions[k]);
    }
    if k :| 0 <= k < |mentions| && mentions[k].status.Delivered? { RowsComeFromSources(input, mentions[k]); }
    if k :| 0 <= k < |mentions| && mentions[k].mine { RowsComeFromSources(input, mentions[k]); }
    if SaysDelivered(input, row.id) {
      var r := DeliveredHasRow(input, row.id);
      MentionsAreExactlyTheRows(input, row.id, r);
    }
    if SaysMine(input, row.id) {
      var r := MineHasRow(input, row.id);
      MentionsAreExactlyTheRows(input, row.id, r);
    }
  }

  ghost predicate NoSpaceRuns(s: string) {
    && (forall i :: 0 <= i < |s| && IsSpace(s[i]) ==> s[i] == ' ' && i > 0 && !IsSpace(s[i - 1]))
  }

  /** The characters a preview must keep. */
  function Ink(s: string): string {
    if s == "" then "" else Ink(s[..|s| - 1]) + if IsSpace(s[|s| - 1]) then "" else [s[|s| - 1]]
  }

  lemma {:induction false} CollapsedKeepsInk(s: string)
    ensures NoSpaceRuns(Collapsed(s)) && Ink(Collapsed(s)) == Ink(s)
  {
    if s != "" {
      var init := Collapsed(s[..|s| - 1]);
      CollapsedKeepsInk(s[..|s| - 1]);
      assert (init + [s[|s| - 1]])[..|init|] == init;
      assert (init + " ")[..|init|] == init;
    }
  }

  /** The maximal runs of characters between whitespace. */
  function Words(s: string): (words: seq<string>)
    ensures s != "" && !IsSpace(s[|s| - 1]) ==> words != []
    ensures forall i :: 0 <= i < |words| ==> words[i] != "" && forall j :: 0 <= j < |words[i]| ==> !IsSpace(words[i][j])
  {
    if s == "" then []
    else
      var before, last := s[..|s| - 1], s[|s| - 1];
      var words := Words(before);
      if IsSpace(last) then words
      else if before == "" || IsSpace(before[|before| - 1]) then words + [[last]]
      else words[|words| - 1 := words[|words| - 1] + [last]]
  }

  function Joined(words: seq<string>): string {
    if words == [] then ""
    else if |words| == 1 then words[0]
    else Joined(words[..|words| - 1]) + " " + words[|words| - 1]
  }

  lemma JoinedEndsInItsLastWord(words: seq<string>)
    requires words != [] && words[|words| - 1] != ""
    ensures var last := words[|words| - 1]; var s := Joined(words); s != "" && s[|s| - 1] == last[|last| - 1]
  {
  }

  lemma JoinedGrows(words: seq<string>, c: char)
    ensures Joined(words + [[c]]) == if words == [] then [c] else Joined(words) + " " + [c]
    ensures words != [] ==>
              Joined(words[|words| - 1 := words[|words| - 1] + [c]]) == Joined(words) + [c]
  {
    assert (words + [[c]])[..|words|] == words;
    if |words| > 1 {
      var n := |words| - 1;
      assert words[n := words[n] + [c]][..n] == words[..n];
    }
  }

  /** Words joined, with the space that waits for a next word. */
  function Pending(words: seq<string>, spaced: bool): string {
    Joined(words) + if spaced && words != [] then " " else ""
  }

  predicate EndsInSpace(s: string) {
    s != "" && IsSpace(s[|s| - 1])
  }

  lemma SpaceMakesPending(words: seq<string>, spaced: bool)
    requires words != [] ==> words[|words| - 1] != "" && !EndsInSpace(words[|words| - 1])
    ensures var c := Pending(words, spaced);
            Pending(words, true) == if c == "" || c[|c| - 1] == ' ' then c else c + " "
  {
    BlankIsSpace();
    if words != [] { JoinedEndsInItsLastWord(words); }
  }

  lemma OneMoreCharacter(before: string, last: char)
    ensures var c := Collapsed(before);
            Collapsed(before + [last]) ==
            if !IsSpace(last) then c + [last] else if c == "" || c[|c| - 1] == ' ' then c else c + " "
    ensures var w := Words(before);
            Words(before + [last]) ==
            if IsSpace(last) then w
            else if before == "" || IsSpace(before[|before| - 1]) then w + [[last]]
            else w[|w| - 1 := w[|w| - 1] + [last]]
    ensures EndsInSpace(before + [last]) == IsSpace(last)
  {
    hide IsSpace;
    assert (before + [last])[..|before + [last]| - 1] == before;
  }

  lemma WordsEndWell(s: string)
    ensures var words := Words(s); words != [] ==> words[|words| - 1] != "" && !EndsInSpace(words[|words| - 1])
  {
    hide IsSpace, Words;
  }

  /** A letter continues the last word, or begins one after a space. */
  lemma LetterJoins(before: string, last: char)
    requires !IsSpace(last)
    ensures var words := Words(before);
            var longer := if before == "" || IsSpace(before[|before| - 1]) then words + [[last]]
                          else words[|words| - 1 := words[|words| - 1] + [last]];
            Pending(longer, false) == Pending(words, EndsInSpace(before)) + [last]
  {
    JoinedGrows(Words(before), last);
    hide Joined, IsSpace, Words;
    assert Joined(Words(before)) + " " + [last] == (Joined(Words(before)) + " ") + [last];
    NoWords();
  }

  lemma NoWords()
    ensures Joined([]) == "" && Words("") == []
  {
  }

  lemma {:induction false} CollapsedJoinsWords(s: string)
    ensures Collapsed(s) == Pending(Words(s), EndsInSpace(s))
  {
    if s != "" {
      var before, last := s[..|s| - 1], s[|s| - 1];
      var words := Words(before);
      CollapsedJoinsWords(before);
      assert s == before + [last];
      OneMoreCharacter(before, last);
      hide Joined, IsSpace, Collapsed, Words, EndsInSpace, Pending;
      if IsSpace(last) {
        WordsEndWell(before);
        SpaceMakesPending(words, EndsInSpace(before));
      } else {
        LetterJoins(before, last);
      }
    }
  }

  lemma BlankIsSpace()
    ensures IsSpace(' ')
  {
  }

  lemma InkOfLast(before: string, last: char)
    ensures Ink(before + [last]) == Ink(before) + if IsSpace(last) then "" else [last]
  {
    hide IsSpace;
    assert (before + [last])[..|before + [last]| - 1] == before;
  }

  lemma StrippingKeepsInk(s: string)
    requires NoSpaceRuns(s)
    ensures var p := if s != "" && s[|s| - 1] == ' ' then s[..|s| - 1] else s;
            NoSpaceRuns(p) && Ink(p) == Ink(s) && (p != "" ==> !IsSpace(p[|p| - 1]))
  {
    BlankIsSpace();
    if s != "" {
      assert s == s[..|s| - 1] + [s[|s| - 1]];
      InkOfLast(s[..|s| - 1], s[|s| - 1]);
    }
    hide Ink, IsSpace;
  }

  lemma PreviewKeepsInk(content: string)
    ensures var p := SnippetPreview(content);
            NoSpaceRuns(p) && Ink(p) == Ink(content) && (p != "" ==> !IsSpace(p[|p| - 1]))
  {
    hide Ink, IsSpace, Collapsed, NoSpaceRuns;
    CollapsedKeepsInk(content);
    StrippingKeepsInk(Collapsed(content));
  }

  lemma StrippedPending(words: seq<string>, spaced: bool)
    requires words != [] ==> words[|words| - 1] != "" && !EndsInSpace(words[|words| - 1])
    ensures var c := Pending(words, spaced);
            (if c != "" && c[|c| - 1] == ' ' then c[..|c| - 1] else c) == Joined(words)
  {
    BlankIsSpace();
    if words != [] { JoinedEndsInItsLastWord(words); }
  }

  /** A preview is one line: exactly the words of the content, one space apart. */
  lemma PreviewIsOneLine(content: string)
    ensures SnippetPreview(content) == Joined(Words(content))
    ensures var p := SnippetPreview(content);
            NoSpaceRuns(p) && Ink(p) == Ink(content) && (p != "" ==> !IsSpace(p[|p| - 1]))
  {
    hide Joined, Ink, Collapsed, IsSpace, Pending, NoSpaceRuns;
    PreviewKeepsInk(content);
    CollapsedJoinsWords(content);
    StrippedPending(Words(content), EndsInSpace(content));
  }
}
