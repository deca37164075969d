/** The Drop Zone's local file queue, apps/web/src/features/room/hooks/useFileQueue.ts. */
module FileQueue {
  import opened Common
  import opened Decimals
  import Chunking

  /** The browser's File as far as the queue looks at it. */
  datatype File = File(name: string, size: nat, lastModified: int)

  datatype Queued = Queued(id: string, file: File, empty: bool)

  datatype Notice = AlreadyQueued | TooLarge(name: string) | FoldersUnsupported

  const MAX_FILE_SIZE_BYTES: nat := Chunking.DEFAULT_MAX_FILE_SIZE_BYTES

  predicate Ignored(file: File) {
    file.name == ".DS_Store" || file.name == "Thumbs.db"
  }

  function Signed(i: int): string {
    if i < 0 then "-" + Decimal(-i) else Decimal(i)
  }

  function FileKey(file: File): string {
    file.name + ("|" + Decimal(file.size) + ("|" + Signed(file.lastModified)))
  }

  /** The text after the last bar is determined by the whole. */
  lemma LastPartIsDetermined(x: string, y: string, a: string, b: string)
    requires '|' !in a && '|' !in b
    requires x + ("|" + a) == y + ("|" + b)
    ensures x == y && a == b
  {
    var s, t := x + ("|" + a), y + ("|" + b);
    assert s[|x|] == '|' && t[|y|] == '|';
    assert forall i :: 0 <= i < |a| ==> s[|x| + 1 + i] == a[i];
    assert forall i :: 0 <= i < |b| ==> t[|y| + 1 + i] == b[i];
    assert forall i :: |x| < i < |s| ==> s[i] == a[i - |x| - 1];
    assert forall i :: |y| < i < |t| ==> t[i] == b[i - |y| - 1];
    assert |x| == |y|;
    assert x == s[..|x|] && y == t[..|y|] && a == s[|x| + 1..] && b == t[|y| + 1..];
  }

  lemma SignedIsInjective(i: int, j: int)
    requires Signed(i) == Signed(j)
    ensures i == j
  {
    assert Signed(i)[0] == '-' <==> i < 0;
    assert Signed(j)[0] == '-' <==> j < 0;
    var m, n := if i < 0 then -i else i, if j < 0 then -j else j;
    assert i < 0 ==> Signed(i)[1..] == Decimal(m) && Signed(j)[1..] == Decimal(n);
    ValueOfDecimal(m);
    ValueOfDecimal(n);
  }

  /** The row key tells files apart exactly by name, size and modification time, bars in names or
      not. */
  lemma FileKeyIsInjective(f: File, g: File)
    ensures FileKey(f) == FileKey(g) <==> f == g
  {
    if FileKey(f) == FileKey(g) {
      var x, y := f.name + ("|" + Decimal(f.size)), g.name + ("|" + Decimal(g.size));
      assert FileKey(f) == x + ("|" + Signed(f.lastModified)) && FileKey(g) == y + ("|" + Signed(g.lastModified));
      LastPartIsDetermined(x, y, Signed(f.lastModified), Signed(g.lastModified));
      LastPartIsDetermined(f.name, g.name, Decimal(f.size), Decimal(g.size));
      SignedIsInjective(f.lastModified, g.lastModified);
      ValueOfDecimal(f.size);
      ValueOfDecimal(g.size);
    }
  }

  predicate HasId(files: seq<Queued>, id: string) {
    exists i :: 0 <= i < |files| && files[i].id == id
  }

  ghost predicate DistinctIds(files: seq<Queued>) {
    forall i, j :: 0 <= i < j < |files| ==> files[i].id != files[j].id
  }

  ghost predicate QueueOk(files: seq<Queued>) {
    && DistinctIds(files)
    && (forall i :: 0 <= i < |files| ==> files[i] == Row(files[i].file) && Acceptable(files[i].file))
  }

  predicate Acceptable(file: File) {
    !Ignored(file) && file.size <= MAX_FILE_SIZE_BYTES
  }

  function Row(file: File): Queued {
    Queued(FileKey(file), file, file.size == 0)
  }

  /** A file of a drop joins if it is acceptable, not queued, and not dropped `before`. */
  ghost predicate Joins(queue: seq<Queued>, before: seq<File>, file: File) {
    Acceptable(file) && Row(file) !in queue && file !in before
  }

  /** What a drop adds, in the order dropped. */
  ghost function Joining(queue: seq<Queued>, incoming: seq<File>): seq<Queued> {
    if incoming == [] then []
    else
      var before, file := incoming[..|incoming| - 1], incoming[|incoming| - 1];
      Joining(queue, before) + if Joins(queue, before, file) then [Row(file)] else []
  }

  /** Why a file was turned away, if it was; artefacts are dropped silently. */
  ghost function Objection(queue: seq<Queued>, before: seq<File>, file: File): Option<Notice> {
    if Ignored(file) || Joins(queue, before, file) then None
    else if file.size > MAX_FILE_SIZE_BYTES then Some(TooLarge(file.name))
    else Some(AlreadyQueued)
  }

  /** The one notice slot keeps the last objection. */
  ghost function LastObjection(queue: seq<Queued>, incoming: seq<File>): Option<Notice> {
    if incoming == [] then None
    else
      var before, file := incoming[..|incoming| - 1], incoming[|incoming| - 1];
      var objection := Objection(queue, before, file);
      if objection.Some? then objection else LastObjection(queue, before)
  }

  lemma {:induction false} JoiningHasExactly(queue: seq<Queued>, incoming: seq<File>, file: File)
    ensures Row(file) in Joining(queue, incoming) <==> file in incoming && Acceptable(file) && Row(file) !in queue
    ensures forall q | q in Joining(queue, incoming) :: q == Row(q.file)
  {
    if incoming != [] {
      var n := |incoming| - 1;
      assert incoming == incoming[..n] + [incoming[n]];
      JoiningHasExactly(queue, incoming[..n], file);
    }
  }

  lemma {:induction false} JoiningKeepsIdsDistinct(queue: seq<Queued>, incoming: seq<File>)
    requires QueueOk(queue)
    ensures QueueOk(queue + Joining(queue, incoming))
  {
    if incoming == [] {
      assert queue + Joining(queue, incoming) == queue;
    } else {
      var n := |incoming| - 1;
      var before := queue + Joining(queue, incoming[..n]);
      JoiningKeepsIdsDistinct(queue, incoming[..n]);
      var file := incoming[n];
      if Joins(queue, incoming[..n], file) {
        assert queue + Joining(queue, incoming) == before + [Row(file)];
        JoiningHasExactly(queue, incoming[..n], file);
        forall i | 0 <= i < |before| ensures before[i].id != FileKey(file) {
          assert before[i] in before;
          FileKeyIsInjective(before[i].file, file);
        }
      } else {
        assert queue + Joining(queue, incoming) == before;
      }
    }
  }

  /** A row is queued after a drop exactly when it was before, or its file was dropped and is
      acceptable; row keys stay distinct. */
  lemma DropsQueueExactlyTheAcceptable(queue: seq<Queued>, incoming: seq<File>, file: File)
    requires QueueOk(queue)
    ensures var after := queue + Joining(queue, incoming);
            && QueueOk(after)
            && (Row(file) in after <==> Row(file) in queue || (file in incoming && Acceptable(file)))
  {
    JoiningKeepsIdsDistinct(queue, incoming);
    JoiningHasExactly(queue, incoming, file);
  }

  /** What a drop adds: files of the drop that are neither an artefact of the operating system nor over
      5 GiB, each marked as empty exactly when it is, under its own key. */
  lemma AddedRowsSayWhatTheyAre(queue: seq<Queued>, incoming: seq<File>, row: Queued)
    requires row in Joining(queue, incoming)
    ensures row.file in incoming && row.id == FileKey(row.file) && (row.empty <==> row.file.size == 0)
    ensures row.file.name != ".DS_Store" && row.file.name != "Thumbs.db" && row.file.size <= 5 * 1024 * 1024 * 1024
  {
    JoiningHasExactly(queue, incoming, row.file);
    hide FileKey;
  }

  /** Everything else of a drop is queued, whatever its name. */
  lemma OrdinaryFilesAreQueued(queue: seq<Queued>, incoming: seq<File>, file: File) returns (row: Queued)
    requires file in incoming && file.size <= 5 * 1024 * 1024 * 1024
    requires file.name != ".DS_Store" && file.name != "Thumbs.db"
    ensures row in queue + Joining(queue, incoming) && row.file == file
  {
    JoiningHasExactly(queue, incoming, file);
    row := Row(file);
    hide FileKey;
  }

  /** The set of keys seen so far answers whether a file is queued or was dropped before; a dropped
      file that is not queued then was turned away. */
  lemma SeenMeansQueued(queue: seq<Queued>, before: seq<File>, file: File)
    requires QueueOk(queue)
    ensures FileKey(file) in (set q | q in queue + Joining(queue, before) :: q.id)
       <==> Row(file) in queue || (file in before && Acceptable(file))
    ensures Row(file) in queue ==> Acceptable(file)
  {
    JoiningKeepsIdsDistinct(queue, before);
    JoiningHasExactly(queue, before, file);
    var after := queue + Joining(queue, before);
    if q :| q in after && q.id == FileKey(file) {
      FileKeyIsInjective(q.file, file);
    }
    if Row(file) in after {
      assert Row(file).id == FileKey(file);
    }
  }

  /** File i of the drop neither joined nor was an artefact. */
  ghost predicate TurnedAway(queue: seq<Queued>, incoming: seq<File>, i: nat)
    requires i < |incoming|
  {
    !Ignored(incoming[i]) && !Joins(queue, incoming[..i], incoming[i])
  }

  ghost predicate LastTurnedAway(queue: seq<Queued>, incoming: seq<File>, i: nat) {
    i < |incoming| && TurnedAway(queue, incoming, i) && forall j :: i < j < |incoming| ==> !TurnedAway(queue, incoming, j)
  }

  lemma TurnedAwayFromPrefix(queue: seq<Queued>, incoming: seq<File>, n: nat, i: nat)
    requires i < n <= |incoming|
    ensures TurnedAway(queue, incoming[..n], i) <==> TurnedAway(queue, incoming, i)
  {
    assert incoming[..n][..i] == incoming[..i];
  }

  lemma ObjectsExactlyWhenTurnedAway(queue: seq<Queued>, incoming: seq<File>, i: nat)
    requires i < |incoming|
    ensures Objection(queue, incoming[..i], incoming[i])
         == if !TurnedAway(queue, incoming, i) then None
            else Some(if incoming[i].size > MAX_FILE_SIZE_BYTES then TooLarge(incoming[i].name) else AlreadyQueued)
  {
  }

  /** A drop leaves no notice exactly when it turned nothing away. */
  lemma {:induction false} SilentExactlyWhenNothingTurnedAway(queue: seq<Queued>, incoming: seq<File>)
    ensures LastObjection(queue, incoming).None? <==> forall i :: 0 <= i < |incoming| ==> !TurnedAway(queue, incoming, i)
  {
    if incoming != [] {
      var n := |incoming| - 1;
      SilentExactlyWhenNothingTurnedAway(queue, incoming[..n]);
      ObjectsExactlyWhenTurnedAway(queue, incoming, n);
      hide TurnedAway, Objection;
      forall i | 0 <= i < n ensures TurnedAway(queue, incoming[..n], i) <==> TurnedAway(queue, incoming, i) {
        TurnedAwayFromPrefix(queue, incoming, n, i);
      }
    }
  }

  /** Otherwise the notice is about the last file turned away: its size if that is too large, and
      that it is queued already if not. */
  lemma {:induction false} NoticeIsAboutTheLastTurnedAway(queue: seq<Queued>, incoming: seq<File>, i: nat)
    requires LastTurnedAway(queue, incoming, i)
    ensures LastObjection(queue, incoming)
         == Some(if incoming[i].size > MAX_FILE_SIZE_BYTES then TooLarge(incoming[i].name) else AlreadyQueued)
  {
    var n := |incoming| - 1;
    ObjectsExactlyWhenTurnedAway(queue, incoming, n);
    hide TurnedAway, Objection;
    if i < n {
      forall j | 0 <= j < n ensures TurnedAway(queue, incoming[..n], j) <==> TurnedAway(queue, incoming, j) {
        TurnedAwayFromPrefix(queue, incoming, n, j);
      }
      NoticeIsAboutTheLastTurnedAway(queue, incoming[..n], i);
    }
  }

  function RemoveAt<T>(s: seq<T>, i: nat): seq<T>
    requires i < |s|
  {
    s[..i] + s[i + 1..]
  }

  /** Both splices of a reorder. */
  function Moved<T>(s: seq<T>, from: nat, to: nat): seq<T>
    requires from < |s| && to < |s|
  {
    var rest := RemoveAt(s, from);
    rest[..to] + [s[from]] + rest[to..]
  }

  /** An element put among others at k is there, and taking it out leaves the others. */
  lemma PuttingBack<T>(rest: seq<T>, x: T, k: nat)
    requires k <= |rest|
    ensures var all := rest[..k] + [x] + rest[k..];
            && |all| == |rest| + 1 && all[k] == x && RemoveAt(all, k) == rest && multiset(all) == multiset(rest) + multiset{x}
  {
    var all := rest[..k] + [x] + rest[k..];
    assert RemoveAt(all, k) == rest;
    assert rest == rest[..k] + rest[k..];
  }

  /** A move puts the row where it was dropped, keeps all others in order, loses and duplicates
      nothing, and is undone by the opposite move. */
  lemma MovesAreReversible<T>(s: seq<T>, from: nat, to: nat)
    requires from < |s| && to < |s|
    ensures var m := Moved(s, from, to);
            && |m| == |s| && m[to] == s[from]
            && RemoveAt(m, to) == RemoveAt(s, from)
            && multiset(m) == multiset(s)
            && Moved(m, to, from) == s
  {
    var rest, m := RemoveAt(s, from), Moved(s, from, to);
    PuttingBack(rest, s[from], to);
    assert s == rest[..from] + [s[from]] + rest[from..];
    PuttingBack(rest, s[from], from);
    hide RemoveAt;
  }

  lemma RemovingKeepsOk(files: seq<Queued>, k: nat)
    requires QueueOk(files) && k < |files|
    ensures QueueOk(RemoveAt(files, k)) && !HasId(RemoveAt(files, k), files[k].id)
  {
    hide FileKey;
    var r := RemoveAt(files, k);
    assert forall i :: 0 <= i < |r| ==> r[i] == files[if i < k then i else i + 1];
  }

  lemma InsertingKeepsOk(files: seq<Queued>, k: nat)
    requires k < |files| && QueueOk(RemoveAt(files, k)) && !HasId(RemoveAt(files, k), files[k].id)
    requires files[k] == Row(files[k].file) && Acceptable(files[k].file)
    ensures QueueOk(files)
  {
    hide FileKey;
    var r := RemoveAt(files, k);
    assert forall i :: 0 <= i < |files| && i != k ==> files[i] == r[if i < k then i else i - 1];
  }

  lemma MovingKeepsOk(files: seq<Queued>, from: nat, to: nat)
    requires QueueOk(files) && from < |files| && to < |files|
    ensures QueueOk(Moved(files, from, to))
  {
    RemovingKeepsOk(files, from);
    MovesAreReversible(files, from, to);
    InsertingKeepsOk(Moved(files, from, to), to);
  }

  /** The rows a removal keeps. */
  function Kept(files: seq<Queued>, id: string): seq<Queued> {
    if files == [] then []
    else Kept(files[..|files| - 1], id) + if files[|files| - 1].id != id then [files[|files| - 1]] else []
  }

  lemma LastRowOfKept(files: seq<Queued>, n: nat, id: string)
    requires |files| == n + 1
    ensures Kept(files, id) == Kept(files[..n], id) + if files[n].id != id then [files[n]] else []
  {
  }

  lemma {:induction false} AbsentIdsKeepEverything(files: seq<Queued>, id: string)
    requires forall i :: 0 <= i < |files| ==> files[i].id != id
    ensures Kept(files, id) == files
  {
    if files != [] {
      var n := |files| - 1;
      LastRowOfKept(files, n, id);
      AbsentIdsKeepEverything(files[..n], id);
      hide Kept;
      assert files == files[..n] + [files[n]];
    }
  }

  lemma {:induction false} PresentIdLosesItsRow(files: seq<Queued>, k: nat)
    requires DistinctIds(files) && k < |files|
    ensures Kept(files, files[k].id) == RemoveAt(files, k)
  {
    var n := |files| - 1;
    LastRowOfKept(files, n, files[k].id);
    hide Kept;
    if k < n {
      PresentIdLosesItsRow(files[..n], k);
      assert files[k].id != files[n].id;
      assert RemoveAt(files, k) == RemoveAt(files[..n], k) + [files[n]];
    } else {
      AbsentIdsKeepEverything(files[..n], files[k].id);
      assert RemoveAt(files, k) == files[..n];
    }
  }

  /** Removing takes exactly the named row, if there is one, and keeps the rest in order. */
  lemma RemovalTakesTheRow(files: seq<Queued>, id: string)
    requires QueueOk(files)
    ensures QueueOk(Kept(files, id)) && !HasId(Kept(files, id), id)
    ensures if HasId(files, id)
            then exists k :: 0 <= k < |files| && files[k].id == id && Kept(files, id) == RemoveAt(files, k)
            else Kept(files, id) == files
  {
    hide FileKey;
    if HasId(files, id) {
      var k :| 0 <= k < |files| && files[k].id == id;
      PresentIdLosesItsRow(files, k);
      RemovingKeepsOk(files, k);
    } else {
      AbsentIdsKeepEverything(files, id);
    }
  }

  class DropQueue {
    var files: seq<Queued>
    var notice: Option<Notice>

    constructor ()
      ensures files == [] && notice == None && QueueOk(files)
    {
      files, notice := [], None;
    }

    method RejectFolder()
      modifies this
      ensures files == old(files) && notice == Some(FoldersUnsupported)
    {
      notice := Some(FoldersUnsupported);
    }

    method AddFiles(incoming: seq<File>)
      requires QueueOk(files)
      modifies this
      ensures files == old(files) + Joining(old(files), incoming)
      ensures notice == LastObjection(old(files), incoming)
      ensures QueueOk(files)
    {
      hide QueueOk, FileKey;
      var next := files;
      var seen := set q | q in files :: q.id;
      var pending: Option<Notice> := None;
      JoiningKeepsIdsDistinct(files, incoming);
      for i := 0 to |incoming|
        invariant files == old(files)
        invariant next == files + Joining(files, incoming[..i])
        invariant seen == set q | q in next :: q.id
        invariant pending == LastObjection(files, incoming[..i])
      {
        var file := incoming[i];
        assert incoming[..i + 1][..i] == incoming[..i];
        SeenMeansQueued(files, incoming[..i], file);
        if Ignored(file) {
          continue;
        }
        var id := FileKey(file);
        if id in seen {
          pending := Some(AlreadyQueued);
          continue;
        }
        if file.size > MAX_FILE_SIZE_BYTES {
          pending := Some(TooLarge(file.name));
          continue;
        }
        seen := seen + {id};
        next := next + [Queued(id, file, file.size == 0)];
      }
      assert incoming[..|incoming|] == incoming;
      notice := pending;
      files := next;
    }

    method RemoveFile(id: string)
      requires QueueOk(files)
      modifies this
      ensures files == Kept(old(files), id) && QueueOk(files) && notice == old(notice)
    {
      hide QueueOk, FileKey;
      var kept := [];
      for i := 0 to |files|
        invariant files == old(files) && kept == Kept(files[..i], id)
      {
        assert files[..i + 1][..i] == files[..i];
        if files[i].id != id {
          kept := kept + [files[i]];
        }
      }
      assert files[..|files|] == files;
      RemovalTakesTheRow(files, id);
      files := kept;
    }

    method IndexOf(id: string) returns (k: Option<nat>)
      ensures k.None? <==> !HasId(files, id)
      ensures k.Some? ==> k.value < |files| && files[k.value].id == id
    {
      for i := 0 to |files|
        invariant !HasId(files[..i], id)
      {
        if files[i].id == id {
          return Some(i);
        }
      }
      return None;
    }

    method ReorderFiles(activeId: string, overId: string)
      requires QueueOk(files)
      modifies this
      ensures QueueOk(files) && notice == old(notice)
      ensures if HasId(old(files), activeId) && HasId(old(files), overId)
              then exists from, to :: 0 <= from < |old(files)| && 0 <= to < |old(files)|
                                      && old(files)[from].id == activeId && old(files)[to].id == overId
                                      && files == Moved(old(files), from, to)
              else files == old(files)
    {
      hide FileKey;
      var from := IndexOf(activeId);
      var to := IndexOf(overId);
      if from.None? || to.None? {
        return;
      }
      if activeId == overId {
        assert Moved(files, from.value, to.value) == files;
        return;
      }
      MovingKeepsOk(files, from.value, to.value);
      hide QueueOk;
      var next := files[..from.value] + files[from.value + 1..];
      next := next[..to.value] + [files[from.value]] + next[to.value..];
      files := next;
    }
  }
}
