/** Object keys of apps/api/src/domain/transfer/storage-key.ts, as the text storage sees. */
module StorageKey {
  import opened Common
  import opened Decimals
  import opened ObjectStorage
  import Chunking

  const PAD_WIDTH: nat := 5

  function FileObjectKey(room: Id, transfer: Id): string {
    "rooms/" + room.text + "/transfers/" + transfer.text + "/file"
  }

  function ChunkObjectKey(room: Id, transfer: Id, index: nat): string {
    "rooms/" + room.text + "/transfers/" + transfer.text + "/chunks/" + Padded(index, PAD_WIDTH)
  }

  function Render(key: ObjectKey): string {
    match key
    case FileObject(room, transfer) => FileObjectKey(room, transfer)
    case ChunkObject(room, transfer, index) => ChunkObjectKey(room, transfer, index)
  }

  /** Database ids (cuid) and reserved ids (uuid) contain no slash. */
  predicate SlashFree(id: Id) {
    '/' !in id.text
  }

  predicate SlashFreeKey(key: ObjectKey) {
    SlashFree(key.room) && SlashFree(key.transfer)
  }

  /** The text up to the first slash after `prefix` is determined by the whole. */
  lemma SegmentsAreDetermined(prefix: string, a: string, b: string, x: string, y: string)
    requires '/' !in a && '/' !in b
    requires x != [] && x[0] == '/' && y != [] && y[0] == '/'
    requires prefix + a + x == prefix + b + y
    ensures a == b && x == y
  {
    var n := |prefix|;
    var s, t := prefix + a + x, prefix + b + y;
    assert s[n + |a|] == '/' && t[n + |b|] == '/';
    assert forall i :: 0 <= i < |a| ==> s[n + i] == a[i];
    assert forall i :: 0 <= i < |b| ==> t[n + i] == b[i];
    assert a == s[n..n + |a|] && b == t[n..n + |b|];
    assert x == s[n + |a|..] && y == t[n + |b|..];
  }

  function Tail(key: ObjectKey): string {
    match key
    case FileObject(_, _) => "/file"
    case ChunkObject(_, _, index) => "/chunks/" + Padded(index, PAD_WIDTH)
  }

  lemma KeyIsPrefixAndTail(key: ObjectKey)
    ensures Render(key) == "rooms/" + key.room.text + ("/transfers/" + key.transfer.text + Tail(key))
  {
  }

  lemma TailsTellIndicesApart(a: ObjectKey, b: ObjectKey)
    requires Tail(a) == Tail(b) && a.room == b.room && a.transfer == b.transfer
    ensures a == b
  {
    assert Tail(a)[1] == if a.FileObject? then 'f' else 'c';
    if a.ChunkObject? && b.ChunkObject? {
      assert Tail(a)[8..] == Padded(a.index, PAD_WIDTH) && Tail(b)[8..] == Padded(b.index, PAD_WIDTH);
      ValueOfPadded(a.index, PAD_WIDTH);
      ValueOfPadded(b.index, PAD_WIDTH);
    }
  }

  /** Different objects never share a key: the text determines Room, Transfer, kind and index. */
  lemma KeysAreInjective(a: ObjectKey, b: ObjectKey)
    requires SlashFreeKey(a) && SlashFreeKey(b)
    ensures Render(a) == Render(b) <==> a == b
  {
    if Render(a) == Render(b) {
      KeyIsPrefixAndTail(a);
      KeyIsPrefixAndTail(b);
      var restA, restB := "/transfers/" + a.transfer.text + Tail(a), "/transfers/" + b.transfer.text + Tail(b);
      SegmentsAreDetermined("rooms/", a.room.text, b.room.text, restA, restB);
      SegmentsAreDetermined("/transfers/", a.transfer.text, b.transfer.text, Tail(a), Tail(b));
      TailsTellIndicesApart(a, b);
    }
  }

  /** Order of text by code unit, as object listings use it. */
  ghost predicate Before(a: string, b: string) {
    a < b || exists k :: 0 <= k < |a| && k < |b| && a[..k] == b[..k] && a[k] < b[k]
  }

  lemma {:induction false} CommonPrefix(a: string, b: string) returns (k: nat)
    ensures k <= |a| && k <= |b| && a[..k] == b[..k]
    ensures k < |a| && k < |b| ==> a[k] != b[k]
  {
    k := 0;
    while k < |a| && k < |b| && a[k] == b[k]
      invariant k <= |a| && k <= |b| && a[..k] == b[..k]
    {
      assert a[..k + 1] == a[..k] + [a[k]] && b[..k + 1] == b[..k] + [b[k]];
      k := k + 1;
    }
  }

  lemma PrefixKeepsOrder(p: string, a: string, b: string)
    requires Before(a, b)
    ensures Before(p + a, p + b)
  {
    if a < b {
      assert p + b == p + a + b[|a|..];
    } else {
      var n := |p|;
      var k :| 0 <= k < |a| && k < |b| && a[..k] == b[..k] && a[k] < b[k];
      assert (p + a)[..n + k] == p + a[..k] && (p + b)[..n + k] == p + b[..k];
      assert (p + a)[n + k] == a[k] && (p + b)[n + k] == b[k];
    }
  }

  lemma CommonPrefixKeepsOrder(p: string, a: string, b: string)
    requires Before(p + a, p + b)
    ensures Before(a, b)
  {
    var n := |p|;
    var s, t := p + a, p + b;
    assert a == s[n..] && b == t[n..];
    if s < t {
      assert b[..|a|] == t[n..n + |a|];
    } else {
      var k :| 0 <= k < |s| && k < |t| && s[..k] == t[..k] && s[k] < t[k];
      assert k >= n by {
        assert forall i :: 0 <= i < n ==> s[i] == p[i] == t[i];
      }
      assert a[..k - n] == s[..k][n..] == t[..k][n..] == b[..k - n];
      assert a[k - n] == s[k] && b[k - n] == t[k];
    }
  }

  lemma PrefixDoesNotMatter(p: string, a: string, b: string)
    ensures Before(p + a, p + b) <==> Before(a, b)
  {
    if Before(a, b) { PrefixKeepsOrder(p, a, b); }
    if Before(p + a, p + b) { CommonPrefixKeepsOrder(p, a, b); }
  }

  /** Equally long digit strings are ordered as text exactly as their values are. */
  lemma EqualLengthOrder(a: string, b: string)
    requires AllDigits(a) && AllDigits(b) && |a| == |b|
    ensures Before(a, b) <==> Value(a) < Value(b)
  {
    var k := CommonPrefix(a, b);
    if k == |a| {
      assert a[..k] == a && b[..k] == b;
    } else if a[k] < b[k] {
      FirstDifferenceDecides(a, b, k);
    } else {
      FirstDifferenceDecides(b, a, k);
      if Before(a, b) {
        var j :| 0 <= j < |a| && a[..j] == b[..j] && a[j] < b[j];
        FirstDifferenceDecides(a, b, j);
      }
    }
  }

  lemma FiveDigits(n: nat)
    requires n < 100000
    ensures |Padded(n, PAD_WIDTH)| == PAD_WIDTH
  {
    DecimalLength(n, PAD_WIDTH);
    assert Power10(5) == 10 * Power10(4) == 100 * Power10(3) == 1000 * Power10(2);
    assert Power10(2) == 10 * Power10(1) == 100 * Power10(0);
  }

  /** Within one Transfer, keys of chunks below 100000 are listed in chunk order. */
  lemma ListingFollowsChunkOrder(room: Id, transfer: Id, i: nat, j: nat)
    requires i < 100000 && j < 100000
    ensures Before(ChunkObjectKey(room, transfer, i), ChunkObjectKey(room, transfer, j)) <==> i < j
  {
    PrefixDoesNotMatter("rooms/" + room.text + "/transfers/" + transfer.text + "/chunks/",
                        Padded(i, PAD_WIDTH), Padded(j, PAD_WIDTH));
    FiveDigits(i);
    FiveDigits(j);
    ValueOfPadded(i, PAD_WIDTH);
    ValueOfPadded(j, PAD_WIDTH);
    EqualLengthOrder(Padded(i, PAD_WIDTH), Padded(j, PAD_WIDTH));
  }

  /** The keys of the first `n` chunks are listed in chunk order. */
  ghost predicate ListedInOrder(room: Id, transfer: Id, n: nat) {
    forall i: nat, j: nat :: i < j < n ==> Before(ChunkObjectKey(room, transfer, i), ChunkObjectKey(room, transfer, j))
  }

  /** The first six-digit key sorts before the key of chunk 99999. */
  lemma SixthDigitBreaksTheOrder(room: Id, transfer: Id)
    ensures !Before(ChunkObjectKey(room, transfer, 99999), ChunkObjectKey(room, transfer, 100000))
  {
    PrefixDoesNotMatter("rooms/" + room.text + "/transfers/" + transfer.text + "/chunks/",
                        Padded(99999, PAD_WIDTH), Padded(100000, PAD_WIDTH));
    Decimal99999();
    var a, b := Padded(99999, PAD_WIDTH), Padded(100000, PAD_WIDTH);
    assert forall k :: 0 < k <= |a| ==> a[..k][0] == '9';
    assert forall k :: 0 < k <= |b| ==> b[..k][0] == '1';
  }

  lemma Decimal99999()
    ensures Decimal(99999) == "99999" && Decimal(100000) == "100000"
  {
    assert Decimal(9) == "9" && Decimal(99) == "99" && Decimal(999) == "999" && Decimal(9999) == "9999";
    assert Decimal(1) == "1" && Decimal(10) == "10" && Decimal(100) == "100" && Decimal(1000) == "1000";
    assert Decimal(10000) == "10000";
  }

  /** Five padded digits keep listings in chunk order for exactly the first 100000 chunks. */
  lemma FiveDigitsOrderExactly100000Chunks(room: Id, transfer: Id, n: nat)
    ensures ListedInOrder(room, transfer, n) <==> n <= 100000
  {
    if n <= 100000 {
      forall i: nat, j: nat | i < j < n
        ensures Before(ChunkObjectKey(room, transfer, i), ChunkObjectKey(room, transfer, j))
      {
        ListingFollowsChunkOrder(room, transfer, i, j);
      }
    } else {
      SixthDigitBreaksTheOrder(room, transfer);
    }
  }

  /** Every file the default limit admits is listed in chunk order. */
  lemma EveryAdmittedFileIsListedInOrder(room: Id, transfer: Id, size: nat)
    requires 0 < size <= Chunking.DEFAULT_MAX_FILE_SIZE_BYTES
    ensures ListedInOrder(room, transfer, Chunking.ChunkCountFor(size).value)
  {
    FiveDigitsOrderExactly100000Chunks(room, transfer, Chunking.ChunkCountFor(size).value);
  }
}
