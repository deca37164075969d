/** Small vocabulary shared by every module of the model. */
module Common {

  datatype Option<+T> = None | Some(value: T)

  datatype Result<+T, +E> = Success(value: T) | Failure(error: E)

  /** Identifiers of Rooms, Transfers, Participants and sockets. Their text only matters
      where storage keys are rendered. */
  datatype Id = Id(text: string)

  /** A byte of a file; only equality of bytes ever matters to the model. */
  newtype byte = x: int | 0 <= x < 256

  /** What a storage or database call did and what it told its caller. A call is all-or-nothing, but
      its answer can be lost after it took effect. */
  datatype Verdict = Done | Refused | DoneButReportedFailed
  {
    predicate TookEffect() { !Refused? }
    predicate Reported() { Done? }
  }

  /** The set {0, .., n - 1}. */
  function UpTo(n: nat): (s: set<nat>)
    ensures |s| == n
    ensures forall i: nat :: i in s <==> i < n
  {
    if n == 0 then {} else UpTo(n - 1) + {n - 1}
  }

  lemma SubsetSize<T>(a: set<T>, b: set<T>)
    requires a <= b
    ensures |a| <= |b|
    ensures |a| == |b| ==> a == b
  {
    if a != {} {
      var x :| x in a;
      SubsetSize(a - {x}, b - {x});
    }
  }

  /** A set of indices below n has n members exactly when it holds every index. */
  lemma FullExactlyWhenCountMatches(s: set<nat>, n: nat)
    requires forall i :: i in s ==> i < n
    ensures |s| == n <==> s == UpTo(n)
  {
    SubsetSize(s, UpTo(n));
  }

  predicate Distinct<T(==)>(s: seq<T>) {
    forall i, j :: 0 <= i < j < |s| ==> s[i] != s[j]
  }

  ghost predicate Precedes<T>(order: seq<T>, a: T, b: T) {
    exists i, j :: 0 <= i < j < |order| && order[i] == a && order[j] == b
  }

  /** `order` holds every key, each once: the insertion order of a JavaScript Map. */
  predicate Lists<K(==)>(order: seq<K>, keys: set<K>) {
    && Distinct(order)
    && (forall k | k in order :: k in keys)
    && (forall k | k in keys :: k in order)
  }

  /** Two maps say the same of a key. */
  ghost predicate SameAt<K, V>(a: map<K, V>, b: map<K, V>, key: K) {
    (key in a <==> key in b) && (key in a ==> a[key] == b[key])
  }

  /** An order without one key, as Map.delete leaves it. */
  function Without<K(==)>(order: seq<K>, key: K): seq<K> {
    if order == [] then []
    else
      var rest := Without(order[..|order| - 1], key);
      if order[|order| - 1] == key then rest else rest + [order[|order| - 1]]
  }

  lemma {:induction false} WithoutLists<K>(order: seq<K>, keys: set<K>, key: K)
    requires Lists(order, keys)
    ensures Lists(Without(order, key), keys - {key})
  {
    if order != [] {
      var last := order[|order| - 1];
      assert order == order[..|order| - 1] + [last];
      WithoutLists(order[..|order| - 1], keys - {last}, key);
      var rest := Without(order[..|order| - 1], key);
      assert last !in rest;
      assert forall k :: k in rest + [last] <==> k in rest || k == last;
    }
  }

  /** Two sets whose members pair off have the same size. */
  lemma {:induction false} BijectionKeepsSize<A(!new), B(!new)>(s: set<A>, t: set<B>, f: A -> B, g: B -> A)
    requires forall a :: a in s ==> f(a) in t && g(f(a)) == a
    requires forall b :: b in t ==> g(b) in s && f(g(b)) == b
    ensures |s| == |t|
  {
    if s == {} {
      if b :| b in t { assert g(b) in s; }
    } else {
      var x :| x in s;
      BijectionKeepsSize(s - {x}, t - {f(x)}, f, g);
    }
  }
}
