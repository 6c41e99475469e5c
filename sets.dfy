/**
 * The insertion-ordered, de-duplicating set builders of Sets.kt. A
 * `LinkedHashSet` is its initial capacity and its elements in insertion order,
 * without duplicates.
 */
module Sets {
  import opened Wrappers

  /** A Kotlin `Iterable`: its elements in iteration order, and whether it is a `Collection` (whose size is known). */
  datatype Iterable<T> = Iterable(elements: seq<T>, isCollection: bool)

  /** One `Map.Entry`; a Kotlin `Map` is its entries in iteration order. */
  datatype Entry<K, V> = Entry(key: K, value: V)

  datatype LinkedHashSet<T> = LinkedHashSet(capacity: nat, elements: seq<T>)

  /** `LinkedHashSet()`'s initial capacity. */
  const DefaultCapacity: nat := 16

  ghost predicate NoDuplicates<T>(s: seq<T>) {
    forall i, j :: 0 <= i < j < |s| ==> s[i] != s[j]
  }

  /** The position of the first occurrence of `x` in `s`. */
  function FirstIndex<T(==)>(s: seq<T>, x: T): (i: nat)
    requires x in s
    ensures i < |s| && s[i] == x && x !in s[..i]
  {
    if s[0] == x then 0 else 1 + FirstIndex(s[1..], x)
  }

  /**
   * `r` holds each value of `s` exactly once, in the order of the values'
   * first occurrences in `s`.
   */
  ghost predicate FirstOccurrences<T>(r: seq<T>, s: seq<T>) {
    && NoDuplicates(r)
    && (forall i :: 0 <= i < |r| ==> r[i] in s)
    && (forall k :: 0 <= k < |s| ==> s[k] in r)
    && (forall i, j :: 0 <= i < j < |r| ==> r[i] in s && r[j] in s && FirstIndex(s, r[i]) < FirstIndex(s, r[j]))
  }

  /** `set.add(x)`: appends `x` unless it is already present. */
  function Add<T(==)>(s: LinkedHashSet<T>, x: T): (r: LinkedHashSet<T>)
    ensures r.capacity == s.capacity
    ensures x in s.elements ==> r == s
    ensures x !in s.elements ==> r.elements == s.elements + [x]
  {
    if x in s.elements then s else s.(elements := s.elements + [x])
  }

  /** Adds each of `xs` to `s`, first to last. */
  function AddAll<T(==)>(s: LinkedHashSet<T>, xs: seq<T>): (r: LinkedHashSet<T>)
    ensures r.capacity == s.capacity
    ensures |r.elements| <= |s.elements| + |xs|
  {
    if xs == [] then s else Add(AddAll(s, xs[..|xs| - 1]), xs[|xs| - 1])
  }

  /** After adding `xs`, the set holds every value it held and every value of `xs`, and nothing else. */
  lemma {:induction false} AddAllMembers<T>(s: LinkedHashSet<T>, xs: seq<T>)
    ensures forall i :: 0 <= i < |s.elements| ==> s.elements[i] in AddAll(s, xs).elements
    ensures forall i :: 0 <= i < |xs| ==> xs[i] in AddAll(s, xs).elements
    ensures forall i :: 0 <= i < |AddAll(s, xs).elements| ==> AddAll(s, xs).elements[i] in s.elements || AddAll(s, xs).elements[i] in xs
  {
    if xs != [] {
      var p := xs[..|xs| - 1];
      AddAllMembers(s, p);
      assert forall i :: 0 <= i < |p| ==> xs[i] == p[i];
    }
  }

  lemma FirstIndexInPrefix<T>(p: seq<T>, x: T, y: T)
    requires y in p
    ensures y in p + [x] && FirstIndex(p + [x], y) == FirstIndex(p, y)
  {
    var s := p + [x];
    var i, j := FirstIndex(s, y), FirstIndex(p, y);
    assert forall k :: 0 <= k < |p| ==> s[k] == p[k];
    assert forall k :: 0 <= k < i ==> s[..i][k] == s[k];
    assert forall k :: 0 <= k < j ==> p[..j][k] == p[k];
  }

  /** A value not in `p` first occurs in `p + [x]` at the end. */
  lemma FirstIndexOfNew<T>(p: seq<T>, x: T)
    requires x !in p
    ensures x in p + [x] && FirstIndex(p + [x], x) == |p|
  {
    var s := p + [x];
    assert s[|p|] == x;
    assert forall k :: 0 <= k < |p| ==> s[k] == p[k];
  }

  /** Every value of `p + [x]` is in `b`, given that every value of `p` and `x` are. */
  lemma AllIn<T>(p: seq<T>, x: T, b: seq<T>)
    requires (forall k :: 0 <= k < |p| ==> p[k] in b) && x in b
    ensures forall k :: 0 <= k < |p + [x]| ==> (p + [x])[k] in b
  {
    forall k | 0 <= k < |p + [x]|
      ensures (p + [x])[k] in b
    {
      if k < |p| {
        assert (p + [x])[k] == p[k];
      }
    }
  }

  /** Appending `x` to the sequence keeps the first-occurrence order of the values already in it. */
  lemma FirstIndexOrderKept<T>(b: seq<T>, p: seq<T>, x: T)
    requires forall i :: 0 <= i < |b| ==> b[i] in p
    requires forall i, j :: 0 <= i < j < |b| ==> b[i] in p && b[j] in p && FirstIndex(p, b[i]) < FirstIndex(p, b[j])
    ensures forall i, j :: 0 <= i < j < |b| ==> b[i] in p + [x] && b[j] in p + [x] && FirstIndex(p + [x], b[i]) < FirstIndex(p + [x], b[j])
  {
    forall i, j | 0 <= i < j < |b|
      ensures b[i] in p + [x] && b[j] in p + [x] && FirstIndex(p + [x], b[i]) < FirstIndex(p + [x], b[j])
    {
      FirstIndexInPrefix(p, x, b[i]);
      FirstIndexInPrefix(p, x, b[j]);
    }
  }

  /** Adding `x` to a set whose elements are the first occurrences of `p` gives those of `p + [x]`. */
  lemma FirstOccurrencesAdd<T>(b: seq<T>, p: seq<T>, x: T)
    requires FirstOccurrences(b, p)
    ensures FirstOccurrences(if x in b then b else b + [x], p + [x])
  {
    FirstIndexOrderKept(b, p, x);
    if x in b {
      FirstOccurrencesAddPresent(b, p, x);
    } else {
      FirstOccurrencesAddNew(b, p, x);
    }
  }

  /** The case of `FirstOccurrencesAdd` where `x` is already present: nothing changes. */
  lemma FirstOccurrencesAddPresent<T>(b: seq<T>, p: seq<T>, x: T)
    requires FirstOccurrences(b, p) && x in b
    requires forall i, j :: 0 <= i < j < |b| ==> b[i] in p + [x] && b[j] in p + [x] && FirstIndex(p + [x], b[i]) < FirstIndex(p + [x], b[j])
    ensures FirstOccurrences(b, p + [x])
  {
    AllIn(p, x, b);
  }

  /** The case of `FirstOccurrencesAdd` where `x` is new: it goes at the end, after every earlier first occurrence. */
  lemma FirstOccurrencesAddNew<T>(b: seq<T>, p: seq<T>, x: T)
    requires FirstOccurrences(b, p) && x !in b
    requires forall i, j :: 0 <= i < j < |b| ==> b[i] in p + [x] && b[j] in p + [x] && FirstIndex(p + [x], b[i]) < FirstIndex(p + [x], b[j])
    ensures FirstOccurrences(b + [x], p + [x])
  {
    var xs := p + [x];
    assert x !in p;
    FirstIndexOfNew(p, x);
    AllIn(p, x, b + [x]);
    forall i | 0 <= i < |b|
      ensures b[i] in xs && FirstIndex(xs, b[i]) < FirstIndex(xs, x)
    {
      FirstIndexInPrefix(p, x, b[i]);
    }
    OrderAppend(b, xs, x);
  }

  /** Appending a value whose first occurrence comes after all of `b`'s keeps `b`'s order of first occurrences. */
  lemma OrderAppend<T>(b: seq<T>, xs: seq<T>, x: T)
    requires x in xs
    requires forall i :: 0 <= i < |b| ==> b[i] in xs && FirstIndex(xs, b[i]) < FirstIndex(xs, x)
    requires forall i, j :: 0 <= i < j < |b| ==> b[i] in xs && b[j] in xs && FirstIndex(xs, b[i]) < FirstIndex(xs, b[j])
    ensures forall i, j :: 0 <= i < j < |b + [x]| ==>
      (b + [x])[i] in xs && (b + [x])[j] in xs && FirstIndex(xs, (b + [x])[i]) < FirstIndex(xs, (b + [x])[j])
  {
    var r := b + [x];
    forall i, j | 0 <= i < j < |r|
      ensures r[i] in xs && r[j] in xs && FirstIndex(xs, r[i]) < FirstIndex(xs, r[j])
    {
      assert r[i] == b[i];
      if j < |b| {
        assert r[j] == b[j];
      }
    }
  }

  /** Adding `xs` to an empty set of any capacity keeps each value's first occurrence, in order. */
  lemma {:induction false} AddAllToEmpty<T>(capacity: nat, xs: seq<T>)
    ensures AddAll(LinkedHashSet(capacity, []), xs).capacity == capacity
    ensures FirstOccurrences(AddAll(LinkedHashSet(capacity, []), xs).elements, xs)
  {
    if xs != [] {
      var p, x := xs[..|xs| - 1], xs[|xs| - 1];
      assert xs == p + [x];
      AddAllToEmpty(capacity, p);
      FirstOccurrencesAdd(AddAll(LinkedHashSet(capacity, []), p).elements, p, x);
    }
  }

  /** `map(f)`: each element transformed, in order. */
  function MapList<T, R>(xs: seq<T>, f: T -> R): (r: seq<R>)
    ensures |r| == |xs| && forall i :: 0 <= i < |xs| ==> r[i] == f(xs[i])
  {
    seq(|xs|, i requires 0 <= i < |xs| => f(xs[i]))
  }

  /** `mapNotNull`: the non-null results of `f`, in order. */
  function MapNotNull<T, R>(xs: seq<T>, f: T -> Option<R>): (r: seq<R>)
    ensures |r| <= |xs|
  {
    if xs == [] then []
    else match f(xs[0])
      case None => MapNotNull(xs[1..], f)
      case Some(y) => [y] + MapNotNull(xs[1..], f)
  }

  /** Each result of `mapNotNull` is the non-null result of some element, and every non-null result is kept. */
  lemma {:induction false} MapNotNullMembers<T, R>(xs: seq<T>, f: T -> Option<R>)
    ensures forall k :: 0 <= k < |MapNotNull(xs, f)| ==> exists i :: 0 <= i < |xs| && f(xs[i]) == Some(MapNotNull(xs, f)[k])
    ensures forall i :: 0 <= i < |xs| && f(xs[i]).Some? ==> f(xs[i]).value in MapNotNull(xs, f)
  {
    if xs != [] {
      var tail := xs[1..];
      MapNotNullMembers(tail, f);
      assert forall i :: 1 <= i < |xs| ==> xs[i] == tail[i - 1];
      var r, rest := MapNotNull(xs, f), MapNotNull(tail, f);
      var skipped := if f(xs[0]).Some? then 1 else 0;
      assert r == (if skipped == 1 then [f(xs[0]).value] else []) + rest;
      forall k | 0 <= k < |r|
        ensures exists i :: 0 <= i < |xs| && f(xs[i]) == Some(r[k])
      {
        if k < skipped {
          assert f(xs[0]) == Some(r[k]);
        } else {
          assert r[k] == rest[k - skipped];
          var i :| 0 <= i < |tail| && f(tail[i]) == Some(rest[k - skipped]);
          assert tail[i] == xs[i + 1];
        }
      }
    } else {
      assert MapNotNull(xs, f) == [];
    }
  }

  /** `flatMap`: the results of `f`, concatenated in order. */
  function Flatten<T, R>(xs: seq<T>, f: T -> seq<R>): seq<R> {
    if xs == [] then [] else f(xs[0]) + Flatten(xs[1..], f)
  }

  /** Each value of `flatMap` comes from some element's results, and every element's results are all kept. */
  lemma {:induction false} FlattenMembers<T, R>(xs: seq<T>, f: T -> seq<R>)
    ensures forall k :: 0 <= k < |Flatten(xs, f)| ==> exists i :: 0 <= i < |xs| && Flatten(xs, f)[k] in f(xs[i])
    ensures forall i, y :: 0 <= i < |xs| && y in f(xs[i]) ==> y in Flatten(xs, f)
  {
    if xs != [] {
      var tail := xs[1..];
      FlattenMembers(tail, f);
      assert forall i :: 1 <= i < |xs| ==> xs[i] == tail[i - 1];
      var r, rest := Flatten(xs, f), Flatten(tail, f);
      assert r == f(xs[0]) + rest;
      forall k | 0 <= k < |r|
        ensures exists i :: 0 <= i < |xs| && r[k] in f(xs[i])
      {
        if k < |f(xs[0])| {
          assert r[k] == f(xs[0])[k];
          assert r[k] in f(xs[0]);
        } else {
          assert r[k] == rest[k - |f(xs[0])|];
          var i :| 0 <= i < |tail| && rest[k - |f(xs[0])|] in f(tail[i]);
          assert tail[i] == xs[i + 1];
        }
      }
    } else {
      assert Flatten(xs, f) == [];
    }
  }

  /** `collectionSizeOrDefault(default)`: the size of a collection, `default` for any other iterable. */
  function CollectionSizeOrDefault<T>(it: Iterable<T>, default: nat): (n: nat)
    ensures it.isCollection ==> n == |it.elements|
    ensures !it.isCollection ==> n == default
  {
    if it.isCollection then |it.elements| else default
  }

  /** `Iterable.mapToSet(transform)`: every transformed value (null included) once, by first occurrence. */
  function MapToSet<T, R(==)>(it: Iterable<T>, transform: T -> R): (r: LinkedHashSet<R>)
    ensures r.capacity == CollectionSizeOrDefault(it, 10)
    ensures FirstOccurrences(r.elements, MapList(it.elements, transform))
    ensures |r.elements| <= |it.elements|
  {
    var capacity := CollectionSizeOrDefault(it, 10);
    AddAllToEmpty(capacity, MapList(it.elements, transform));
    AddAll(LinkedHashSet(capacity, []), MapList(it.elements, transform))
  }

  /** `Iterable.mapNotNullToSet(transform)`: the non-null transformed values once each, by first occurrence. */
  function MapNotNullToSet<T, R(==)>(it: Iterable<T>, transform: T -> Option<R>): (r: LinkedHashSet<R>)
    ensures r.capacity == DefaultCapacity
    ensures FirstOccurrences(r.elements, MapNotNull(it.elements, transform))
    ensures |r.elements| <= |it.elements|
  {
    AddAllToEmpty(DefaultCapacity, MapNotNull(it.elements, transform));
    AddAll(LinkedHashSet(DefaultCapacity, []), MapNotNull(it.elements, transform))
  }

  /** `Iterable.flatMapToSet(transform)`: the values of all the transformed iterables once each, by first occurrence. */
  function FlatMapToSet<T, R(==)>(it: Iterable<T>, transform: T -> seq<R>): (r: LinkedHashSet<R>)
    ensures r.capacity == DefaultCapacity
    ensures FirstOccurrences(r.elements, Flatten(it.elements, transform))
  {
    AddAllToEmpty(DefaultCapacity, Flatten(it.elements, transform));
    AddAll(LinkedHashSet(DefaultCapacity, []), Flatten(it.elements, transform))
  }

  /** `Map.mapToSet(transform)`: as the Iterable variant over the entries, with the map's size as capacity. */
  function MapEntriesToSet<K, V, R(==)>(m: seq<Entry<K, V>>, transform: Entry<K, V> -> R): (r: LinkedHashSet<R>)
    ensures r.capacity == |m|
    ensures FirstOccurrences(r.elements, MapList(m, transform))
    ensures |r.elements| <= |m|
  {
    MapToSet(Iterable(m, true), transform)
  }

  /** `Map.mapNotNullToSet(transform)`: as the Iterable variant over the entries. */
  function MapNotNullEntriesToSet<K, V, R(==)>(m: seq<Entry<K, V>>, transform: Entry<K, V> -> Option<R>): (r: LinkedHashSet<R>)
    ensures r.capacity == DefaultCapacity
    ensures FirstOccurrences(r.elements, MapNotNull(m, transform))
    ensures |r.elements| <= |m|
  {
    MapNotNullToSet(Iterable(m, true), transform)
  }

  /** `Map.flatMapToSet(transform)`: as the Iterable variant over the entries. */
  function FlatMapEntriesToSet<K, V, R(==)>(m: seq<Entry<K, V>>, transform: Entry<K, V> -> seq<R>): (r: LinkedHashSet<R>)
    ensures r.capacity == DefaultCapacity
    ensures FirstOccurrences(r.elements, Flatten(m, transform))
  {
    FlatMapToSet(Iterable(m, true), transform)
  }

  /** `listOf(2, 1, 2, null, 3, 3)`, with `null` as `None`. */
  const Numbers: seq<Option<int>> := [Some(2), Some(1), Some(2), None, Some(3), Some(3)]

  /** `listOfNotNull(it, it?.plus(1))`. */
  function SelfAndSuccessor(x: Option<int>): seq<int> {
    match x
    case None => []
    case Some(n) => [n, n + 1]
  }

  lemma AddAllStep<T>(s: LinkedHashSet<T>, xs: seq<T>, x: T, ys: seq<T>, before: seq<T>, after: seq<T>)
    requires ys == xs + [x]
    requires AddAll(s, xs).elements == before
    requires after == if x in before then before else before + [x]
    ensures AddAll(s, ys).elements == after
  {
    assert ys[..|xs|] == xs;
  }

  /** The set built from `Numbers` when `f` leaves them unchanged. */
  lemma NumbersIntoEmpty(capacity: nat)
    ensures AddAll(LinkedHashSet(capacity, []), Numbers).elements == [Some(2), Some(1), None, Some(3)]
  {
    var e: LinkedHashSet<Option<int>> := LinkedHashSet(capacity, []);
    AddAllStep(e, [], Some(2), [Some(2)], [], [Some(2)]);
    AddAllStep(e, [Some(2)], Some(1), [Some(2), Some(1)], [Some(2)], [Some(2), Some(1)]);
    AddAllStep(e, [Some(2), Some(1)], Some(2), [Some(2), Some(1), Some(2)], [Some(2), Some(1)], [Some(2), Some(1)]);
    AddAllStep(e, [Some(2), Some(1), Some(2)], None, [Some(2), Some(1), Some(2), None], [Some(2), Some(1)], [Some(2), Some(1), None]);
    AddAllStep(e, [Some(2), Some(1), Some(2), None], Some(3), [Some(2), Some(1), Some(2), None, Some(3)], [Some(2), Some(1), None], [Some(2), Some(1), None, Some(3)]);
    AddAllStep(e, [Some(2), Some(1), Some(2), None, Some(3)], Some(3), [Some(2), Some(1), Some(2), None, Some(3), Some(3)], [Some(2), Some(1), None, Some(3)], [Some(2), Some(1), None, Some(3)]);
  }

  lemma NonNullNumbersIntoEmpty(capacity: nat)
    ensures AddAll(LinkedHashSet(capacity, []), [2, 1, 2, 3, 3]).elements == [2, 1, 3]
  {
    var e: LinkedHashSet<int> := LinkedHashSet(capacity, []);
    AddAllStep(e, [], 2, [2], [], [2]);
    AddAllStep(e, [2], 1, [2, 1], [2], [2, 1]);
    AddAllStep(e, [2, 1], 2, [2, 1, 2], [2, 1], [2, 1]);
    AddAllStep(e, [2, 1, 2], 3, [2, 1, 2, 3], [2, 1], [2, 1, 3]);
    AddAllStep(e, [2, 1, 2, 3], 3, [2, 1, 2, 3, 3], [2, 1, 3], [2, 1, 3]);
  }

  lemma SuccessorsIntoEmpty(capacity: nat)
    ensures AddAll(LinkedHashSet(capacity, []), [2, 3, 1, 2, 2, 3, 3, 4, 3, 4]).elements == [2, 3, 1, 4]
  {
    var e: LinkedHashSet<int> := LinkedHashSet(capacity, []);
    SuccessorsIntoEmptyFirstHalf(capacity);
    AddAllStep(e, [2, 3, 1, 2, 2], 3, [2, 3, 1, 2, 2, 3], [2, 3, 1], [2, 3, 1]);
    AddAllStep(e, [2, 3, 1, 2, 2, 3], 3, [2, 3, 1, 2, 2, 3, 3], [2, 3, 1], [2, 3, 1]);
    AddAllStep(e, [2, 3, 1, 2, 2, 3, 3], 4, [2, 3, 1, 2, 2, 3, 3, 4], [2, 3, 1], [2, 3, 1, 4]);
    AddAllStep(e, [2, 3, 1, 2, 2, 3, 3, 4], 3, [2, 3, 1, 2, 2, 3, 3, 4, 3], [2, 3, 1, 4], [2, 3, 1, 4]);
    AddAllStep(e, [2, 3, 1, 2, 2, 3, 3, 4, 3], 4, [2, 3, 1, 2, 2, 3, 3, 4, 3, 4], [2, 3, 1, 4], [2, 3, 1, 4]);
  }

  lemma SuccessorsIntoEmptyFirstHalf(capacity: nat)
    ensures AddAll(LinkedHashSet(capacity, []), [2, 3, 1, 2, 2]).elements == [2, 3, 1]
  {
    var e: LinkedHashSet<int> := LinkedHashSet(capacity, []);
    AddAllStep(e, [], 2, [2], [], [2]);
    AddAllStep(e, [2], 3, [2, 3], [2], [2, 3]);
    AddAllStep(e, [2, 3], 1, [2, 3, 1], [2, 3], [2, 3, 1]);
    AddAllStep(e, [2, 3, 1], 2, [2, 3, 1, 2], [2, 3, 1], [2, 3, 1]);
    AddAllStep(e, [2, 3, 1, 2], 2, [2, 3, 1, 2, 2], [2, 3, 1], [2, 3, 1]);
  }

  lemma FlattenStep<T, R>(x: T, xs: seq<T>, ys: seq<T>, f: T -> seq<R>, rest: seq<R>, result: seq<R>)
    requires ys == [x] + xs && Flatten(xs, f) == rest && result == f(x) + rest
    ensures Flatten(ys, f) == result
  {
    assert ys[1..] == xs;
  }

  lemma MapNotNullStep<T, R>(x: T, xs: seq<T>, ys: seq<T>, f: T -> Option<R>, rest: seq<R>, result: seq<R>)
    requires ys == [x] + xs && MapNotNull(xs, f) == rest
    requires result == (if f(x).Some? then [f(x).value] else []) + rest
    ensures MapNotNull(ys, f) == result
  {
    assert ys[1..] == xs;
  }

  lemma SuccessorsOfNumbersTail()
    ensures Flatten(Numbers[2..], SelfAndSuccessor) == [2, 3, 3, 4, 3, 4]
  {
    var f := SelfAndSuccessor;
    FlattenStep(Some(3), [], [Some(3)], f, [], [3, 4]);
    FlattenStep(Some(3), [Some(3)], [Some(3), Some(3)], f, [3, 4], [3, 4, 3, 4]);
    FlattenStep(None, [Some(3), Some(3)], [None, Some(3), Some(3)], f, [3, 4, 3, 4], [3, 4, 3, 4]);
    FlattenStep(Some(2), [None, Some(3), Some(3)], Numbers[2..], f, [3, 4, 3, 4], [2, 3, 3, 4, 3, 4]);
  }

  lemma SuccessorsOfNumbers()
    ensures Flatten(Numbers, SelfAndSuccessor) == [2, 3, 1, 2, 2, 3, 3, 4, 3, 4]
  {
    var f := SelfAndSuccessor;
    SuccessorsOfNumbersTail();
    FlattenStep(Some(1), Numbers[2..], Numbers[1..], f, [2, 3, 3, 4, 3, 4], [1, 2, 2, 3, 3, 4, 3, 4]);
    FlattenStep(Some(2), Numbers[1..], Numbers, f, [1, 2, 2, 3, 3, 4, 3, 4], [2, 3, 1, 2, 2, 3, 3, 4, 3, 4]);
  }

  lemma NonNullOfNumbers()
    ensures MapNotNull(Numbers, x => x) == [2, 1, 2, 3, 3]
  {
    var f := (x: Option<int>) => x;
    MapNotNullStep(Some(3), [], [Some(3)], f, [], [3]);
    MapNotNullStep(Some(3), [Some(3)], [Some(3), Some(3)], f, [3], [3, 3]);
    MapNotNullStep(None, [Some(3), Some(3)], [None, Some(3), Some(3)], f, [3, 3], [3, 3]);
    MapNotNullStep(Some(2), [None, Some(3), Some(3)], Numbers[2..], f, [3, 3], [2, 3, 3]);
    MapNotNullStep(Some(1), Numbers[2..], Numbers[1..], f, [2, 3, 3], [1, 2, 3, 3]);
    MapNotNullStep(Some(2), Numbers[1..], Numbers, f, [1, 2, 3, 3], [2, 1, 2, 3, 3]);
  }

  lemma IterableExamples()
    ensures MapToSet(Iterable(Numbers, true), x => x).elements == [Some(2), Some(1), None, Some(3)]
    ensures MapNotNullToSet(Iterable(Numbers, true), x => x).elements == [2, 1, 3]
    ensures FlatMapToSet(Iterable(Numbers, true), SelfAndSuccessor).elements == [2, 3, 1, 4]
  {
    assert MapList(Numbers, x => x) == Numbers;
    NumbersIntoEmpty(6);
    NonNullOfNumbers();
    NonNullNumbersIntoEmpty(DefaultCapacity);
    SuccessorsOfNumbers();
    SuccessorsIntoEmpty(DefaultCapacity);
  }

  /** `mapOf(2 to 0, 1 to 0, 2 to 0, null to 0, 3 to 0, 3 to 0)`: the repeated keys collapse. */
  const NumberMap: seq<Entry<Option<int>, int>> := [Entry(Some(2), 0), Entry(Some(1), 0), Entry(None, 0), Entry(Some(3), 0)]

  function Key(e: Entry<Option<int>, int>): Option<int> {
    e.key
  }

  function KeyAndSuccessor(e: Entry<Option<int>, int>): seq<int> {
    SelfAndSuccessor(e.key)
  }

  lemma NumberMapKeys()
    ensures MapList(NumberMap, Key) == [Some(2), Some(1), None, Some(3)]
  {
  }

  lemma KeysIntoEmpty()
    ensures AddAll(LinkedHashSet(4, []), [Some(2), Some(1), None, Some(3)]).elements == [Some(2), Some(1), None, Some(3)]
  {
    var e: LinkedHashSet<Option<int>> := LinkedHashSet(4, []);
    AddAllStep(e, [], Some(2), [Some(2)], [], [Some(2)]);
    AddAllStep(e, [Some(2)], Some(1), [Some(2), Some(1)], [Some(2)], [Some(2), Some(1)]);
    AddAllStep(e, [Some(2), Some(1)], None, [Some(2), Some(1), None], [Some(2), Some(1)], [Some(2), Some(1), None]);
    AddAllStep(e, [Some(2), Some(1), None], Some(3), [Some(2), Some(1), None, Some(3)], [Some(2), Some(1), None], [Some(2), Some(1), None, Some(3)]);
  }

  lemma MapMapToSetExample()
    ensures MapEntriesToSet(NumberMap, Key).elements == [Some(2), Some(1), None, Some(3)]
  {
    NumberMapKeys();
    KeysIntoEmpty();
  }

  lemma NumberMapNonNullKeys()
    ensures MapNotNull(NumberMap, Key) == [2, 1, 3]
  {
    MapNotNullStep(Entry(Some(3), 0), [], NumberMap[3..], Key, [], [3]);
    MapNotNullStep(Entry(None, 0), NumberMap[3..], NumberMap[2..], Key, [3], [3]);
    MapNotNullStep(Entry(Some(1), 0), NumberMap[2..], NumberMap[1..], Key, [3], [1, 3]);
    MapNotNullStep(Entry(Some(2), 0), NumberMap[1..], NumberMap, Key, [1, 3], [2, 1, 3]);
  }

  lemma NonNullKeysIntoEmpty()
    ensures AddAll(LinkedHashSet(DefaultCapacity, []), [2, 1, 3]).elements == [2, 1, 3]
  {
    var d: LinkedHashSet<int> := LinkedHashSet(DefaultCapacity, []);
    AddAllStep(d, [], 2, [2], [], [2]);
    AddAllStep(d, [2], 1, [2, 1], [2], [2, 1]);
    AddAllStep(d, [2, 1], 3, [2, 1, 3], [2, 1], [2, 1, 3]);
  }

  lemma MapMapNotNullToSetExample()
    ensures MapNotNullEntriesToSet(NumberMap, Key).elements == [2, 1, 3]
  {
    NumberMapNonNullKeys();
    NonNullKeysIntoEmpty();
  }

  lemma NumberMapSuccessors()
    ensures Flatten(NumberMap, KeyAndSuccessor) == [2, 3, 1, 2, 3, 4]
  {
    FlattenStep(Entry(Some(3), 0), [], NumberMap[3..], KeyAndSuccessor, [], [3, 4]);
    FlattenStep(Entry(None, 0), NumberMap[3..], NumberMap[2..], KeyAndSuccessor, [3, 4], [3, 4]);
    FlattenStep(Entry(Some(1), 0), NumberMap[2..], NumberMap[1..], KeyAndSuccessor, [3, 4], [1, 2, 3, 4]);
    FlattenStep(Entry(Some(2), 0), NumberMap[1..], NumberMap, KeyAndSuccessor, [1, 2, 3, 4], [2, 3, 1, 2, 3, 4]);
  }

  lemma KeySuccessorsIntoEmpty()
    ensures AddAll(LinkedHashSet(DefaultCapacity, []), [2, 3, 1, 2, 3, 4]).elements == [2, 3, 1, 4]
  {
    var d: LinkedHashSet<int> := LinkedHashSet(DefaultCapacity, []);
    AddAllStep(d, [], 2, [2], [], [2]);
    AddAllStep(d, [2], 3, [2, 3], [2], [2, 3]);
    AddAllStep(d, [2, 3], 1, [2, 3, 1], [2, 3], [2, 3, 1]);
    AddAllStep(d, [2, 3, 1], 2, [2, 3, 1, 2], [2, 3, 1], [2, 3, 1]);
    AddAllStep(d, [2, 3, 1, 2], 3, [2, 3, 1, 2, 3], [2, 3, 1], [2, 3, 1]);
    AddAllStep(d, [2, 3, 1, 2, 3], 4, [2, 3, 1, 2, 3, 4], [2, 3, 1], [2, 3, 1, 4]);
  }

  lemma MapFlatMapToSetExample()
    ensures FlatMapEntriesToSet(NumberMap, KeyAndSuccessor).elements == [2, 3, 1, 4]
  {
    NumberMapSuccessors();
    KeySuccessorsIntoEmpty();
  }
}
