/**
 * Kotlin's lazy `Sequence<T>`, as the model sees it: a length that is either a
 * finite count or unbounded, and the element at each position.
 */
module Sequences {

  datatype Length = Finite(count: nat) | Infinite

  datatype Sequence<T> = Sequence(length: Length, at: nat -> T)

  /** Whether position `i` exists in `s`. */
  predicate Has<T>(s: Sequence<T>, i: nat) {
    s.length.Infinite? || i < s.length.count
  }

  /** Whether `s` holds at least `n` elements. */
  predicate HasAtLeast<T>(s: Sequence<T>, n: nat) {
    s.length.Infinite? || n <= s.length.count
  }

  /** The first `n` elements of `s`, as a list. */
  function Prefix<T>(s: Sequence<T>, n: nat): (r: seq<T>)
    requires HasAtLeast(s, n)
    ensures |r| == n
    ensures forall i :: 0 <= i < n ==> r[i] == s.at(i)
  {
    if n == 0 then [] else Prefix(s, n - 1) + [s.at(n - 1)]
  }

  /** `toList()` of a finite sequence. */
  function ToList<T>(s: Sequence<T>): (r: seq<T>)
    requires s.length.Finite?
    ensures |r| == s.length.count
    ensures forall i :: 0 <= i < |r| ==> r[i] == s.at(i)
  {
    Prefix(s, s.length.count)
  }

  function MinLength(a: Length, n: nat): Length {
    match a
    case Infinite => Finite(n)
    case Finite(m) => Finite(if m < n then m else n)
  }

  /** `take(n)`: at most the first `n` elements, unchanged. */
  function Take<T>(s: Sequence<T>, n: nat): (r: Sequence<T>)
    ensures r.length.Finite?
    ensures forall i: nat :: Has(r, i) <==> Has(s, i) && i < n
  {
    Sequence(MinLength(s.length, n), s.at)
  }

  /** `map(f)`: the same length, each element transformed. */
  function MapSeq<T, U>(s: Sequence<T>, f: T -> U): (r: Sequence<U>)
    ensures r.length == s.length
    ensures forall i: nat :: r.at(i) == f(s.at(i))
  {
    Sequence(s.length, (i: nat) => f(s.at(i)))
  }

  /** `n` applications of `next` to `seed`. */
  function Iterate<T>(next: T -> T, seed: T, n: nat): T {
    if n == 0 then seed else next(Iterate(next, seed, n - 1))
  }

  /**
   * `generateSequence(seed, next)` where `next` never returns null: the
   * unbounded sequence seed, next(seed), next(next(seed)), ...
   */
  function GenerateSequence<T>(seed: T, next: T -> T): (r: Sequence<T>)
    ensures r.length.Infinite?
  {
    Sequence(Infinite, (i: nat) => Iterate(next, seed, i))
  }

  /** The accumulator after folding the first `n` elements of `s` into `initial`. */
  function Fold<T, R>(s: Sequence<T>, initial: R, op: (R, T) -> R, n: nat): R {
    if n == 0 then initial else op(Fold(s, initial, op, n - 1), s.at(n - 1))
  }

  /** `runningFold(initial, op)`: `initial`, then each successive accumulator. */
  function RunningFold<T, R>(s: Sequence<T>, initial: R, op: (R, T) -> R): (r: Sequence<R>)
    ensures r.length == match s.length { case Infinite => Infinite case Finite(n) => Finite(n + 1) }
    ensures forall i: nat :: r.at(i) == Fold(s, initial, op, i)
  {
    var length := match s.length { case Infinite => Infinite case Finite(n) => Finite(n + 1) };
    Sequence(length, (i: nat) => Fold(s, initial, op, i))
  }

  /** `drop(n)`: all but the first `n` elements. */
  function Drop<T>(s: Sequence<T>, n: nat): (r: Sequence<T>)
    ensures forall i: nat :: Has(r, i) <==> Has(s, i + n)
    ensures forall i: nat :: r.at(i) == s.at(i + n)
  {
    var length := match s.length { case Infinite => Infinite case Finite(m) => Finite(if m < n then 0 else m - n) };
    Sequence(length, (i: nat) => s.at(i + n))
  }
}
