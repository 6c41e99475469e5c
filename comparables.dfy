/** `T.cappedAt(max)` from Comparables.kt, over the integers (Kotlin `Int`, and durations in nanoseconds). */
module Comparables {

  /** The smaller of `x` and `max`: `x` when it is below `max`, `max` otherwise. */
  function CappedAt(x: int, max: int): (r: int)
    ensures r <= max && r <= x
    ensures r == x || r == max
  {
    if x < max then x else max
  }

  /** Capping twice at the same maximum is capping once. */
  lemma CappedAtIdempotent(x: int, max: int)
    ensures CappedAt(CappedAt(x, max), max) == CappedAt(x, max)
  {
  }

  /** The three cases the source's tests exercise: below, above and at the maximum. */
  lemma CappedAtExamples()
    ensures CappedAt(3, 5) == 3
    ensures CappedAt(7, 5) == 5
    ensures CappedAt(5, 5) == 5
  {
  }
}
