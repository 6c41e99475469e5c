/** `Duration.times` from Durations.kt, with a duration as a whole number of nanoseconds. */
module Durations {

  /** A `java.time.Duration` (and a `kotlin.time.Duration`), in nanoseconds. */
  type Duration = int

  /** Kotlin's `Int` and `Long`. */
  type Int32 = x: int | -0x8000_0000 <= x < 0x8000_0000
  type Int64 = x: int | -0x8000_0000_0000_0000 <= x < 0x8000_0000_0000_0000

  const Millisecond: Duration := 1_000_000
  const Hour: Duration := 3_600_000_000_000
  const Day: Duration := 24 * Hour

  /** `Duration.times(Long)`: `multipliedBy(multiplicand)`; the product keeps or flips the duration's sign with the multiplicand's. */
  function TimesLong(d: Duration, multiplicand: Int64): (r: Duration)
    ensures r == 0 <==> d == 0 || multiplicand == 0
    ensures multiplicand > 0 ==> (r > 0 <==> d > 0)
    ensures multiplicand < 0 ==> (r > 0 <==> d < 0)
  {
    d * multiplicand
  }

  /** `Duration.times(Int)`: widens the multiplicand to `Long` and multiplies by it. */
  function TimesInt(d: Duration, multiplicand: Int32): (r: Duration)
    ensures r == 0 <==> d == 0 || multiplicand == 0
    ensures multiplicand > 0 ==> (r > 0 <==> d > 0)
    ensures multiplicand < 0 ==> (r > 0 <==> d < 0)
  {
    TimesLong(d, multiplicand as Int64)
  }

  /** `n` copies of `d` added up. */
  function RepeatedSum(d: Duration, n: nat): Duration {
    if n == 0 then 0 else RepeatedSum(d, n - 1) + d
  }

  /** `n` copies of `d` laid end to end make `d * n`. */
  lemma {:induction false} RepeatedSumIsProduct(d: Duration, n: nat)
    ensures RepeatedSum(d, n) == d * n
  {
    if n > 0 {
      RepeatedSumIsProduct(d, n - 1);
    }
  }

  /**
   * Both overloads give `k` copies of the duration added together, and for a
   * negative `k` the negation of `-k` copies, so on every `Int` the `Int`
   * overload agrees with the `Long` one.
   */
  lemma TimesIsRepeatedAddition(d: Duration, multiplicand: Int64)
    ensures multiplicand >= 0 ==> TimesLong(d, multiplicand) == RepeatedSum(d, multiplicand)
    ensures multiplicand < 0 ==> TimesLong(d, multiplicand) == -RepeatedSum(d, -(multiplicand as int))
    ensures 0 <= multiplicand < 0x8000_0000 ==> TimesInt(d, multiplicand) == RepeatedSum(d, multiplicand)
    ensures -0x8000_0000 <= multiplicand < 0 ==> TimesInt(d, multiplicand) == -RepeatedSum(d, -(multiplicand as int))
  {
    if multiplicand >= 0 {
      RepeatedSumIsProduct(d, multiplicand);
    } else {
      RepeatedSumIsProduct(d, -(multiplicand as int));
    }
  }
}
