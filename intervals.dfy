/** The retry interval sequences of Intervals.kt. */
module Intervals {
  import opened Sequences
  import opened Durations
  import Comparables

  /** `immediately`: a single interval of zero. */
  function Immediately(): (r: Sequence<Duration>)
    ensures r.length.Finite? && ToList(r) == [0]
  {
    Sequence(Finite(1), (i: nat) => 0)
  }

  /** `constantIntervals(interval)`: `generateSequence(interval) { it }`. */
  function ConstantIntervals(interval: Duration): (r: Sequence<Duration>)
    ensures r.length.Infinite? && r.at(0) == interval
  {
    GenerateSequence(interval, (d: Duration) => d)
  }

  /** `exponentialIntervals(initial, multiplier)`: `generateSequence(initial) { it * multiplier }`. */
  function ExponentialIntervals(initial: Duration, multiplier: Int32 := 2): (r: Sequence<Duration>)
    ensures r.length.Infinite? && r.at(0) == initial
    ensures forall i: nat :: r.at(i + 1) == TimesInt(r.at(i), multiplier)
  {
    GenerateSequence(initial, (d: Duration) => TimesInt(d, multiplier))
  }

  /** `Sequence<Duration>.cappedAt(max)`: every element capped at `max`, the length unchanged. */
  function CappedAt(s: Sequence<Duration>, max: Duration): (r: Sequence<Duration>)
    ensures r.length == s.length
    ensures forall i: nat :: r.at(i) <= max
    ensures forall i: nat :: s.at(i) < max ==> r.at(i) == s.at(i)
    ensures forall i: nat :: max <= s.at(i) ==> r.at(i) == max
  {
    MapSeq(s, (d: Duration) => Comparables.CappedAt(d, max))
  }

  function Pow(m: int, n: nat): int {
    if n == 0 then 1 else Pow(m, n - 1) * m
  }

  /** Constant intervals never end and every element is the given interval. */
  lemma {:induction false} ConstantIntervalsAt(interval: Duration, i: nat)
    ensures Has(ConstantIntervals(interval), i)
    ensures ConstantIntervals(interval).at(i) == interval
  {
    if i > 0 {
      ConstantIntervalsAt(interval, i - 1);
    }
  }

  /** Element `i` of the exponential intervals is `initial * multiplier^i`, and there is always a next one. */
  lemma {:induction false} ExponentialIntervalsAt(initial: Duration, multiplier: Int32, i: nat)
    ensures Has(ExponentialIntervals(initial, multiplier), i)
    ensures ExponentialIntervals(initial, multiplier).at(i) == initial * Pow(multiplier, i)
  {
    if i > 0 {
      ExponentialIntervalsAt(initial, multiplier, i - 1);
      var prev := ExponentialIntervals(initial, multiplier).at(i - 1);
      calc {
        ExponentialIntervals(initial, multiplier).at(i);
        TimesInt(prev, multiplier);
        initial * Pow(multiplier, i - 1) * multiplier;
        initial * Pow(multiplier, i);
      }
    }
  }

  /** With multiplier one the exponential intervals are constant: the initial interval forever. */
  lemma {:induction false} ExponentialWithMultiplierOneIsConstant(initial: Duration, i: nat)
    ensures Has(ExponentialIntervals(initial, 1), i)
    ensures ExponentialIntervals(initial, 1).at(i) == initial
  {
    ExponentialIntervalsAt(initial, 1, i);
    PowOfOne(i);
  }

  lemma {:induction false} PowOfOne(n: nat)
    ensures Pow(1, n) == 1
  {
    if n > 0 {
      PowOfOne(n - 1);
    }
  }

  /** 7 ms doubling: 7, 14, 28, 56, 112 ms; capped at 20 ms: 7, 14, 20, 20, 20 ms. */
  lemma ExponentialExamples()
    ensures Prefix(ExponentialIntervals(7 * Millisecond), 5)
         == [7 * Millisecond, 14 * Millisecond, 28 * Millisecond, 56 * Millisecond, 112 * Millisecond]
    ensures Prefix(CappedAt(ExponentialIntervals(7 * Millisecond), 20 * Millisecond), 5)
         == [7 * Millisecond, 14 * Millisecond, 20 * Millisecond, 20 * Millisecond, 20 * Millisecond]
  {
    var s := ExponentialIntervals(7 * Millisecond);
    ExponentialIntervalsAt(7 * Millisecond, 2, 1);
    ExponentialIntervalsAt(7 * Millisecond, 2, 2);
    ExponentialIntervalsAt(7 * Millisecond, 2, 3);
    ExponentialIntervalsAt(7 * Millisecond, 2, 4);
    assert s.at(0) == 7 * Millisecond;
  }
}
