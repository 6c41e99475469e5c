/**
 * `retry` from Retry.kt. The `attempt` effect is an oracle: `candidates(k)` is
 * what the k-th call of `attempt` returns. The `sleep` and `attempt` effects are
 * recorded, in the order they happen, in the returned effect list.
 */
module Retry {
  import opened Wrappers
  import opened Sequences
  import opened Durations
  import Intervals

  /** `data object TimedOut`: the intervals ran out before a candidate satisfied `until`. */
  datatype TimedOut = TimedOut

  /** One effect of a retry loop: a sleep for an interval, or a call of `attempt` and what it returned. */
  datatype Effect<T> = Slept(interval: Duration) | Attempted(candidate: T)

  /**
   * Whether the loop over `intervals` stops: there are finitely many, or some
   * attempt satisfies `until`. Over unbounded intervals with no such attempt the
   * source loops forever, which a terminating method cannot model.
   */
  ghost predicate Stops<T>(candidates: nat -> T, until: T -> bool, intervals: Sequence<Duration>) {
    intervals.length.Finite? || exists k: nat :: until(candidates(k))
  }

  /** The effects of `n` loop iterations: sleep for interval k, then attempt, for each k < n. */
  ghost predicate IterationEffects<T>(effects: seq<Effect<T>>, candidates: nat -> T, intervals: Sequence<Duration>, n: nat) {
    && |effects| == 2 * n
    && forall k :: 0 <= k < n ==>
         effects[2 * k] == Slept(intervals.at(k)) && effects[2 * k + 1] == Attempted(candidates(k))
  }

  /**
   * `retry(attempt, until, intervals, sleep)`: for each interval in turn, sleep
   * for it and attempt once; succeed with the first candidate satisfying `until`,
   * or fail with `TimedOut` once the intervals run out.
   */
  method RetryAttempts<T>(candidates: nat -> T, until: T -> bool, intervals: Sequence<Duration>)
    returns (result: Result<T, TimedOut>, effects: seq<Effect<T>>)
    requires Stops(candidates, until, intervals)
    ensures |effects| % 2 == 0 && HasAtLeast(intervals, |effects| / 2)
    ensures IterationEffects(effects, candidates, intervals, |effects| / 2)
    ensures result.Success? ==>
              && |effects| >= 2
              && result.value == candidates(|effects| / 2 - 1) && until(result.value)
              && forall k :: 0 <= k < |effects| / 2 - 1 ==> !until(candidates(k))
    ensures result.Failure? ==>
              && intervals.length == Finite(|effects| / 2)
              && forall k :: 0 <= k < |effects| / 2 ==> !until(candidates(k))
  {
    ghost var bound: nat := 0;
    if intervals.length.Infinite? {
      bound :| until(candidates(bound));
    }
    var i: nat := 0;
    effects := [];
    while Has(intervals, i)
      invariant HasAtLeast(intervals, i)
      invariant intervals.length.Infinite? ==> i <= bound
      invariant IterationEffects(effects, candidates, intervals, i)
      invariant forall k :: 0 <= k < i ==> !until(candidates(k))
      decreases if intervals.length.Finite? then intervals.length.count - i else bound - i
    {
      effects := effects + [Slept(intervals.at(i))];
      var candidate := candidates(i);
      effects := effects + [Attempted(candidate)];
      if until(candidate) {
        assert IterationEffects(effects, candidates, intervals, i + 1);
        return Success(candidate), effects;
      }
      i := i + 1;
    }
    result := Failure(TimedOut);
  }

  /**
   * `retry(initial, attempt, until, intervals, sleep)`: `initial` when it already
   * satisfies `until`, without sleeping or attempting; otherwise the loop above.
   */
  method Retry<T>(initial: T, candidates: nat -> T, until: T -> bool, intervals: Sequence<Duration>)
    returns (result: Result<T, TimedOut>, effects: seq<Effect<T>>)
    requires until(initial) || Stops(candidates, until, intervals)
    ensures until(initial) ==> result == Success(initial) && effects == []
    ensures |effects| % 2 == 0 && HasAtLeast(intervals, |effects| / 2)
    ensures IterationEffects(effects, candidates, intervals, |effects| / 2)
    ensures !until(initial) && result.Success? ==>
              && |effects| >= 2
              && result.value == candidates(|effects| / 2 - 1) && until(result.value)
              && forall k :: 0 <= k < |effects| / 2 - 1 ==> !until(candidates(k))
    ensures result.Failure? ==>
              && intervals.length == Finite(|effects| / 2)
              && forall k :: 0 <= k < |effects| / 2 ==> !until(candidates(k))
  {
    if until(initial) {
      return Success(initial), [];
    }
    result, effects := RetryAttempts(candidates, until, intervals);
  }

  /** Intervals `immediately` and an initial value that already satisfies the condition: no attempt, no sleep. */
  method UseInitialValue() returns (result: Result<int, TimedOut>, effects: seq<Effect<int>>)
    ensures result == Success(1) && effects == []
  {
    result, effects := Retry(1, (k: nat) => 99, (v: int) => v == 1, Intervals.Immediately());
  }

  /** With `immediately`, one sleep of zero and one attempt that succeeds. */
  method RetryOnce() returns (result: Result<int, TimedOut>, effects: seq<Effect<int>>)
    ensures result == Success(2) && effects == [Slept(0), Attempted(2)]
  {
    result, effects := Retry(1, (k: nat) => 2, (v: int) => v == 2, Intervals.Immediately());
  }

  /** Constant hourly intervals, the k-th attempt returning the number of sleeps so far: succeeds after five sleeps. */
  method RetryUntilConditionMet() returns (result: Result<int, TimedOut>, effects: seq<Effect<int>>)
    ensures result == Success(5) && |effects| == 10
  {
    var intervals := Intervals.ConstantIntervals(Hour);
    var candidates := (k: nat) => k + 1;
    var until := (v: int) => v == 5;
    assert until(candidates(4));
    result, effects := Retry(1, candidates, until, intervals);
  }

  /** Three hourly intervals, the condition never met: times out after exactly three sleeps. */
  method GiveUpWhenIntervalsRunOut() returns (result: Result<int, TimedOut>, effects: seq<Effect<int>>)
    ensures result == Failure(TimedOut) && |effects| == 6
    ensures effects[0] == Slept(Hour) && effects[2] == Slept(Hour) && effects[4] == Slept(Hour)
  {
    var intervals := Take(Intervals.ConstantIntervals(Hour), 3);
    var candidates := (k: nat) => k + 1;
    assert intervals.length == Finite(3);
    var until := (v: int) => v == 5;
    result, effects := Retry(1, candidates, until, intervals);
    assert forall k :: 0 <= k < 3 ==> !until(candidates(k));
    assert result.error.TimedOut?;
    Intervals.ConstantIntervalsAt(Hour, 0);
    Intervals.ConstantIntervalsAt(Hour, 1);
    Intervals.ConstantIntervalsAt(Hour, 2);
  }

  /** Exponential intervals from 2 h by 5, three of them: the sleeps are 2 h, 10 h and 50 h. */
  method SleepBasedOnIntervals() returns (result: Result<int, TimedOut>, effects: seq<Effect<int>>)
    ensures result == Failure(TimedOut)
    ensures |effects| == 6 && effects[0] == Slept(2 * Hour) && effects[2] == Slept(10 * Hour) && effects[4] == Slept(50 * Hour)
  {
    var intervals := Take(Intervals.ExponentialIntervals(2 * Hour, 5), 3);
    assert intervals.length == Finite(3);
    var candidates := (k: nat) => k + 1;
    var until := (v: int) => v == 5;
    result, effects := Retry(1, candidates, until, intervals);
    assert forall k :: 0 <= k < 3 ==> !until(candidates(k));
    assert result.error.TimedOut?;
    Intervals.ExponentialIntervalsAt(2 * Hour, 5, 0);
    Intervals.ExponentialIntervalsAt(2 * Hour, 5, 1);
    Intervals.ExponentialIntervalsAt(2 * Hour, 5, 2);
  }
}
