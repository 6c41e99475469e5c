/**
 * The random-value helpers of Random.kt. The `RandomGenerator` is an oracle:
 * the n-th bounded draw made from it is computed from the raw value
 * `draws(n)`, and every helper is given the position of its first draw. Each
 * `nextInt`/`nextLong` call uses one draw, so elements of a lazy sequence use
 * consecutive positions as the sequence is iterated.
 */
module Random {
  import opened Wrappers
  import opened Sequences
  import opened Durations

  datatype Generator = Generator(draws: nat -> int)

  /** The `IllegalArgumentException`s the helpers throw, one per message. */
  datatype IllegalArgument =
    | CollectionIsEmpty
    | HasNoValues(typeName: string)
    | MinLengthNegative(minLength: int)
    | MinLengthExceedsMaxLength(minLength: int, maxLength: int)
    | MinExceedsMax(min: Duration, max: Duration)
    | BoundMustBeGreaterThanOrigin

  /** A value drawn from the generator, and the position of the next draw. */
  datatype Drawn<T> = Drawn(value: T, next: nat)

  const IntMax: int := 0x7fff_ffff

  /** Kotlin `Int` arithmetic: `x` reduced to 32-bit two's complement. */
  function Wrap32(x: int): (r: Int32)
    ensures -0x8000_0000 <= x < 0x8000_0000 ==> r == x
    ensures (r - x) % 0x1_0000_0000 == 0
  {
    (x + 0x8000_0000) % 0x1_0000_0000 - 0x8000_0000
  }

  /** `nextInt(bound)` for a positive bound: a value in `[0, bound)`. */
  function NextInt(g: Generator, p: nat, bound: int): (r: nat)
    requires bound > 0
    ensures r < bound
  {
    g.draws(p) % bound
  }

  /** `nextInt(origin, bound)` and `nextLong(origin, bound)`: a value in `[origin, bound)`, or the JDK's rejection of an empty range. */
  function NextBetween(g: Generator, p: nat, origin: int, bound: int): (r: Result<int, IllegalArgument>)
    ensures r.Success? <==> origin < bound
    ensures r.Failure? ==> r.error == BoundMustBeGreaterThanOrigin
    ensures r.Success? ==> origin <= r.value < bound
  {
    if origin < bound then Success(origin + g.draws(p) % (bound - origin)) else Failure(BoundMustBeGreaterThanOrigin)
  }

  /** `nextFrom(collection)`: the element at a drawn index, or failure on an empty collection. */
  function NextFrom<T>(g: Generator, p: nat, collection: seq<T>): (r: Result<T, IllegalArgument>)
    ensures r.Failure? <==> |collection| == 0
    ensures r.Failure? ==> r.error == CollectionIsEmpty
    ensures r.Success? ==> r.value in collection && r.value == collection[NextInt(g, p, |collection|)]
  {
    if |collection| == 0 then Failure(CollectionIsEmpty) else Success(collection[NextInt(g, p, |collection|)])
  }

  /** `valuesFrom(collection)`: fails at once on an empty collection, otherwise an unbounded sequence of members. */
  function ValuesFrom<T>(g: Generator, p: nat, collection: seq<T>): (r: Result<Sequence<T>, IllegalArgument>)
    ensures r.Failure? <==> |collection| == 0
    ensures r.Failure? ==> r.error == CollectionIsEmpty
    ensures r.Success? ==> r.value.length.Infinite?
    ensures r.Success? ==> forall i: nat :: NextFrom(g, p + i, collection) == Success(r.value.at(i)) && r.value.at(i) in collection
  {
    if |collection| == 0 then Failure(CollectionIsEmpty)
    else Success(Sequence(Infinite, (i: nat) => NextFrom(g, p + i, collection).value))
  }

  /** `nextFrom<T>(values)` for an enum `typeName` whose chosen constants are `values`, in ordinal order. */
  function NextFromEnum<T>(g: Generator, p: nat, values: seq<T>, typeName: string): (r: Result<T, IllegalArgument>)
    ensures r.Failure? <==> |values| == 0
    ensures r.Failure? ==> r.error == HasNoValues(typeName)
    ensures r.Success? ==> r.value in values && r.value == values[NextInt(g, p, |values|)]
  {
    if |values| == 0 then Failure(HasNoValues(typeName)) else Success(values[NextInt(g, p, |values|)])
  }

  /** `valuesFrom<T>(values)`: fails at once when `values` is empty, otherwise an unbounded sequence of its constants. */
  function ValuesFromEnum<T>(g: Generator, p: nat, values: seq<T>, typeName: string): (r: Result<Sequence<T>, IllegalArgument>)
    ensures r.Failure? <==> |values| == 0
    ensures r.Failure? ==> r.error == HasNoValues(typeName)
    ensures r.Success? ==> r.value.length.Infinite?
    ensures r.Success? ==> forall i: nat :: NextFromEnum(g, p + i, values, typeName) == Success(r.value.at(i)) && r.value.at(i) in values
  {
    if |values| == 0 then Failure(HasNoValues(typeName))
    else Success(Sequence(Infinite, (i: nat) => NextFromEnum(g, p + i, values, typeName).value))
  }

  /**
   * `chars(allowedCharacters)`: an unbounded sequence of allowed characters.
   * Nothing is checked up front; with no allowed characters, drawing any
   * element fails.
   */
  function Chars(g: Generator, p: nat, allowed: seq<char>): (r: Sequence<Result<char, IllegalArgument>>)
    ensures r.length.Infinite?
    ensures forall i: nat :: r.at(i) == NextFrom(g, p + i, allowed)
    ensures forall i: nat :: r.at(i).Failure? <==> |allowed| == 0
    ensures forall i: nat :: r.at(i).Success? ==> r.at(i).value in allowed
  {
    Sequence(Infinite, (i: nat) => NextFrom(g, p + i, allowed))
  }

  /** `chars(allowed).take(length).joinToString("")`: `length` drawn characters, failing on the first if none is allowed. */
  function JoinedChars(g: Generator, p: nat, allowed: seq<char>, length: nat): (r: Result<string, IllegalArgument>)
    ensures r.Failure? <==> length > 0 && |allowed| == 0
    ensures r.Failure? ==> r.error == CollectionIsEmpty
    ensures r.Success? ==> |r.value| == length
    ensures r.Success? ==> forall j :: 0 <= j < length ==> Chars(g, p, allowed).at(j) == Success(r.value[j]) && r.value[j] in allowed
  {
    if length == 0 then Success("")
    else if |allowed| == 0 then Failure(CollectionIsEmpty)
    else
      var s := seq(length, j requires 0 <= j < length => NextFrom(g, p + j, allowed).value);
      assert forall j :: 0 <= j < length ==> Chars(g, p, allowed).at(j) == NextFrom(g, p + j, allowed) == Success(s[j]);
      Success(s)
  }

  /**
   * One element of `strings`: a length drawn from `[minLength, bound)`, then
   * that many characters. `bound` is the upper bound that `strings` hands to
   * `nextInt`.
   */
  function DrawString(g: Generator, p: nat, allowed: seq<char>, minLength: nat, bound: int): (r: Drawn<Result<string, IllegalArgument>>)
    ensures r.next > p
    ensures minLength >= bound ==> r.value == Failure(BoundMustBeGreaterThanOrigin)
    ensures minLength < bound && |allowed| > 0 ==> r.value.Success? && minLength <= |r.value.value| < bound
    ensures r.value.Success? ==> forall c :: c in r.value.value ==> c in allowed
  {
    var length := NextBetween(g, p, minLength, bound);
    if length.Failure? then Drawn(Failure(length.error), p + 1)
    else Drawn(JoinedChars(g, p + 1, allowed, length.value), p + 1 + length.value)
  }

  /** The position of the first draw of element `i` of `strings`. */
  function StringPosition(g: Generator, p: nat, allowed: seq<char>, minLength: nat, bound: int, i: nat): nat {
    if i == 0 then p else DrawString(g, StringPosition(g, p, allowed, minLength, bound, i - 1), allowed, minLength, bound).next
  }

  /** `strings` with the given bound for the length draw: the `require` checks up front, then one string per element. */
  function StringsWithBound(g: Generator, p: nat, allowed: seq<char>, minLength: int, maxLength: int, bound: int): (r: Result<Sequence<Result<string, IllegalArgument>>, IllegalArgument>)
    ensures minLength < 0 ==> r == Failure(MinLengthNegative(minLength))
    ensures 0 <= minLength && maxLength < minLength ==> r == Failure(MinLengthExceedsMaxLength(minLength, maxLength))
    ensures r.Success? <==> 0 <= minLength <= maxLength
    ensures r.Success? ==> r.value.length.Infinite?
    ensures r.Success? ==> forall i: nat :: r.value.at(i) == DrawString(g, StringPosition(g, p, allowed, minLength, bound, i), allowed, minLength, bound).value
  {
    if minLength < 0 then Failure(MinLengthNegative(minLength))
    else if maxLength < minLength then Failure(MinLengthExceedsMaxLength(minLength, maxLength))
    else Success(Sequence(Infinite, (i: nat) => DrawString(g, StringPosition(g, p, allowed, minLength, bound, i), allowed, minLength, bound).value))
  }

  /** `strings(allowedCharacters, minLength, maxLength)` as written: the length bound `maxLength + 1` is computed in 32-bit `Int`. */
  function Strings(g: Generator, p: nat, allowed: seq<char>, minLength: Int32 := 0, maxLength: Int32 := 80): (r: Result<Sequence<Result<string, IllegalArgument>>, IllegalArgument>)
    ensures r.Success? <==> 0 <= minLength <= maxLength
    ensures r.Success? ==> r.value.length.Infinite?
  {
    StringsWithBound(g, p, allowed, minLength, maxLength, Wrap32(maxLength + 1))
  }

  /** `strings` with the length bound `maxLength + 1` computed without overflow. */
  function StringsCorrected(g: Generator, p: nat, allowed: seq<char>, minLength: Int32 := 0, maxLength: Int32 := 80): (r: Result<Sequence<Result<string, IllegalArgument>>, IllegalArgument>)
    ensures r.Success? <==> 0 <= minLength <= maxLength
    ensures r.Success? ==> r.value.length.Infinite?
  {
    StringsWithBound(g, p, allowed, minLength, maxLength, maxLength + 1)
  }

  /** Below `Int.MAX_VALUE`, every string has an allowed length and only allowed characters. */
  lemma StringsElements(g: Generator, p: nat, allowed: seq<char>, minLength: Int32, maxLength: Int32, i: nat)
    requires 0 <= minLength <= maxLength < IntMax && |allowed| > 0
    ensures Strings(g, p, allowed, minLength, maxLength).Success?
    ensures var s := Strings(g, p, allowed, minLength, maxLength).value.at(i);
      s.Success? && minLength <= |s.value| <= maxLength && forall c :: c in s.value ==> c in allowed
  {
  }

  /** As written, `maxLength = Int.MAX_VALUE` makes every string fail: the bound wraps to `Int.MIN_VALUE`. */
  lemma StringsOverflowAtMaxLength(g: Generator, p: nat, allowed: seq<char>, minLength: Int32, i: nat)
    requires 0 <= minLength
    ensures Strings(g, p, allowed, minLength, IntMax).Success?
    ensures Strings(g, p, allowed, minLength, IntMax).value.at(i) == Failure(BoundMustBeGreaterThanOrigin)
  {
    assert Wrap32(IntMax + 1) == -0x8000_0000;
  }

  /** With the bound computed without overflow, every valid length range yields strings in range, `Int.MAX_VALUE` included. */
  lemma StringsCorrectedElements(g: Generator, p: nat, allowed: seq<char>, minLength: Int32, maxLength: Int32, i: nat)
    requires 0 <= minLength <= maxLength && |allowed| > 0
    ensures StringsCorrected(g, p, allowed, minLength, maxLength).Success?
    ensures var s := StringsCorrected(g, p, allowed, minLength, maxLength).value.at(i);
      s.Success? && minLength <= |s.value| <= maxLength && forall c :: c in s.value ==> c in allowed
  {
  }

  const LongMin: int := -0x8000_0000_0000_0000
  const LongMax: int := 0x7fff_ffff_ffff_ffff

  /** Kotlin `Long` arithmetic: `x` reduced to 64-bit two's complement. */
  function Wrap64(x: int): (r: Int64)
    ensures LongMin <= x <= LongMax ==> r == x
    ensures (r - x) % 0x1_0000_0000_0000_0000 == 0
  {
    (x + 0x8000_0000_0000_0000) % 0x1_0000_0000_0000_0000 - 0x8000_0000_0000_0000
  }

  /** `Duration.inWholeNanoseconds`: the nanosecond count, coerced into the `Long` range (where `Duration.INFINITE` lands on `Long.MAX_VALUE`). */
  function InWholeNanoseconds(d: Duration): (r: Int64)
    ensures LongMin <= d <= LongMax ==> r == d
    ensures r < d ==> r == LongMax
    ensures d < r ==> r == LongMin
  {
    if d > LongMax then LongMax else if d < LongMin then LongMin else d
  }

  /**
   * `nextDuration(min, max)` as written: the `require`, then a draw from
   * `[min, max + 1)` in nanoseconds, with `max + 1` computed in 64-bit `Long`.
   */
  function NextDuration(g: Generator, p: nat, min: Duration := 0, max: Duration := 10 * Day): (r: Result<Duration, IllegalArgument>)
    ensures r.Failure? <==> min > max || max >= LongMax
    ensures min > max ==> r == Failure(MinExceedsMax(min, max))
    ensures min <= max && max >= LongMax ==> r == Failure(BoundMustBeGreaterThanOrigin)
    ensures r.Success? ==> InWholeNanoseconds(min) <= r.value <= InWholeNanoseconds(max)
    ensures r.Success? && LongMin <= max ==> min <= r.value <= max
  {
    if max < min then Failure(MinExceedsMax(min, max))
    else NextBetween(g, p, InWholeNanoseconds(min), Wrap64(InWholeNanoseconds(max) + 1))
  }

  /** `nextDuration` with the bound `max + 1` computed without overflow. */
  function NextDurationCorrected(g: Generator, p: nat, min: Duration := 0, max: Duration := 10 * Day): (r: Result<Duration, IllegalArgument>)
    ensures r.Failure? <==> min > max
    ensures r.Failure? ==> r.error == MinExceedsMax(min, max)
    ensures r.Success? ==> InWholeNanoseconds(min) <= r.value <= InWholeNanoseconds(max)
    ensures r.Success? && LongMin <= max && min <= LongMax ==> min <= r.value <= max
  {
    if max < min then Failure(MinExceedsMax(min, max))
    else NextBetween(g, p, InWholeNanoseconds(min), InWholeNanoseconds(max) + 1)
  }

  /** As written, a `max` of `Long.MAX_VALUE` nanoseconds or more, `Duration.INFINITE` among them, makes every draw fail: the bound wraps to `Long.MIN_VALUE`. */
  lemma NextDurationOverflowAtLongMax(g: Generator, p: nat, min: Duration)
    requires min <= LongMax
    ensures NextDuration(g, p, min, LongMax) == Failure(BoundMustBeGreaterThanOrigin)
    ensures NextDurationCorrected(g, p, min, LongMax).Success?
  {
    assert Wrap64(LongMax + 1) == LongMin;
  }

  /** Below `Long.MAX_VALUE` nanoseconds the bound does not wrap, so the code as written and the corrected one agree. */
  lemma NextDurationAgreesBelowMax(g: Generator, p: nat, min: Duration, max: Duration)
    requires max < LongMax
    ensures NextDuration(g, p, min, max) == NextDurationCorrected(g, p, min, max)
  {
    assert Wrap64(InWholeNanoseconds(max) + 1) == InWholeNanoseconds(max) + 1;
  }

  /** `durations(min, max)`: an unbounded sequence of `nextDuration` draws; the range is checked per element. */
  function DurationValues(g: Generator, p: nat, min: Duration := 0, max: Duration := 10 * Day): (r: Sequence<Result<Duration, IllegalArgument>>)
    ensures r.length.Infinite?
    ensures forall i: nat :: r.at(i) == NextDuration(g, p + i, min, max)
    ensures forall i: nat :: r.at(i).Failure? <==> min > max || max >= LongMax
    ensures forall i: nat :: r.at(i).Success? ==> InWholeNanoseconds(min) <= r.at(i).value <= InWholeNanoseconds(max)
  {
    Sequence(Infinite, (i: nat) => NextDuration(g, p + i, min, max))
  }

  /** The `runningFold` step of `timeline`: advance the instant by the drawn step, or pass a failure on. */
  function Advance(acc: Result<Instant, IllegalArgument>, step: Result<Duration, IllegalArgument>): Result<Instant, IllegalArgument> {
    if acc.Failure? then acc
    else if step.Failure? then Failure(step.error)
    else Success(acc.value + step.value)
  }

  /** A `java.time.Instant`, in nanoseconds since the epoch. */
  type Instant = int

  /** `timeline(earliestStart, minStep, maxStep)`: the running sum of drawn steps, without `earliestStart` itself. */
  function Timeline(g: Generator, p: nat, earliestStart: Instant, minStep: Duration, maxStep: Duration): (r: Sequence<Result<Instant, IllegalArgument>>)
    ensures r.length.Infinite?
    ensures forall i: nat :: r.at(i) == Fold(DurationValues(g, p, minStep, maxStep), Success(earliestStart), Advance, i + 1)
  {
    Drop(RunningFold(DurationValues(g, p, minStep, maxStep), Success(earliestStart), Advance), 1)
  }

  /**
   * Each instant of a timeline lies between `minStep` and `maxStep` (as
   * whole nanoseconds) after the one before it, the first after
   * `earliestStart`, whenever the steps can be drawn.
   */
  lemma {:induction false} TimelineSteps(g: Generator, p: nat, earliestStart: Instant, minStep: Duration, maxStep: Duration, i: nat)
    requires minStep <= maxStep < LongMax
    ensures Timeline(g, p, earliestStart, minStep, maxStep).at(i).Success?
    ensures i == 0 ==> InWholeNanoseconds(minStep) <= Timeline(g, p, earliestStart, minStep, maxStep).at(i).value - earliestStart <= InWholeNanoseconds(maxStep)
    ensures i > 0 ==> Timeline(g, p, earliestStart, minStep, maxStep).at(i - 1).Success?
    ensures i > 0 ==> InWholeNanoseconds(minStep) <= Timeline(g, p, earliestStart, minStep, maxStep).at(i).value - Timeline(g, p, earliestStart, minStep, maxStep).at(i - 1).value <= InWholeNanoseconds(maxStep)
  {
    var steps := DurationValues(g, p, minStep, maxStep);
    FoldSucceeds(g, p, earliestStart, minStep, maxStep, i);
    assert Fold(steps, Success(earliestStart), Advance, i + 1) == Advance(Fold(steps, Success(earliestStart), Advance, i), steps.at(i));
  }

  lemma {:induction false} FoldSucceeds(g: Generator, p: nat, earliestStart: Instant, minStep: Duration, maxStep: Duration, n: nat)
    requires minStep <= maxStep < LongMax
    ensures Fold(DurationValues(g, p, minStep, maxStep), Success(earliestStart), Advance, n).Success?
  {
    if n > 0 {
      FoldSucceeds(g, p, earliestStart, minStep, maxStep, n - 1);
    }
  }

  /** A timeline whose steps cannot be drawn fails at every element, with the error of its first draw. */
  lemma {:induction false} TimelineFailsWhenStepsCannotBeDrawn(g: Generator, p: nat, earliestStart: Instant, minStep: Duration, maxStep: Duration, i: nat)
    requires maxStep < minStep || LongMax <= maxStep
    ensures Timeline(g, p, earliestStart, minStep, maxStep).at(i)
      == Failure(if maxStep < minStep then MinExceedsMax(minStep, maxStep) else BoundMustBeGreaterThanOrigin)
  {
    if i > 0 {
      TimelineFailsWhenStepsCannotBeDrawn(g, p, earliestStart, minStep, maxStep, i - 1);
    }
  }

  /** A one-element collection always yields that element; so does an enum with one constant. */
  lemma SingletonExamples(g: Generator, p: nat)
    ensures NextFrom(g, p, [1, 1, 1]) == Success(1)
    ensures NextFrom(g, p, [1]) == Success(1)
    ensures ValuesFrom(g, p, [1]).Success? && Prefix(ValuesFrom(g, p, [1]).value, 2) == [1, 1]
    ensures NextFromEnum(g, p, ['A'], "TestEnum") == Success('A')
    ensures ValuesFromEnum(g, p, ['A'], "TestEnum").Success? && Prefix(ValuesFromEnum(g, p, ['A'], "TestEnum").value, 2) == ['A', 'A']
    ensures NextFrom<int>(g, p, []) == Failure(CollectionIsEmpty)
  {
    var v := ValuesFrom(g, p, [1]).value;
    assert v.at(0) in [1] && v.at(1) in [1];
    var e := ValuesFromEnum(g, p, ['A'], "TestEnum").value;
    assert e.at(0) in ['A'] && e.at(1) in ['A'];
  }

  lemma OnlyA(s: string)
    requires |s| == 3 && forall c :: c in s ==> c in ['a']
    ensures s == "aaa"
  {
    assert s[0] in s && s[1] in s && s[2] in s;
  }

  /** Below `Int.MAX_VALUE` the bound does not wrap, so the code as written and the corrected one agree. */
  lemma StringsAgreeBelowMax(g: Generator, p: nat, allowed: seq<char>, minLength: Int32, maxLength: Int32)
    requires maxLength < IntMax
    ensures Strings(g, p, allowed, minLength, maxLength) == StringsCorrected(g, p, allowed, minLength, maxLength)
  {
    assert Wrap32(maxLength + 1) == maxLength + 1;
  }

  /** `chars(setOf('a')).take(3)` is "aaa"; `strings(setOf('a'), 3, 3).take(2)` is "aaa", "aaa". */
  lemma StringExamples(g: Generator, p: nat)
    ensures JoinedChars(g, p, ['a'], 3) == Success("aaa")
    ensures StringsCorrected(g, p, ['a'], 3, 3).Success?
    ensures StringsCorrected(g, p, ['a'], 3, 3).value.at(0) == Success("aaa")
    ensures StringsCorrected(g, p, ['a'], 3, 3).value.at(1) == Success("aaa")
    ensures Strings(g, p, ['a'], 3, 3) == StringsCorrected(g, p, ['a'], 3, 3)
  {
    var s := JoinedChars(g, p, ['a'], 3).value;
    assert forall j :: 0 <= j < 3 ==> s[j] in ['a'];
    OnlyA(s);
    StringsCorrectedElements(g, p, ['a'], 3, 3, 0);
    OnlyA(StringsCorrected(g, p, ['a'], 3, 3).value.at(0).value);
    StringsCorrectedElements(g, p, ['a'], 3, 3, 1);
    OnlyA(StringsCorrected(g, p, ['a'], 3, 3).value.at(1).value);
    StringsAgreeBelowMax(g, p, ['a'], 3, 3);
  }

  /** Equal bounds of one hour: every duration is one hour, and the timeline from the epoch is +1h, +2h, +3h. */
  lemma DurationExamples(g: Generator, p: nat)
    ensures NextDuration(g, p, Hour, Hour) == Success(Hour)
    ensures Prefix(DurationValues(g, p, Hour, Hour), 3) == [Success(Hour), Success(Hour), Success(Hour)]
    ensures Prefix(Timeline(g, p, 0, Hour, Hour), 3) == [Success(Hour), Success(2 * Hour), Success(3 * Hour)]
  {
    TimelineSteps(g, p, 0, Hour, Hour, 0);
    TimelineSteps(g, p, 0, Hour, Hour, 1);
    TimelineSteps(g, p, 0, Hour, Hour, 2);
  }
}
