# Unstructured logging bridge and Kotlin utilities, in Dafny

This project models the `abstrate` libraries' SLF4J bridge for unstructured logs, together with the small Kotlin utilities around it. Dafny proves the properties listed below about the model.

**The logging bridge** (`unstructured_logging.dfy`, `log_levels.dfy`, `logger_names.dfy`):
- Loggers handed out before `recordUnstructuredLogsTo` are *deferred*. They let every level through and buffer each event with the time it arrived.
- Configuring logging is allowed once. It installs the configuration and then configures every waiting logger in the order they were created. Each such logger drains its buffer, in order, through the level its name resolves to.
- A name's level is the override of the nearest name up its dot-separated hierarchy, or the default when no name up the hierarchy has one.
- Loggers handed out after configuring filter by that level and deliver straight to the `record` callback.
- State is held in classes whose methods update it in place:
  - `Bridge` holds the module-level configuration and the queue of deferred loggers;
  - `DeferredSlf4jLogger` holds its buffer and its configured delegate;
  - `Configuration` holds what the callback has received so far.

`logging_scenarios.dfy` restates the bridge's tests as scenarios proved of the model: level inheritance, filtering after configuration, buffering before it, and the passing through of markers, throwables and MDC.

**The Kotlin utilities:**
- `queues.dfy`: `drainTo`.
- `retry.dfy`: both `retry` overloads.
- `intervals.dfy`: `immediately`, constant, exponential and capped interval sequences.
- `durations.dfy`: `Duration.times`.
- `comparables.dfy`: `cappedAt`.
- `sets.dfy`: the insertion-ordered set builders, with a `LinkedHashSet` as a duplicate-free sequence in insertion order.
- `random.dfy`: the random helpers, with the generator as an oracle of raw draws.

Modelling choices:
- Durations and instants are whole nanoseconds.
- A Kotlin lazy `Sequence` is its length (finite or unbounded) plus the element at each position (`sequences.dfy`).
- Effects the model cannot perform become parameters or records:
  - the clock is a `now` argument;
  - `sleep` and `attempt` are recorded in an effect list, with `attempt` as an oracle of candidates;
  - the random generator is an oracle.

## Model

| member | source | states |
|---|---|---|
| Comparables.CappedAt | libraries/kotlin/src/main/kotlin/dev/abstrate/kotlin/Comparables.kt:3-4 | the result is at most `max` and at most the value, and it is one of the two |
| Comparables.CappedAtIdempotent | libraries/kotlin/src/main/kotlin/dev/abstrate/kotlin/Comparables.kt:3-4 | capping twice at the same maximum is the same as capping once |
| Comparables.CappedAtExamples | libraries/kotlin/src/test/kotlin/dev/abstrate/kotlin/ComparablesKtTests.kt:8-21 | capping at 5 gives 3 for 3, 5 for 7 and 5 for 5 |
| Durations.TimesLong | libraries/kotlin/src/main/kotlin/dev/abstrate/kotlin/Durations.kt:8-9 | the product is zero exactly when a factor is, keeps the duration's sign for a positive multiplicand and flips it for a negative one |
| Durations.TimesInt | libraries/kotlin/src/main/kotlin/dev/abstrate/kotlin/Durations.kt:5-6 | the same sign rules for an `Int` multiplicand |
| Durations.TimesIsRepeatedAddition | libraries/kotlin/src/main/kotlin/dev/abstrate/kotlin/Durations.kt:5-9 | both overloads give `k` copies of the duration added together for `k >= 0`, and the negation of `-k` copies for `k < 0`, so the `Int` overload agrees with the `Long` one on every `Int`, negative ones included |
| Intervals.Immediately | libraries/kotlin/src/main/kotlin/dev/abstrate/kotlin/Intervals.kt:5 | a finite sequence whose list is exactly `[ZERO]` |
| Intervals.ConstantIntervals | libraries/kotlin/src/main/kotlin/dev/abstrate/kotlin/Intervals.kt:7-10 | an unbounded sequence that starts at the interval |
| Intervals.ExponentialIntervals | libraries/kotlin/src/main/kotlin/dev/abstrate/kotlin/Intervals.kt:12-15 | an unbounded sequence that starts at the initial interval, each next element being the one before times the multiplier |
| Intervals.ConstantIntervalsAt | libraries/kotlin/src/main/kotlin/dev/abstrate/kotlin/Intervals.kt:7-10 | every position exists (the sequence never ends) and holds the given interval |
| Intervals.ExponentialIntervalsAt | libraries/kotlin/src/main/kotlin/dev/abstrate/kotlin/Intervals.kt:12-15 | every position exists, and element `i` is `initial * multiplier^i` |
| Intervals.ExponentialWithMultiplierOneIsConstant | libraries/kotlin/src/test/kotlin/dev/abstrate/kotlin/IntervalsKtTests.kt:26-34 | with multiplier 1 the sequence never ends and every element equals the initial interval |
| Intervals.CappedAt | libraries/kotlin/src/main/kotlin/dev/abstrate/kotlin/Intervals.kt:17-20 | the length is unchanged, no element exceeds `max`, elements below `max` are kept, and the others become `max` |
| Intervals.ExponentialExamples | libraries/kotlin/src/test/kotlin/dev/abstrate/kotlin/IntervalsKtTests.kt:36-77 | the first five intervals from 7 ms doubling are 7, 14, 28, 56 and 112 ms; capped at 20 ms they are 7, 14, 20, 20 and 20 ms |
| Queues.Queue.Poll | libraries/kotlin/src/main/kotlin/dev/abstrate/kotlin/Queues.kt:6 | an empty queue yields nothing and stays empty; otherwise the head is returned and the rest remains |
| Queues.Queue.DrainTo | libraries/kotlin/src/main/kotlin/dev/abstrate/kotlin/Queues.kt:5-8 | afterwards the queue is empty and the sink has received every element once, head first, after what it held before |
| Queues.DrainEmpty | libraries/kotlin/src/test/kotlin/dev/abstrate/kotlin/QueuesKtTests.kt:9-15 | draining an empty queue hands the sink nothing |
| Queues.DrainInOrder | libraries/kotlin/src/test/kotlin/dev/abstrate/kotlin/QueuesKtTests.kt:17-23 | draining 1, 2, 3 hands the sink 1, 2, 3 in that order |
| Retry.RetryAttempts | libraries/kotlin/src/main/kotlin/dev/abstrate/kotlin/Retry.kt:21-35 | the effects alternate: a sleep for interval k, then attempt k, over a prefix of the intervals. Success returns the first candidate that satisfies `until`. Failure means the intervals ran out with no candidate satisfying `until` |
| Retry.Retry | libraries/kotlin/src/main/kotlin/dev/abstrate/kotlin/Retry.kt:8-19 | an initial value that satisfies `until` is returned with no sleep and no attempt; otherwise the same as `RetryAttempts` |
| Retry.UseInitialValue | libraries/kotlin/src/test/kotlin/dev/abstrate/kotlin/RetryKtTests.kt:13-24 | an initial value of 1 with `until` "is 1" returns 1 and records no effect |
| Retry.RetryOnce | libraries/kotlin/src/test/kotlin/dev/abstrate/kotlin/RetryKtTests.kt:26-39 | with `immediately`, one zero sleep, then one attempt that returns 2 and succeeds |
| Retry.RetryUntilConditionMet | libraries/kotlin/src/test/kotlin/dev/abstrate/kotlin/RetryKtTests.kt:41-54 | constant hourly intervals with the attempt returning the number of sleeps so far: succeeds with 5 after five sleeps |
| Retry.GiveUpWhenIntervalsRunOut | libraries/kotlin/src/test/kotlin/dev/abstrate/kotlin/RetryKtTests.kt:56-69 | three hourly intervals: `TimedOut` after exactly three one-hour sleeps |
| Retry.SleepBasedOnIntervals | libraries/kotlin/src/test/kotlin/dev/abstrate/kotlin/RetryKtTests.kt:71-82 | exponential intervals from 2 h by 5, taking three: sleeps of 2 h, 10 h and 50 h, then `TimedOut` |
| Random.Wrap32 | libraries/kotlin/src/main/kotlin/dev/abstrate/kotlin/Random.kt:55 | Kotlin `Int` arithmetic: values in range are unchanged, and the result is congruent to the input modulo 2^32 |
| Random.NextInt | libraries/kotlin/src/main/kotlin/dev/abstrate/kotlin/Random.kt:14 | a draw with a positive bound lies in `[0, bound)` |
| Random.NextBetween | libraries/kotlin/src/main/kotlin/dev/abstrate/kotlin/Random.kt:65 | succeeds exactly when `origin < bound`, with a value in `[origin, bound)`; otherwise fails with the bound-not-greater error |
| Random.NextFrom | libraries/kotlin/src/main/kotlin/dev/abstrate/kotlin/Random.kt:10-15 | fails with "Collection is empty" exactly on an empty collection; otherwise returns the element at the drawn index, which is a member |
| Random.ValuesFrom | libraries/kotlin/src/main/kotlin/dev/abstrate/kotlin/Random.kt:17-24 | fails at once exactly on an empty collection; otherwise an unbounded sequence whose every element is a `nextFrom` draw and a member |
| Random.NextFromEnum | libraries/kotlin/src/main/kotlin/dev/abstrate/kotlin/Random.kt:26-31 | fails with "&lt;type&gt; has no values" exactly when there are no constants; otherwise returns one of them |
| Random.ValuesFromEnum | libraries/kotlin/src/main/kotlin/dev/abstrate/kotlin/Random.kt:33-40 | fails at once exactly when there are no constants; otherwise an unbounded sequence of them |
| Random.Chars | libraries/kotlin/src/main/kotlin/dev/abstrate/kotlin/Random.kt:42-45 | unbounded; every element fails exactly when no character is allowed, and otherwise is an allowed character |
| Random.JoinedChars | libraries/kotlin/src/main/kotlin/dev/abstrate/kotlin/Random.kt:55-56 | taking `length` characters fails exactly when `length > 0` and none is allowed; otherwise `length` allowed characters, the elements of `chars` |
| Random.DrawString | libraries/kotlin/src/main/kotlin/dev/abstrate/kotlin/Random.kt:54-57 | an empty length range fails; otherwise, with allowed characters, the string's length is in `[minLength, bound)`; a string uses only allowed characters |
| Random.StringsWithBound | libraries/kotlin/src/main/kotlin/dev/abstrate/kotlin/Random.kt:47-58 | the two `require` checks, in order, with their messages; succeeds exactly when `0 <= minLength <= maxLength`, as an unbounded sequence of drawn strings |
| Random.Strings | libraries/kotlin/src/main/kotlin/dev/abstrate/kotlin/Random.kt:47-58 | as written (the bound `maxLength + 1` in 32-bit `Int`): succeeds exactly when `0 <= minLength <= maxLength`, with an unbounded sequence |
| Random.StringsElements | libraries/kotlin/src/main/kotlin/dev/abstrate/kotlin/Random.kt:52-56 | as written, for `maxLength < Int.MAX_VALUE`: every string has a length in `[minLength, maxLength]` and only allowed characters |
| Random.StringsOverflowAtMaxLength | libraries/kotlin/src/main/kotlin/dev/abstrate/kotlin/Random.kt:55 | as written, `maxLength = Int.MAX_VALUE` makes every element fail, because the bound wraps |
| Random.StringsCorrected | libraries/kotlin/src/main/kotlin/dev/abstrate/kotlin/Random.kt:47-58 | with the bound computed without overflow: succeeds exactly when `0 <= minLength <= maxLength` |
| Random.StringsCorrectedElements | libraries/kotlin/src/main/kotlin/dev/abstrate/kotlin/Random.kt:52-56 | corrected: for every valid range, `Int.MAX_VALUE` included, every string has a length in `[minLength, maxLength]` and only allowed characters |
| Random.StringsAgreeBelowMax | libraries/kotlin/src/main/kotlin/dev/abstrate/kotlin/Random.kt:55 | below `Int.MAX_VALUE` the code as written and the corrected one are the same |
| Random.Wrap64 | libraries/kotlin/src/main/kotlin/dev/abstrate/kotlin/Random.kt:65 | Kotlin `Long` arithmetic: values in range are unchanged, and the result is congruent to the input modulo 2^64 |
| Random.InWholeNanoseconds | libraries/kotlin/src/main/kotlin/dev/abstrate/kotlin/Random.kt:65 | `inWholeNanoseconds`: a duration in the `Long` range is unchanged; one outside it is moved only to the nearer `Long` bound |
| Random.NextDuration | libraries/kotlin/src/main/kotlin/dev/abstrate/kotlin/Random.kt:60-66 | as written (the bound `max.inWholeNanoseconds + 1` in 64-bit `Long`): fails with the min-exceeds-max error exactly when `min > max`, and with the JDK's empty-range error exactly when `min <= max` and `max` is `Long.MAX_VALUE` nanoseconds or more; otherwise the value lies between the whole-nanosecond bounds, and in `[min, max]` once `max` is within the `Long` range |
| Random.NextDurationCorrected | libraries/kotlin/src/main/kotlin/dev/abstrate/kotlin/Random.kt:60-66 | with the bound computed without overflow: fails exactly when `min > max`, and otherwise draws between the whole-nanosecond bounds, `Duration.INFINITE` as `max` included |
| Random.NextDurationOverflowAtLongMax | libraries/kotlin/src/main/kotlin/dev/abstrate/kotlin/Random.kt:65 | as written, `max` of `Long.MAX_VALUE` nanoseconds makes the draw fail although the `require` accepted it; the corrected draw succeeds |
| Random.NextDurationAgreesBelowMax | libraries/kotlin/src/main/kotlin/dev/abstrate/kotlin/Random.kt:65 | below `Long.MAX_VALUE` nanoseconds the code as written and the corrected one agree |
| Random.DurationValues | libraries/kotlin/src/main/kotlin/dev/abstrate/kotlin/Random.kt:68-74 | unbounded; element `i` is the `nextDuration` draw at position `p + i`; every element fails exactly when `nextDuration` does, and otherwise lies between the whole-nanosecond bounds |
| Random.Timeline | libraries/kotlin/src/main/kotlin/dev/abstrate/kotlin/Random.kt:76-83 | unbounded; element `i` is the running sum after `i + 1` drawn steps, without `earliestStart` itself |
| Random.TimelineSteps | libraries/kotlin/src/main/kotlin/dev/abstrate/kotlin/Random.kt:76-83 | when the steps can be drawn (`minStep <= maxStep` and `maxStep` below `Long.MAX_VALUE` nanoseconds) every instant exists; the first lies between `minStep` and `maxStep` after `earliestStart`, and each next one between `minStep` and `maxStep` after the one before, in whole nanoseconds |
| Random.TimelineFailsWhenStepsCannotBeDrawn | libraries/kotlin/src/main/kotlin/dev/abstrate/kotlin/Random.kt:76-83 | when the steps cannot be drawn every element of the timeline fails, with the min-exceeds-max error when `maxStep < minStep` and with the empty-range error otherwise |
| Random.SingletonExamples | libraries/kotlin/src/test/kotlin/dev/abstrate/kotlin/RandomKtTests.kt:12-42 | the empty collection fails; `[1, 1, 1]` and `{1}` give 1; `valuesFrom({1})` starts 1, 1; a one-constant enum gives that constant |
| Random.StringExamples | libraries/kotlin/src/test/kotlin/dev/abstrate/kotlin/RandomKtTests.kt:44-52 | `chars({'a'})` taking 3 gives "aaa"; strings of length 3 from `{'a'}` are "aaa", "aaa" |
| Random.DurationExamples | libraries/kotlin/src/test/kotlin/dev/abstrate/kotlin/RandomKtTests.kt:54-85 | bounds of one hour give one hour each time; the timeline from the epoch is +1 h, +2 h, +3 h |
| LogLevels.ToLogLevel | libraries/logging/src/main/kotlin/dev/abstrate/logging/UnstructuredLogging.kt:208-215 | every event level maps to a log level other than `None` |
| LogLevels.ToLogLevelOrder | libraries/logging/src/main/kotlin/dev/abstrate/logging/UnstructuredLogging.kt:208-215 | the mapping is one-to-one and keeps severity order TRACE < DEBUG < INFO < WARN < ERROR |
| LogLevels.Enabled | libraries/logging/src/main/kotlin/dev/abstrate/logging/UnstructuredLogging.kt:192-196 | an enabled event means a log level other than `None`; `Trace` enables every event; `Error` events are enabled exactly when the log level is not `None` |
| LogLevels.EnabledLevels | libraries/logging/src/main/kotlin/dev/abstrate/logging/UnstructuredLogging.kt:192-196 | an event is enabled exactly when the log level is not `None` and at most the event's level |
| LogLevels.ToJavaUtilLogging | libraries/logging/src/main/kotlin/dev/abstrate/logging/UnstructuredLogging.kt:137-145 | `OFF` exactly for `None`, and every level between `FINEST` and `OFF` |
| LogLevels.ToJavaUtilLoggingOrder | libraries/logging/src/main/kotlin/dev/abstrate/logging/UnstructuredLogging.kt:137-145 | the `java.util.logging` level keeps the order of log levels in both directions and is one-to-one |
| LoggerNames.LastIndexOfResult | libraries/logging/src/main/kotlin/dev/abstrate/logging/UnstructuredLogging.kt:76 | a found position holds the character and none follows it; -1 means it does not occur |
| LoggerNames.SubstringBeforeLastResult | libraries/logging/src/main/kotlin/dev/abstrate/logging/UnstructuredLogging.kt:76 | without the character the string is kept; otherwise it is the strictly shorter prefix ending just before the last occurrence |
| LoggerNames.LoggerNameHierarchy | libraries/logging/src/main/kotlin/dev/abstrate/logging/UnstructuredLogging.kt:74-78 | the hierarchy is never empty, starts with the name itself, and no element is longer than the name |
| LoggerNames.HierarchyEnds | libraries/logging/src/main/kotlin/dev/abstrate/logging/UnstructuredLogging.kt:74-78 | the hierarchy starts with the name itself and ends with a name that has no dot |
| LoggerNames.HierarchySteps | libraries/logging/src/main/kotlin/dev/abstrate/logging/UnstructuredLogging.kt:74-78 | each element but the last has a dot, and the next is it with its last segment removed |
| LoggerNames.HierarchyPrefixes | libraries/logging/src/main/kotlin/dev/abstrate/logging/UnstructuredLogging.kt:74-78 | every element is a prefix of the name |
| LoggerNames.HierarchyLength | libraries/logging/src/main/kotlin/dev/abstrate/logging/UnstructuredLogging.kt:74-78 | the hierarchy has one element more than the name has dots, so the walk ends |
| LoggerNames.HierarchyExamples | libraries/structured-logging/src/test/kotlin/dev/abstrate/structuredlogging/UnstructuredLoggingKtTests.kt:39-49 | "a" gives ["a"]; "a.bc.d" gives ["a.bc.d", "a.bc", "a"] |
| LoggerNames.FirstOverride | libraries/logging/src/main/kotlin/dev/abstrate/logging/UnstructuredLogging.kt:67-70 | a found level is one of the overrides' values |
| LoggerNames.FirstOverrideResult | libraries/logging/src/main/kotlin/dev/abstrate/logging/UnstructuredLogging.kt:67-71 | there is no override exactly when no name has one; otherwise it is the override of the first name that has one |
| LoggerNames.LogLevelFor | libraries/logging/src/main/kotlin/dev/abstrate/logging/UnstructuredLogging.kt:67-71 | the resolved level is the default or one of the overrides' values |
| LoggerNames.LogLevelForResolution | libraries/logging/src/main/kotlin/dev/abstrate/logging/UnstructuredLogging.kt:67-71 | a name's own override wins; a name with no override anywhere up its hierarchy gets the default |
| LoggerNames.LogLevelInherited | libraries/logging/src/main/kotlin/dev/abstrate/logging/UnstructuredLogging.kt:67-71 | a dotted name without its own override has its parent's level |
| LoggerNames.LogLevelExamples | libraries/structured-logging/src/test/kotlin/dev/abstrate/structuredlogging/UnstructuredLoggingKtTests.kt:51-71 | with {a.b.c: Error, a.b: Trace} and default Info: a gives Info, a.b Trace, a.b.c Error, a.b.c.d Error, a.b.d Trace |
| UnstructuredLogging.ToUnstructuredLog | libraries/logging/src/main/kotlin/dev/abstrate/logging/UnstructuredLogging.kt:147-155 | name, level, message, throwable and marker are carried over; the MDC is present exactly when the context map is present and non-empty; `bufferedAt` is absent |
| UnstructuredLogging.FilterMembers | libraries/logging/src/main/kotlin/dev/abstrate/logging/UnstructuredLogging.kt:207-219 | a log is passed on exactly when it is one of the inputs and enabled at the level |
| UnstructuredLogging.FilterAppend | libraries/logging/src/main/kotlin/dev/abstrate/logging/UnstructuredLogging.kt:207-219 | filtering two runs of logs one after the other is filtering them together, so order is kept |
| UnstructuredLogging.FilterExtremes | libraries/logging/src/main/kotlin/dev/abstrate/logging/UnstructuredLogging.kt:41-43 | level `None` passes nothing on and `Trace` passes everything |
| UnstructuredLogging.Configuration.constructor | libraries/logging/src/main/kotlin/dev/abstrate/logging/UnstructuredLogging.kt:62-66 | holds the overrides and the default, and has recorded nothing |
| UnstructuredLogging.Configuration.LogLevelOf | libraries/logging/src/main/kotlin/dev/abstrate/logging/UnstructuredLogging.kt:62-72 | a name with its own override gets that override; every name gets the default or one of the overrides' values |
| UnstructuredLogging.Configuration.Record | libraries/logging/src/main/kotlin/dev/abstrate/logging/UnstructuredLogging.kt:63 | the `record` callback: the log is appended to what was received |
| UnstructuredLogging.Slf4jLogger.constructor | libraries/logging/src/main/kotlin/dev/abstrate/logging/UnstructuredLogging.kt:187-191 | the logger's level is resolved from its name once, at creation |
| UnstructuredLogging.Slf4jLogger.IsEnabled | libraries/logging/src/main/kotlin/dev/abstrate/logging/UnstructuredLogging.kt:192-196 | `isTraceEnabled` .. `isErrorEnabled`: enabled exactly when the resolved level is not `None` and at most the event's level |
| UnstructuredLogging.Slf4jLogger.HandleNormalizedLoggingCall | libraries/logging/src/main/kotlin/dev/abstrate/logging/UnstructuredLogging.kt:199-201 | the call's log, without `bufferedAt`, is appended to what the callback received |
| UnstructuredLogging.Slf4jLogger.Record | libraries/logging/src/main/kotlin/dev/abstrate/logging/UnstructuredLogging.kt:203-205 | the log is appended unconditionally |
| UnstructuredLogging.Slf4jLogger.RecordIfLevelIsEnabled | libraries/logging/src/main/kotlin/dev/abstrate/logging/UnstructuredLogging.kt:207-219 | the log is appended exactly when its level is enabled at the logger's level |
| UnstructuredLogging.Slf4jLogger.Log | libraries/logging/src/main/kotlin/dev/abstrate/logging/UnstructuredLogging.kt:192-201 | a front-end call gated by `is*Enabled`: the log is delivered exactly when enabled |
| UnstructuredLogging.DeferredSlf4jLogger.constructor | libraries/logging/src/main/kotlin/dev/abstrate/logging/UnstructuredLogging.kt:222-228 | a deferred logger starts with an empty buffer and no delegate |
| UnstructuredLogging.DeferredSlf4jLogger.IsEnabled | libraries/logging/src/main/kotlin/dev/abstrate/logging/UnstructuredLogging.kt:229-233 | every level is enabled until configured; afterwards exactly the levels the delegate's resolved level enables |
| UnstructuredLogging.DeferredSlf4jLogger.HandleNormalizedLoggingCall | libraries/logging/src/main/kotlin/dev/abstrate/logging/UnstructuredLogging.kt:236-244 | configured: delivered directly and the buffer is untouched; unconfigured: appended to the buffer stamped with `now`, and nothing is delivered |
| UnstructuredLogging.DeferredSlf4jLogger.Configure | libraries/logging/src/main/kotlin/dev/abstrate/logging/UnstructuredLogging.kt:246-249 | afterwards the logger delivers to the configuration through a fresh delegate at the name's level, and the old buffer has been passed on, filtered, in order |
| UnstructuredLogging.DeferredSlf4jLogger.DrainBufferIfConfigured | libraries/logging/src/main/kotlin/dev/abstrate/logging/UnstructuredLogging.kt:251-258 | unconfigured: nothing changes; configured: the buffer ends empty and its enabled logs are delivered in FIFO order |
| UnstructuredLogging.DeferredSlf4jLogger.Log | libraries/logging/src/main/kotlin/dev/abstrate/logging/UnstructuredLogging.kt:229-244 | unconfigured, every level is enabled and the call is buffered; configured, the delegate's level gates direct delivery |
| UnstructuredLogging.DeliveredMembers | libraries/logging/src/main/kotlin/dev/abstrate/logging/UnstructuredLogging.kt:34-36 | everything delivered on configuring was buffered by some queued logger and is enabled at that logger's level, and conversely |
| UnstructuredLogging.DeliveredPrefix | libraries/logging/src/main/kotlin/dev/abstrate/logging/UnstructuredLogging.kt:34-36 | the logs of earlier-created loggers come before those of later ones (creation order) |
| UnstructuredLogging.ConfigureEach | libraries/logging/src/main/kotlin/dev/abstrate/logging/UnstructuredLogging.kt:34-36 | configures each queued logger in turn, so that all deliver to the configuration at the level their name resolves to, and the configuration receives each logger's filtered buffer in queue order |
| UnstructuredLogging.Bridge.constructor | libraries/logging/src/main/kotlin/dev/abstrate/logging/UnstructuredLogging.kt:80-82 | starts unconfigured with an empty queue |
| UnstructuredLogging.Bridge.GetLogger | libraries/logging/src/main/kotlin/dev/abstrate/logging/UnstructuredLogging.kt:170-185 | unconfigured: a fresh deferred logger, appended to the queue, with no caching. Configured: a fresh direct logger at the name's level, and the queue is untouched |
| UnstructuredLogging.Bridge.RecordUnstructuredLogsTo | libraries/logging/src/main/kotlin/dev/abstrate/logging/UnstructuredLogging.kt:23-39 | a second configuration fails and changes nothing. The first installs the configuration and empties the queue; the callback has then received each queued logger's filtered buffer, in creation order, and every queued logger delivers to the configuration at the level its name resolves to |
| UnstructuredLogging.Bridge.Install | libraries/logging/src/main/kotlin/dev/abstrate/logging/UnstructuredLogging.kt:33-36 | installs the configuration, drains the queue into it in creation order, leaves the queue empty, and leaves every queued logger delivering to it at the level its name resolves to |
| UnstructuredLogging.Bridge.ResetForTesting | libraries/logging/src/main/kotlin/dev/abstrate/logging/UnstructuredLogging.kt:84-86 | clears the configuration and the queue |
| LoggingScenarios.LogBeforeConfiguration | libraries/structured-logging/src/test/kotlin/dev/abstrate/structuredlogging/UnstructuredLoggingKtTests.kt:109-117 | `getLogger` plus one call before configuring: the queue gains one fresh logger whose buffer is that one call, stamped |
| LoggingScenarios.LogAfterConfiguration | libraries/structured-logging/src/test/kotlin/dev/abstrate/structuredlogging/UnstructuredLoggingKtTests.kt:82-92 | `getLogger` plus one call after configuring: delivered exactly when enabled at the name's level; the queue is unchanged |
| LoggingScenarios.BufferNine | libraries/structured-logging/src/test/kotlin/dev/abstrate/structuredlogging/UnstructuredLoggingKtTests.kt:109-117 | the test's nine calls before configuring queue nine fresh loggers, each buffering its own call |
| LoggingScenarios.BufferedFilter | libraries/structured-logging/src/test/kotlin/dev/abstrate/structuredlogging/UnstructuredLoggingKtTests.kt:127-133 | draining those nine buffers through their levels keeps a/WARN, a.b/TRACE, a.b/WARN, a.b.c/ERROR and a.b.c.d/ERROR, in that order |
| LoggingScenarios.BufferedDelivery | libraries/structured-logging/src/test/kotlin/dev/abstrate/structuredlogging/UnstructuredLoggingKtTests.kt:118-133 | under the scenario configuration the nine loggers resolve to the levels that give those five logs |
| LoggingScenarios.BufferThenConfigure | libraries/structured-logging/src/test/kotlin/dev/abstrate/structuredlogging/UnstructuredLoggingKtTests.kt:107-124 | after the nine calls and the configuration, the callback has received exactly the five buffered logs |
| LoggingScenarios.BufferedBeforeConfiguration | libraries/structured-logging/src/test/kotlin/dev/abstrate/structuredlogging/UnstructuredLoggingKtTests.kt:107-139 | the whole test: the five buffered logs (stamped), then the two a.b.d calls delivered directly (unstamped) |
| LoggingScenarios.ConfigureScenario | libraries/structured-logging/src/test/kotlin/dev/abstrate/structuredlogging/UnstructuredLoggingKtTests.kt:75-81 | configuring with nothing queued succeeds and delivers nothing |
| LoggingScenarios.CallsOnAAndAB | libraries/structured-logging/src/test/kotlin/dev/abstrate/structuredlogging/UnstructuredLoggingKtTests.kt:82-85 | on "a" (Info) and "a.b" (Trace), everything but the debug call gets through |
| LoggingScenarios.CallsOnABC | libraries/structured-logging/src/test/kotlin/dev/abstrate/structuredlogging/UnstructuredLoggingKtTests.kt:86-88 | on "a.b.c" (Error) only the error call gets through |
| LoggingScenarios.CallsOnABCDAndABD | libraries/structured-logging/src/test/kotlin/dev/abstrate/structuredlogging/UnstructuredLoggingKtTests.kt:89-92 | "a.b.c.d" inherits Error and "a.b.d" inherits Trace |
| LoggingScenarios.FilteredAsExpected | libraries/structured-logging/src/test/kotlin/dev/abstrate/structuredlogging/UnstructuredLoggingKtTests.kt:73-105 | the whole test: exactly the seven expected logs, in order |
| LoggingScenarios.CapturesMarkersThrowablesAndMdc | libraries/structured-logging/src/test/kotlin/dev/abstrate/structuredlogging/UnstructuredLoggingKtTests.kt:141-165 | the marker, the throwable and the MDC reach the callback unchanged |
| LoggingScenarios.EarlyLoggerFiltersAtResolvedLevel | libraries/logging/src/main/kotlin/dev/abstrate/logging/UnstructuredLogging.kt:246-249 | a logger asked for before configuring resolves its level on configuration: "a.b.c" then drops a warning and delivers an error |
| Sets.Add | libraries/kotlin/src/main/kotlin/dev/abstrate/kotlin/Sets.kt:5 | `LinkedHashSet.add`: a present value changes nothing; a new one goes at the end; the capacity is kept |
| Sets.AddAll | libraries/kotlin/src/main/kotlin/dev/abstrate/kotlin/Sets.kt:5 | adding a list keeps the capacity and adds at most one value per element |
| Sets.AddAllMembers | libraries/kotlin/src/main/kotlin/dev/abstrate/kotlin/Sets.kt:5 | after adding a list the set holds everything it held and every element of the list, and nothing else |
| Sets.FirstOccurrencesAdd | libraries/kotlin/src/main/kotlin/dev/abstrate/kotlin/Sets.kt:5 | adding one more value keeps the set equal to the first occurrences, in order, of everything added so far |
| Sets.AddAllToEmpty | libraries/kotlin/src/main/kotlin/dev/abstrate/kotlin/Sets.kt:4-11 | adding a list to an empty set, of any capacity, gives each distinct value once, ordered by first occurrence |
| Sets.MapNotNullMembers | libraries/kotlin/src/main/kotlin/dev/abstrate/kotlin/Sets.kt:7-8 | every result is the non-null result of some element, and every non-null result is kept |
| Sets.FlattenMembers | libraries/kotlin/src/main/kotlin/dev/abstrate/kotlin/Sets.kt:10-11 | every value comes from some element's iterable, and every element's values are all kept |
| Sets.CollectionSizeOrDefault | libraries/kotlin/src/main/kotlin/dev/abstrate/kotlin/Sets.kt:27-28 | a collection's size, or the default for any other iterable |
| Sets.MapToSet | libraries/kotlin/src/main/kotlin/dev/abstrate/kotlin/Sets.kt:4-5 | every transformed value (nulls included) once, by first occurrence; no more elements than the input; capacity only from `collectionSizeOrDefault(10)` |
| Sets.MapNotNullToSet | libraries/kotlin/src/main/kotlin/dev/abstrate/kotlin/Sets.kt:7-8 | the non-null transformed values once each, by first occurrence, with the default capacity |
| Sets.FlatMapToSet | libraries/kotlin/src/main/kotlin/dev/abstrate/kotlin/Sets.kt:10-11 | the values of the transformed iterables, concatenated in order, once each by first occurrence |
| Sets.MapEntriesToSet | libraries/kotlin/src/main/kotlin/dev/abstrate/kotlin/Sets.kt:14-16 | the Map variant: the same over the entries in iteration order, with the map's size as capacity |
| Sets.MapNotNullEntriesToSet | libraries/kotlin/src/main/kotlin/dev/abstrate/kotlin/Sets.kt:18-20 | the Map variant of `mapNotNullToSet` over the entries |
| Sets.FlatMapEntriesToSet | libraries/kotlin/src/main/kotlin/dev/abstrate/kotlin/Sets.kt:22-24 | the Map variant of `flatMapToSet` over the entries |
| Sets.IterableExamples | libraries/kotlin/src/test/kotlin/dev/abstrate/kotlin/SetsKtTests.kt:8-63 | [2, 1, 2, null, 3, 3] gives [2, 1, null, 3], not-null [2, 1, 3], and with successors [2, 3, 1, 4] |
| Sets.MapMapToSetExample | libraries/kotlin/src/test/kotlin/dev/abstrate/kotlin/SetsKtTests.kt:65-82 | the keys of the test's map give [2, 1, null, 3] |
| Sets.MapMapNotNullToSetExample | libraries/kotlin/src/test/kotlin/dev/abstrate/kotlin/SetsKtTests.kt:84-101 | the non-null keys give [2, 1, 3] |
| Sets.MapFlatMapToSetExample | libraries/kotlin/src/test/kotlin/dev/abstrate/kotlin/SetsKtTests.kt:103-120 | the keys and their successors give [2, 3, 1, 4] |

## Left out

- Thread safety is not modelled: `@Volatile`, `synchronized`, the `ConcurrentLinkedQueue` guarantees and the race noted at `UnstructuredLogging.kt:241`. The model runs one call at a time.
- UnstructuredLogging.Bridge.GetLogger: the double-checked read of `configuration` collapses into one test. Sequentially, the inner "configured meanwhile" branch cannot be reached.
- The front-end frameworks are not modelled: the `LegacyAbstractLogger` base class, the SLF4J service provider and the marker and MDC factories. A front-end call is one `Log` method, which checks `is*Enabled` and then handles the call.
- Message formatting (`arrayFormat`) is not modelled. A `LoggingCall` carries the already-formatted message.
- The MDC adapter is not modelled. A call carries its copy of the context map.
- `Instant.now()` is not modelled; its value is the `now` argument.
- The bridge into `java.util.logging` is left out: `install`, `setLogLevels` and the level changes on the JDK's loggers are effects on a foreign framework. Only the level mapping `toJavaUtilLogging` is modelled.
- UnstructuredLogging.Bridge.ResetForTesting: models only the clearing of the configuration and the queue. The reflection into commons-logging and log4j, and the `LogManager` reset, act on foreign libraries.
- LoggingScenarios.BufferedBeforeConfiguration: the nine buffered calls get the times 1 to 9, where the test normalises every present `bufferedAt` to the epoch. The stamps that matter are modelled: present on buffered logs, absent on direct ones.
- Queues.Queue.DrainTo: models queues that hold no null, such as the bridge's `ConcurrentLinkedQueue`. The source polls until `poll` returns null. On a queue that accepts null elements, it therefore stops at the first null element and removes it, and what follows stays queued: `[1, null, 2]` hands the sink `[1]` and leaves `[2]`. The drain also runs with a sequential sink, so nothing can be enqueued during it. In the source, elements enqueued concurrently before the queue runs empty would also be delivered.
- Durations.TimesInt: `Duration.multipliedBy`'s `ArithmeticException` on overflow is not modelled, because the model uses unbounded nanosecond counts. `Durations.TimesLong` is unbounded in the same way. The same holds for Intervals.ExponentialIntervals and Intervals.CappedAt over it: in the source, `exponentialIntervals(ofMillis(7))` throws when computing element 71, since 7 ms × 2^71 exceeds 2^63 seconds. This happens even under `cappedAt(ofMillis(20))`, because the cap applies after the multiplication. The model's "every position exists" holds only over unbounded counts.
- Random.Timeline: `Instant.plusNanos`'s exception beyond `Instant.MAX` is not modelled; instants are unbounded nanosecond counts.
- Random.NextDuration: a `Long` nanosecond count beyond about 146 years becomes a millisecond-precision `Duration` when converted back with `.nanoseconds`; the model keeps the drawn count exact.
- Comparables.CappedAt: specialised to integers, which covers its uses on `Int` and on durations as nanosecond counts. The source is generic over any `Comparable`.
- Random.NextInt: states only the range of a draw, not its distribution. The generator is an oracle of raw values.
- Random.ValuesFrom: models collections of non-null elements only. Kotlin's `generateSequence { nextFrom(collection) }` ends at the first null its function returns. Over a collection holding null, the sequence therefore ends at the first drawn null, and is empty when the first draw is null. The model's sequence is always unbounded.
- Random.ValuesFrom, Random.ValuesFromEnum, Random.Chars, Random.Strings, Random.StringsCorrected, Random.DurationValues, Random.Timeline: Kotlin's `generateSequence(nextFunction)` is constrained to one traversal, and a second iteration throws `IllegalStateException`. This holds for `timeline` too, through `durations`. The model's `Sequence` is a value that can be read any number of times, and each read gives the same draws.
- Random.NextFromEnum: the enum's constants are passed in as a sequence holding the chosen `EnumSet`, with the type's name. Reflection over `T::class` is not modelled.
- Retry.RetryAttempts: requires that the loop stops, because the intervals are finite or some attempt succeeds. Over unbounded intervals where no attempt ever succeeds, the source loops forever.
- Retry.Retry: the same stopping condition applies.
- The real `Thread.sleep` is not modelled; sleeps are recorded as effects.
- Sets.MapEntriesToSet: a Kotlin `Map` is its entries in iteration order. Key uniqueness is not enforced; the example lists the map with its duplicate keys already collapsed, as `mapOf` does.
- `kotlin.time.Duration` and `java.time.Duration` are both nanosecond counts. The tests of `repeating` and `exponentialBackoff`, which are not defined in these sources, are not modelled.

## Findings

| source | as written | input that shows it | evidently intended | confidence | as-written member | corrected member |
|---|---|---|---|---|---|---|
| libraries/kotlin/src/main/kotlin/dev/abstrate/kotlin/Random.kt:55 | the length bound `maxLength + 1` is computed in 32-bit `Int` | `strings(chars, 0, Int.MAX_VALUE)`: the bound wraps to `Int.MIN_VALUE`, so the first drawn element throws `IllegalArgumentException` from `nextInt` | any length in `[minLength, Int.MAX_VALUE]`, which the up-front `require` checks accept | not executed | Random.StringsOverflowAtMaxLength | Random.StringsCorrectedElements |
| libraries/kotlin/src/main/kotlin/dev/abstrate/kotlin/Random.kt:65 | the bound `max.inWholeNanoseconds + 1` is computed in 64-bit `Long` | `nextDuration(max = Duration.INFINITE)`, or any `max` of `Long.MAX_VALUE` nanoseconds (about 292 years) or more: `inWholeNanoseconds` gives `Long.MAX_VALUE`, the bound wraps to `Long.MIN_VALUE`, and `nextLong` throws `IllegalArgumentException` although `require(min <= max)` passed | a duration in `[min, max]` for every `min <= max` | not executed | Random.NextDurationOverflowAtLongMax | Random.NextDurationCorrected |

`durations` and `timeline` call `nextDuration`, so the model of each is written over the code as written and inherits the overflow: `Random.TimelineFailsWhenStepsCannotBeDrawn` states it for timelines. Below `Long.MAX_VALUE` nanoseconds `Random.NextDurationAgreesBelowMax` shows that both definitions give the same draws.
