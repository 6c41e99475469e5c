/**
 * The SLF4J bridge's tests, restated as scenarios proved of the model: the
 * overrides {a.b.c: Error, a.b: Trace} with the default level Info, loggers
 * asked for and used before logging is configured and after, and a call
 * carrying a marker, a throwable and an MDC.
 */
module LoggingScenarios {
  import opened Wrappers
  import opened LogLevels
  import opened LoggerNames
  import opened UnstructuredLogging

  /** A call with no marker, no throwable and an empty MDC. */
  function Call(level: Level, message: string): LoggingCall {
    LoggingCall(level, Option.None, message, Option.None, Option.None)
  }

  /** An expected log with no throwable, MDC or marker. */
  function Log(logger: string, level: Level, message: string, bufferedAt: Option<Instant>): UnstructuredLog {
    UnstructuredLog(logger, level, message, Option.None, Option.None, Option.None, bufferedAt)
  }

  /** Whether `c` is the scenarios' configuration: the overrides {a.b.c: Error, a.b: Trace} and the default Info. */
  predicate ScenarioConfiguration(c: Configuration) {
    c.overrides == ExampleOverrides && c.defaultLogLevel == Info
  }

  /** The levels the scenarios' loggers resolve to. */
  lemma ScenarioLevels(c: Configuration)
    requires ScenarioConfiguration(c)
    ensures c.LogLevelOf("a") == Info && c.LogLevelOf("a.b") == Trace && c.LogLevelOf("a.b.c") == Error
    ensures c.LogLevelOf("a.b.c.d") == Error && c.LogLevelOf("a.b.d") == Trace
  {
    LogLevelExamples();
  }

  /** Whether `name` is one of the scenarios' logger names and `level` the level it resolves to. */
  predicate ResolvesTo(name: string, level: LogLevel) {
    || (name == "a" && level == Info) || (name == "a.b" && level == Trace) || (name == "a.b.c" && level == Error)
    || (name == "a.b.c.d" && level == Error) || (name == "a.b.d" && level == Trace)
  }

  lemma ScenarioLevel(c: Configuration, name: string, level: LogLevel)
    requires ScenarioConfiguration(c) && ResolvesTo(name, level)
    ensures c.LogLevelOf(name) == level
  {
    ScenarioLevels(c);
  }

  /** The names of `loggers`, in order. */
  function NamesOf(loggers: seq<DeferredSlf4jLogger>): (r: seq<string>)
    ensures |r| == |loggers| && forall i :: 0 <= i < |loggers| ==> r[i] == loggers[i].name
  {
    seq(|loggers|, i requires 0 <= i < |loggers| => loggers[i].name)
  }

  /** `getLogger(name)` followed by one call at time `now` on the fresh logger, before logging is configured. */
  method LogBeforeConfiguration(bridge: Bridge, name: string, call: LoggingCall, now: Instant) returns (d: DeferredSlf4jLogger)
    requires bridge.Valid() && bridge.configuration.None?
    modifies bridge
    ensures bridge.Valid() && bridge.configuration.None?
    ensures fresh(d) && bridge.deferred == old(bridge.deferred) + [d]
    ensures NamesOf(bridge.deferred) == old(NamesOf(bridge.deferred)) + [name]
    ensures BuffersOf(bridge.deferred) == old(BuffersOf(bridge.deferred)) + [[ToUnstructuredLog(name, call).(bufferedAt := Some(now))]]
  {
    ghost var loggers, buffers := bridge.deferred, BuffersOf(bridge.deferred);
    var logger := bridge.GetLogger(name);
    d := logger.deferredLogger;
    d.Log(call, now);
    assert d.buffer == [ToUnstructuredLog(name, call).(bufferedAt := Some(now))];
    assert bridge.deferred == loggers + [d];
    NamesOfAppend(loggers, d);
    BuffersOfAppend(loggers, d, buffers);
  }

  lemma NamesOfAppend(loggers: seq<DeferredSlf4jLogger>, d: DeferredSlf4jLogger)
    ensures NamesOf(loggers + [d]) == NamesOf(loggers) + [d.name]
  {
  }

  lemma BuffersOfAppend(loggers: seq<DeferredSlf4jLogger>, d: DeferredSlf4jLogger, buffers: seq<seq<UnstructuredLog>>)
    requires |buffers| == |loggers| && forall i :: 0 <= i < |loggers| ==> loggers[i].buffer == buffers[i]
    ensures BuffersOf(loggers + [d]) == buffers + [d.buffer]
  {
    var r := BuffersOf(loggers + [d]);
    forall i | 0 <= i < |loggers|
      ensures r[i] == buffers[i]
    {
      assert (loggers + [d])[i] == loggers[i];
    }
  }

  /** `getLogger(name)` followed by one call on the fresh logger, once logging is configured with `c`. */
  method LogAfterConfiguration(bridge: Bridge, c: Configuration, name: string, ghost level: LogLevel, call: LoggingCall)
    requires bridge.Valid() && bridge.configuration == Some(c)
    requires ScenarioConfiguration(c) && ResolvesTo(name, level)
    modifies bridge, c
    ensures bridge.Valid() && bridge.configuration == Some(c) && bridge.deferred == old(bridge.deferred)
    ensures c.recorded == old(c.recorded) + Filter(level, [ToUnstructuredLog(name, call)])
  {
    ScenarioLevel(c, name, level);
    var logger := bridge.GetLogger(name);
    logger.direct.Log(call);
  }

  /** What a logger holds after one call at time `t` before logging is configured. */
  function Buffered(name: string, call: LoggingCall, t: Instant): seq<UnstructuredLog> {
    [ToUnstructuredLog(name, call).(bufferedAt := Some(t))]
  }

  /** Three calls before logging is configured, at times `t`, `t + 1` and `t + 2`, each on a fresh logger. */
  method BufferThree(bridge: Bridge, n1: string, c1: LoggingCall, n2: string, c2: LoggingCall, n3: string, c3: LoggingCall, t: Instant)
    returns (d1: DeferredSlf4jLogger, d2: DeferredSlf4jLogger, d3: DeferredSlf4jLogger)
    requires bridge.Valid() && bridge.configuration.None?
    modifies bridge
    ensures bridge.Valid() && bridge.configuration.None?
    ensures fresh(d1) && fresh(d2) && fresh(d3) && bridge.deferred == old(bridge.deferred) + [d1, d2, d3]
    ensures forall i :: |old(bridge.deferred)| <= i < |bridge.deferred| ==> fresh(bridge.deferred[i])
    ensures NamesOf(bridge.deferred) == old(NamesOf(bridge.deferred)) + [n1, n2, n3]
    ensures BuffersOf(bridge.deferred) == old(BuffersOf(bridge.deferred)) + [Buffered(n1, c1, t), Buffered(n2, c2, t + 1), Buffered(n3, c3, t + 2)]
  {
    ghost var loggers, names, buffers := bridge.deferred, NamesOf(bridge.deferred), BuffersOf(bridge.deferred);
    d1 := LogBeforeConfiguration(bridge, n1, c1, t);
    assert BuffersOf(bridge.deferred) == buffers + [Buffered(n1, c1, t)];
    d2 := LogBeforeConfiguration(bridge, n2, c2, t + 1);
    assert BuffersOf(bridge.deferred) == buffers + [Buffered(n1, c1, t), Buffered(n2, c2, t + 1)];
    assert NamesOf(bridge.deferred) == names + [n1, n2];
    d3 := LogBeforeConfiguration(bridge, n3, c3, t + 2);
  }

  /** The loggers of the buffered scenario, in the order they are asked for before configuring. */
  const BufferedNames: seq<string> := ["a", "a", "a.b", "a.b", "a.b.c", "a.b.c", "a.b.c", "a.b.c.d", "a.b.c.d"]

  /** The levels those loggers resolve to once configured. */
  const BufferedLevels: seq<LogLevel> := [Info, Info, Trace, Trace, Error, Error, Error, Error, Error]

  /** What the nine loggers hold when logging is configured: one log each, buffered at times 1 to 9. */
  const BufferedLogs: seq<seq<UnstructuredLog>> := [
    [Log("a", DEBUG, "testing a trace", Some(1))],
    [Log("a", WARN, "testing a warning", Some(2))],
    [Log("a.b", TRACE, "testing a.b trace", Some(3))],
    [Log("a.b", WARN, "testing a.b warning", Some(4))],
    [Log("a.b.c", TRACE, "testing a.b.c trace", Some(5))],
    [Log("a.b.c", WARN, "testing a.b.c warning", Some(6))],
    [Log("a.b.c", ERROR, "testing a.b.c error", Some(7))],
    [Log("a.b.c.d", TRACE, "testing a.b.c.d trace", Some(8))],
    [Log("a.b.c.d", ERROR, "testing a.b.c.d error", Some(9))]]

  /** What configuring passes on from the buffers: the logs at or above each logger's level, in creation order. */
  const BufferedDelivered: seq<UnstructuredLog> := [
    Log("a", WARN, "testing a warning", Some(2)),
    Log("a.b", TRACE, "testing a.b trace", Some(3)),
    Log("a.b", WARN, "testing a.b warning", Some(4)),
    Log("a.b.c", ERROR, "testing a.b.c error", Some(7)),
    Log("a.b.c.d", ERROR, "testing a.b.c.d error", Some(9))]

  /** The nine calls before configuring leave the loggers holding the logs above. */
  lemma BufferedCalls()
    ensures [] + [Buffered("a", Call(DEBUG, "testing a trace"), 1), Buffered("a", Call(WARN, "testing a warning"), 1 + 1),
        Buffered("a.b", Call(TRACE, "testing a.b trace"), 1 + 2)]
      + [Buffered("a.b", Call(WARN, "testing a.b warning"), 4), Buffered("a.b.c", Call(TRACE, "testing a.b.c trace"), 4 + 1),
        Buffered("a.b.c", Call(WARN, "testing a.b.c warning"), 4 + 2)]
      + [Buffered("a.b.c", Call(ERROR, "testing a.b.c error"), 7), Buffered("a.b.c.d", Call(TRACE, "testing a.b.c.d trace"), 7 + 1),
        Buffered("a.b.c.d", Call(ERROR, "testing a.b.c.d error"), 7 + 2)]
      == BufferedLogs
    ensures [] + ["a", "a", "a.b"] + ["a.b", "a.b.c", "a.b.c"] + ["a.b.c", "a.b.c.d", "a.b.c.d"] == BufferedNames
  {
  }

  /** The debug log on "a" and the trace and warning logs on "a.b.c" and "a.b.c.d" are dropped. */
  lemma BufferedFilter()
    ensures Delivered(BufferedLevels, BufferedLogs, 9) == BufferedDelivered
  {
    assert Delivered(BufferedLevels, BufferedLogs, 3) == BufferedDelivered[..2];
    assert Delivered(BufferedLevels, BufferedLogs, 6) == BufferedDelivered[..3];
  }

  /** Loggers with the scenario's names resolve to the levels above, so configuring passes on the logs above. */
  lemma BufferedDelivery(c: Configuration, loggers: seq<DeferredSlf4jLogger>)
    requires ScenarioConfiguration(c) && NamesOf(loggers) == BufferedNames
    ensures Delivered(LevelsOf(c, loggers), BufferedLogs, 9) == BufferedDelivered
  {
    forall i | 0 <= i < 9
      ensures LevelsOf(c, loggers)[i] == BufferedLevels[i]
    {
      assert loggers[i].name == BufferedNames[i];
      assert ResolvesTo(BufferedNames[i], BufferedLevels[i]);
      ScenarioLevel(c, BufferedNames[i], BufferedLevels[i]);
    }
    assert LevelsOf(c, loggers) == BufferedLevels;
    BufferedFilter();
  }

  /**
   * The nine calls of "slf4j logs are buffered before unstructured logging
   * was initialised" made before configuring, at times 1 to 9, each on a
   * fresh logger that is queued with what it buffered.
   */
  method BufferNine(bridge: Bridge) returns (loggers: seq<DeferredSlf4jLogger>)
    requires bridge.Valid() && bridge.configuration.None? && bridge.deferred == []
    modifies bridge
    ensures bridge.Valid() && bridge.configuration.None? && bridge.deferred == loggers
    ensures forall i :: 0 <= i < |loggers| ==> fresh(loggers[i])
    ensures NamesOf(loggers) == BufferedNames && BuffersOf(loggers) == BufferedLogs
  {
    assert NamesOf(bridge.deferred) == [] && BuffersOf(bridge.deferred) == [];
    var d1, d2, d3 := BufferThree(bridge, "a", Call(DEBUG, "testing a trace"), "a", Call(WARN, "testing a warning"),
      "a.b", Call(TRACE, "testing a.b trace"), 1);
    var d4, d5, d6 := BufferThree(bridge, "a.b", Call(WARN, "testing a.b warning"), "a.b.c", Call(TRACE, "testing a.b.c trace"),
      "a.b.c", Call(WARN, "testing a.b.c warning"), 4);
    assert forall i :: 0 <= i < |bridge.deferred| ==> fresh(bridge.deferred[i]);
    var d7, d8, d9 := BufferThree(bridge, "a.b.c", Call(ERROR, "testing a.b.c error"), "a.b.c.d", Call(TRACE, "testing a.b.c.d trace"),
      "a.b.c.d", Call(ERROR, "testing a.b.c.d error"), 7);
    BufferedCalls();
    loggers := bridge.deferred;
  }

  /** The nine buffered calls, then the configuration, which passes on what the loggers buffered through their levels. */
  method BufferThenConfigure(bridge: Bridge) returns (c: Configuration)
    requires bridge.Valid() && bridge.configuration.None? && bridge.deferred == []
    modifies bridge
    ensures bridge.Valid() && bridge.configuration == Some(c) && fresh(c) && ScenarioConfiguration(c)
    ensures c.recorded == BufferedDelivered
  {
    var loggers := BufferNine(bridge);
    var r := bridge.RecordUnstructuredLogsTo(Info, ExampleOverrides);
    c := r.value;
    BufferedDelivery(c, loggers);
  }

  /**
   * "slf4j logs are buffered before unstructured logging was initialised":
   * the buffered logs come first, in order and with their buffering times,
   * and the calls on "a.b.d" made after configuring follow unbuffered.
   */
  method BufferedBeforeConfiguration() returns (logs: seq<UnstructuredLog>)
    ensures logs == BufferedDelivered + [
      Log("a.b.d", TRACE, "testing a.b.d trace", Option.None),
      Log("a.b.d", WARN, "testing a.b.d warning", Option.None)]
  {
    var bridge := new Bridge();
    var c := BufferThenConfigure(bridge);
    LogAfterConfiguration(bridge, c, "a.b.d", Trace, Call(TRACE, "testing a.b.d trace"));
    assert c.recorded == BufferedDelivered + [Log("a.b.d", TRACE, "testing a.b.d trace", Option.None)];
    LogAfterConfiguration(bridge, c, "a.b.d", Trace, Call(WARN, "testing a.b.d warning"));
    logs := c.recorded;
  }

  /** `recordUnstructuredLogsTo(Info, {a.b.c: Error, a.b: Trace})` before any logger is asked for. */
  method ConfigureScenario(bridge: Bridge) returns (c: Configuration)
    requires bridge.Valid() && bridge.configuration.None? && bridge.deferred == []
    modifies bridge
    ensures bridge.Valid() && bridge.configuration == Some(c) && fresh(c) && ScenarioConfiguration(c)
    ensures c.recorded == []
  {
    var r := bridge.RecordUnstructuredLogsTo(Info, ExampleOverrides);
    c := r.value;
  }

  /** The calls of "slf4j logs are filtered as expected" on "a" and "a.b": all but the debug call get through. */
  method CallsOnAAndAB(bridge: Bridge, c: Configuration)
    requires bridge.Valid() && bridge.configuration == Some(c) && ScenarioConfiguration(c)
    modifies bridge, c
    ensures bridge.Valid() && bridge.configuration == Some(c)
    ensures c.recorded == old(c.recorded) + [
      Log("a", WARN, "testing a warning", Option.None),
      Log("a.b", TRACE, "testing a.b trace", Option.None),
      Log("a.b", WARN, "testing a.b warning", Option.None)]
  {
    ghost var before := c.recorded;
    LogAfterConfiguration(bridge, c, "a", Info, Call(DEBUG, "testing a trace"));
    assert c.recorded == before;
    LogAfterConfiguration(bridge, c, "a", Info, Call(WARN, "testing a warning"));
    assert c.recorded == before + [Log("a", WARN, "testing a warning", Option.None)];
    LogAfterConfiguration(bridge, c, "a.b", Trace, Call(TRACE, "testing a.b trace"));
    assert c.recorded == before + [Log("a", WARN, "testing a warning", Option.None),
      Log("a.b", TRACE, "testing a.b trace", Option.None)];
    LogAfterConfiguration(bridge, c, "a.b", Trace, Call(WARN, "testing a.b warning"));
  }

  /** The calls on "a.b.c", whose override is Error: only the error gets through. */
  method CallsOnABC(bridge: Bridge, c: Configuration)
    requires bridge.Valid() && bridge.configuration == Some(c) && ScenarioConfiguration(c)
    modifies bridge, c
    ensures bridge.Valid() && bridge.configuration == Some(c)
    ensures c.recorded == old(c.recorded) + [Log("a.b.c", ERROR, "testing a.b.c error", Option.None)]
  {
    ghost var before := c.recorded;
    LogAfterConfiguration(bridge, c, "a.b.c", Error, Call(TRACE, "testing a.b.c trace"));
    assert c.recorded == before;
    LogAfterConfiguration(bridge, c, "a.b.c", Error, Call(WARN, "testing a.b.c warning"));
    assert c.recorded == before;
    LogAfterConfiguration(bridge, c, "a.b.c", Error, Call(ERROR, "testing a.b.c error"));
  }

  /** The calls on "a.b.c.d", which inherits Error from "a.b.c", and on "a.b.d", which inherits Trace from "a.b". */
  method CallsOnABCDAndABD(bridge: Bridge, c: Configuration)
    requires bridge.Valid() && bridge.configuration == Some(c) && ScenarioConfiguration(c)
    modifies bridge, c
    ensures bridge.Valid() && bridge.configuration == Some(c)
    ensures c.recorded == old(c.recorded) + [
      Log("a.b.c.d", ERROR, "testing a.b.c.d error", Option.None),
      Log("a.b.d", TRACE, "testing a.b.d trace", Option.None),
      Log("a.b.d", WARN, "testing a.b.d warning", Option.None)]
  {
    ghost var before := c.recorded;
    LogAfterConfiguration(bridge, c, "a.b.c.d", Error, Call(TRACE, "testing a.b.c.d trace"));
    assert c.recorded == before;
    LogAfterConfiguration(bridge, c, "a.b.c.d", Error, Call(ERROR, "testing a.b.c.d error"));
    assert c.recorded == before + [Log("a.b.c.d", ERROR, "testing a.b.c.d error", Option.None)];
    LogAfterConfiguration(bridge, c, "a.b.d", Trace, Call(TRACE, "testing a.b.d trace"));
    assert c.recorded == before + [Log("a.b.c.d", ERROR, "testing a.b.c.d error", Option.None),
      Log("a.b.d", TRACE, "testing a.b.d trace", Option.None)];
    LogAfterConfiguration(bridge, c, "a.b.d", Trace, Call(WARN, "testing a.b.d warning"));
  }

  /** "slf4j logs are filtered as expected": configured first, then eleven calls, each on a fresh logger. */
  method FilteredAsExpected() returns (logs: seq<UnstructuredLog>)
    ensures logs == [
      Log("a", WARN, "testing a warning", Option.None),
      Log("a.b", TRACE, "testing a.b trace", Option.None),
      Log("a.b", WARN, "testing a.b warning", Option.None),
      Log("a.b.c", ERROR, "testing a.b.c error", Option.None),
      Log("a.b.c.d", ERROR, "testing a.b.c.d error", Option.None),
      Log("a.b.d", TRACE, "testing a.b.d trace", Option.None),
      Log("a.b.d", WARN, "testing a.b.d warning", Option.None)]
  {
    var bridge := new Bridge();
    var c := ConfigureScenario(bridge);
    CallsOnAAndAB(bridge, c);
    CallsOnABC(bridge, c);
    CallsOnABCDAndABD(bridge, c);
    logs := c.recorded;
  }

  /** "we capture slf4j markers, throwables, and MDC": all three reach the record callback unchanged. */
  method CapturesMarkersThrowablesAndMdc() returns (logs: seq<UnstructuredLog>)
    ensures logs == [UnstructuredLog("a", WARN, "testing", Some(Throwable("some failure")),
      Some(map["a" := "1", "b" := "2"]), Some(Marker("something")), Option.None)]
  {
    var bridge := new Bridge();
    var c := ConfigureScenario(bridge);
    var call := LoggingCall(WARN, Some(Marker("something")), "testing", Some(Throwable("some failure")), Some(map["a" := "1", "b" := "2"]));
    LogAfterConfiguration(bridge, c, "a", Info, call);
    logs := c.recorded;
  }

  /**
   * A logger asked for before logging is configured filters its later calls
   * at the level its name resolves to: "a.b.c" drops a warning and passes
   * an error on once the overrides give it Error.
   */
  method EarlyLoggerFiltersAtResolvedLevel() returns (logs: seq<UnstructuredLog>)
    ensures logs == [Log("a.b.c", ERROR, "late error", Option.None)]
  {
    var bridge := new Bridge();
    var logger := bridge.GetLogger("a.b.c");
    var d := logger.deferredLogger;
    var r := bridge.RecordUnstructuredLogsTo(Info, ExampleOverrides);
    var c := r.value;
    assert d.DeliversTo(c);
    ScenarioLevel(c, "a.b.c", Error);
    d.Log(Call(WARN, "late warning"), 10);
    assert c.recorded == [];
    d.Log(Call(ERROR, "late error"), 11);
    logs := c.recorded;
  }
}
