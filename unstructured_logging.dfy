/**
 * The SLF4J bridge of UnstructuredLogging.kt: loggers handed out before
 * logging is configured buffer their events; configuring logging once drains
 * every such logger, in creation order, through its resolved log level, and
 * from then on loggers deliver straight to the configured `record` callback.
 * The model is sequential: one call runs at a time.
 */
module UnstructuredLogging {
  import opened Wrappers
  import opened LogLevels
  import opened LoggerNames

  /** A `java.time.Instant`, as nanoseconds since the epoch. */
  type Instant = int

  /** The throwable and the marker of an event are carried along untouched. */
  datatype Throwable = Throwable(message: string)
  datatype Marker = Marker(name: string)

  /** `UnstructuredLog`: what the `record` callback receives. */
  datatype UnstructuredLog = UnstructuredLog(
    logger: string,
    level: Level,
    message: string,
    throwable: Option<Throwable>,
    mdc: Option<map<string, string>>,
    marker: Option<Marker>,
    bufferedAt: Option<Instant>)

  /**
   * One `handleNormalizedLoggingCall`: the event level, the marker, the
   * message already formatted from its pattern and arguments, the throwable,
   * and the MDC adapter's copy of its context map at the time of the call.
   */
  datatype LoggingCall = LoggingCall(
    level: Level,
    marker: Option<Marker>,
    message: string,
    throwable: Option<Throwable>,
    contextMap: Option<map<string, string>>)

  /** The private `unstructuredLog(..)`: an unbuffered log whose MDC is absent unless the context map has entries. */
  function ToUnstructuredLog(logger: string, call: LoggingCall): (r: UnstructuredLog)
    ensures r.logger == logger && r.level == call.level && r.message == call.message
    ensures r.throwable == call.throwable && r.marker == call.marker
    ensures r.mdc.Some? <==> call.contextMap.Some? && |call.contextMap.value| > 0
    ensures r.mdc.Some? ==> r.mdc == call.contextMap
    ensures r.bufferedAt.None?
  {
    var mdc := if call.contextMap.Some? && |call.contextMap.value| > 0 then call.contextMap else Option.None;
    UnstructuredLog(logger, call.level, call.message, call.throwable, mdc, call.marker, Option.None)
  }

  /** The logs, in order, that `recordIfLevelIsEnabled` passes on for a logger whose level is `logLevel`. */
  function Filter(logLevel: LogLevel, logs: seq<UnstructuredLog>): (r: seq<UnstructuredLog>)
    ensures |r| <= |logs|
  {
    if logs == [] then []
    else (if Enabled(logLevel, logs[0].level) then [logs[0]] else []) + Filter(logLevel, logs[1..])
  }

  lemma AppendAssociative(a: seq<UnstructuredLog>, b: seq<UnstructuredLog>, c: seq<UnstructuredLog>)
    ensures (a + b) + c == a + (b + c)
  {
  }

  /** Exactly the enabled logs are passed on. */
  lemma {:induction false} FilterMembers(logLevel: LogLevel, logs: seq<UnstructuredLog>)
    ensures forall x :: x in Filter(logLevel, logs) <==> x in logs && Enabled(logLevel, x.level)
  {
    if logs != [] {
      FilterMembers(logLevel, logs[1..]);
      assert forall x :: x in logs <==> x == logs[0] || x in logs[1..];
    }
  }

  /** Filtering commutes with concatenation, so it keeps the order of the logs it passes on. */
  lemma {:induction false} FilterAppend(logLevel: LogLevel, a: seq<UnstructuredLog>, b: seq<UnstructuredLog>)
    ensures Filter(logLevel, a + b) == Filter(logLevel, a) + Filter(logLevel, b)
  {
    if a == [] {
      assert a + b == b;
    } else {
      FilterAppend(logLevel, a[1..], b);
      assert (a + b)[0] == a[0] && (a + b)[1..] == a[1..] + b;
      var head := if Enabled(logLevel, a[0].level) then [a[0]] else [];
      AppendAssociative(head, Filter(logLevel, a[1..]), Filter(logLevel, b));
    }
  }

  /** `None` passes nothing on and `Trace` passes everything on. */
  lemma {:induction false} FilterExtremes(logs: seq<UnstructuredLog>)
    ensures Filter(LogLevel.None, logs) == []
    ensures Filter(Trace, logs) == logs
  {
    if logs != [] {
      FilterExtremes(logs[1..]);
    }
  }

  /** `UnstructuredLoggingConfiguration`, with the `record` callback's deliveries kept in `recorded`. */
  class Configuration {
    const overrides: map<string, LogLevel>
    const defaultLogLevel: LogLevel
    var recorded: seq<UnstructuredLog>

    constructor(overrides: map<string, LogLevel>, defaultLogLevel: LogLevel)
      ensures this.overrides == overrides && this.defaultLogLevel == defaultLogLevel
      ensures recorded == []
    {
      this.overrides := overrides;
      this.defaultLogLevel := defaultLogLevel;
      recorded := [];
    }

    /** `logLevel(name)`. */
    function LogLevelOf(name: string): (r: LogLevel)
      ensures name in overrides ==> r == overrides[name]
      ensures r == defaultLogLevel || r in overrides.Values
    {
      LogLevelFor(overrides, defaultLogLevel, name)
    }

    /** The `record` callback. */
    method Record(log: UnstructuredLog)
      modifies this
      ensures recorded == old(recorded) + [log]
    {
      recorded := recorded + [log];
    }
  }

  /** `Slf4jLogger`: a logger created once logging is configured, whose level is resolved at creation. */
  class Slf4jLogger {
    const name: string
    const configuration: Configuration
    const logLevel: LogLevel

    constructor(name: string, configuration: Configuration)
      ensures this.name == name && this.configuration == configuration
      ensures logLevel == configuration.LogLevelOf(name)
    {
      this.name := name;
      this.configuration := configuration;
      logLevel := configuration.LogLevelOf(name);
    }

    /** `isTraceEnabled` .. `isErrorEnabled`: whether the level resolved at creation lets `level` through. */
    predicate IsEnabled(level: Level)
      ensures IsEnabled(level) <==> logLevel != LogLevel.None && Ordinal(logLevel) <= Ordinal(ToLogLevel(level))
    {
      Enabled(logLevel, level)
    }

    method HandleNormalizedLoggingCall(call: LoggingCall)
      modifies configuration
      ensures configuration.recorded == old(configuration.recorded) + [ToUnstructuredLog(name, call)]
    {
      configuration.Record(ToUnstructuredLog(name, call));
    }

    method Record(log: UnstructuredLog)
      modifies configuration
      ensures configuration.recorded == old(configuration.recorded) + [log]
    {
      configuration.Record(log);
    }

    method RecordIfLevelIsEnabled(log: UnstructuredLog)
      modifies configuration
      ensures configuration.recorded == old(configuration.recorded) + Filter(logLevel, [log])
    {
      if Enabled(logLevel, log.level) {
        configuration.Record(log);
      }
    }

    /** A front-end log call: the enabled check, then `handleNormalizedLoggingCall`. */
    method Log(call: LoggingCall)
      modifies configuration
      ensures configuration.recorded == old(configuration.recorded) + Filter(logLevel, [ToUnstructuredLog(name, call)])
    {
      if IsEnabled(call.level) {
        HandleNormalizedLoggingCall(call);
      }
    }
  }

  /** `DeferredSlf4jLogger`: a logger created before logging is configured. */
  class DeferredSlf4jLogger {
    const name: string
    var buffer: seq<UnstructuredLog>
    var configured: Option<Slf4jLogger>

    constructor(name: string)
      ensures this.name == name && buffer == [] && configured.None?
    {
      this.name := name;
      buffer := [];
      configured := Option.None;
    }

    /** Buffered logs carry their buffering time; a configured logger has the same name and an empty buffer. */
    ghost predicate Valid()
      reads this
    {
      && (forall i :: 0 <= i < |buffer| ==> buffer[i].bufferedAt.Some?)
      && (configured.Some? ==> configured.value.name == name && buffer == [])
    }

    /** Whether this logger is configured and delivers to `c`, filtering at the level `c` resolves its name to. */
    ghost predicate DeliversTo(c: Configuration)
      reads this
    {
      Valid() && configured.Some? && configured.value.configuration == c && configured.value.logLevel == c.LogLevelOf(name)
    }

    /** Where a configured logger delivers. */
    function Target(): set<object>
      reads this
    {
      if configured.Some? then {configured.value.configuration} else {}
    }

    /** `isTraceEnabled` .. `isErrorEnabled`: everything until configured, then the configured logger's answer. */
    predicate IsEnabled(level: Level)
      reads this
      ensures configured.None? ==> IsEnabled(level)
      ensures configured.Some? ==> (IsEnabled(level) <==> Enabled(configured.value.logLevel, level))
    {
      match configured
      case None => true
      case Some(logger) => logger.IsEnabled(level)
    }

    method HandleNormalizedLoggingCall(call: LoggingCall, now: Instant)
      requires Valid()
      modifies this, Target()
      ensures Valid() && configured == old(configured)
      ensures old(configured).Some? ==> buffer == old(buffer)
      ensures old(configured).Some? ==>
        configured.value.configuration.recorded == old(configured.value.configuration.recorded) + [ToUnstructuredLog(name, call)]
      ensures old(configured).None? ==> buffer == old(buffer) + [ToUnstructuredLog(name, call).(bufferedAt := Some(now))]
    {
      var log := ToUnstructuredLog(name, call);
      if configured.Some? {
        configured.value.Record(log);
      } else {
        buffer := buffer + [log.(bufferedAt := Some(now))];
        DrainBufferIfConfigured();
      }
    }

    /** `configure(configuration)`: creates the delegate and passes the buffer on through its level. */
    method Configure(configuration: Configuration)
      modifies this, configuration
      ensures DeliversTo(configuration) && fresh(configured.value)
      ensures configured.value.logLevel == configuration.LogLevelOf(name)
      ensures configuration.recorded == old(configuration.recorded) + Filter(configuration.LogLevelOf(name), old(buffer))
    {
      var logger := new Slf4jLogger(name, configuration);
      configured := Some(logger);
      DrainBufferIfConfigured();
    }

    /**
     * `buffer.drainTo(delegate::recordIfLevelIsEnabled)`: the same poll-until-empty
     * drain as `Queues.Queue.DrainTo`, written over the buffer with that sink
     * inlined; nothing happens while unconfigured.
     */
    method DrainBufferIfConfigured()
      modifies this, Target()
      ensures configured == old(configured)
      ensures old(configured).None? ==> buffer == old(buffer)
      ensures old(configured).Some? ==> (buffer == [] &&
        configured.value.configuration.recorded == old(configured.value.configuration.recorded) + Filter(configured.value.logLevel, old(buffer)))
    {
      if configured.Some? {
        var delegate := configured.value;
        while true
          invariant configured == old(configured)
          invariant delegate.configuration.recorded + Filter(delegate.logLevel, buffer)
            == old(delegate.configuration.recorded) + Filter(delegate.logLevel, old(buffer))
          decreases |buffer|
        {
          if buffer == [] {
            break;
          }
          var next := buffer[0];
          FilterAppend(delegate.logLevel, [next], buffer[1..]);
          assert buffer == [next] + buffer[1..];
          buffer := buffer[1..];
          delegate.RecordIfLevelIsEnabled(next);
        }
      }
    }

    /** A front-end log call: the enabled check, then `handleNormalizedLoggingCall`. */
    method Log(call: LoggingCall, now: Instant)
      requires Valid()
      modifies this, Target()
      ensures Valid() && configured == old(configured)
      ensures old(configured).Some? ==> (buffer == old(buffer) &&
        configured.value.configuration.recorded == old(configured.value.configuration.recorded) + Filter(configured.value.logLevel, [ToUnstructuredLog(name, call)]))
      ensures old(configured).None? ==> buffer == old(buffer) + [ToUnstructuredLog(name, call).(bufferedAt := Some(now))]
    {
      if IsEnabled(call.level) {
        HandleNormalizedLoggingCall(call, now);
      }
    }
  }

  /** What `getLogger` hands out. */
  datatype Logger = Direct(direct: Slf4jLogger) | Deferred(deferredLogger: DeferredSlf4jLogger)

  /** The `IllegalStateException` of a second configuration. */
  datatype ConfigurationError = ConfiguredMoreThanOnce

  /**
   * The logs the first `n` deferred loggers, whose levels are `levels` and
   * whose buffers are `buffers`, pass on in order once configured.
   */
  function Delivered(levels: seq<LogLevel>, buffers: seq<seq<UnstructuredLog>>, n: nat): seq<UnstructuredLog>
    requires |levels| == |buffers| && n <= |levels|
  {
    if n == 0 then [] else Delivered(levels, buffers, n - 1) + Filter(levels[n - 1], buffers[n - 1])
  }

  /** Whether one of the first `n` loggers buffered `x` and `x` is enabled at that logger's level. */
  ghost predicate BufferedAndEnabled(levels: seq<LogLevel>, buffers: seq<seq<UnstructuredLog>>, n: nat, x: UnstructuredLog)
    requires |levels| == |buffers| && n <= |levels|
  {
    exists k :: 0 <= k < n && x in buffers[k] && Enabled(levels[k], x.level)
  }

  /** One more logger adds exactly what that logger buffered and lets through. */
  lemma BufferedAndEnabledStep(levels: seq<LogLevel>, buffers: seq<seq<UnstructuredLog>>, n: nat, x: UnstructuredLog)
    requires |levels| == |buffers| && 0 < n <= |levels|
    ensures BufferedAndEnabled(levels, buffers, n, x) <==>
      BufferedAndEnabled(levels, buffers, n - 1, x) || (x in buffers[n - 1] && Enabled(levels[n - 1], x.level))
  {
    if BufferedAndEnabled(levels, buffers, n, x) {
      var k :| 0 <= k < n && x in buffers[k] && Enabled(levels[k], x.level);
      if k < n - 1 {
        assert BufferedAndEnabled(levels, buffers, n - 1, x);
      }
    }
    if BufferedAndEnabled(levels, buffers, n - 1, x) {
      var k :| 0 <= k < n - 1 && x in buffers[k] && Enabled(levels[k], x.level);
      assert BufferedAndEnabled(levels, buffers, n, x);
    }
    if x in buffers[n - 1] && Enabled(levels[n - 1], x.level) {
      assert BufferedAndEnabled(levels, buffers, n, x);
    }
  }

  /** A log is delivered exactly when one of the first `n` loggers buffered it and it is enabled at that logger's level. */
  lemma {:induction false} DeliveredMembers(levels: seq<LogLevel>, buffers: seq<seq<UnstructuredLog>>, n: nat)
    requires |levels| == |buffers| && n <= |levels|
    ensures forall x :: x in Delivered(levels, buffers, n) <==> BufferedAndEnabled(levels, buffers, n, x)
  {
    if n > 0 {
      DeliveredMembers(levels, buffers, n - 1);
      FilterMembers(levels[n - 1], buffers[n - 1]);
      forall x
        ensures x in Delivered(levels, buffers, n) <==> BufferedAndEnabled(levels, buffers, n, x)
      {
        BufferedAndEnabledStep(levels, buffers, n, x);
      }
    }
  }

  /** Where the logs of one logger end up among everything delivered: after those of the loggers created before it. */
  lemma {:induction false} DeliveredPrefix(levels: seq<LogLevel>, buffers: seq<seq<UnstructuredLog>>, m: nat, n: nat)
    requires |levels| == |buffers| && m <= n <= |levels|
    ensures Delivered(levels, buffers, m) <= Delivered(levels, buffers, n)
  {
    if m < n {
      DeliveredPrefix(levels, buffers, m, n - 1);
    }
  }

  /** The levels `loggers` resolve to under `c`, in order. */
  function LevelsOf(c: Configuration, loggers: seq<DeferredSlf4jLogger>): (r: seq<LogLevel>)
    ensures |r| == |loggers| && forall i :: 0 <= i < |loggers| ==> r[i] == c.LogLevelOf(loggers[i].name)
  {
    seq(|loggers|, i requires 0 <= i < |loggers| => c.LogLevelOf(loggers[i].name))
  }

  /** The buffers of `loggers`, in order. */
  ghost function BuffersOf(loggers: seq<DeferredSlf4jLogger>): (r: seq<seq<UnstructuredLog>>)
    reads loggers
    ensures |r| == |loggers| && forall i :: 0 <= i < |loggers| ==> r[i] == loggers[i].buffer
  {
    seq(|loggers|, i requires 0 <= i < |loggers| reads loggers => loggers[i].buffer)
  }

  /**
   * The `drainTo` of `recordUnstructuredLogsTo`: configures each queued
   * logger in turn; `levels` are the levels the queued loggers resolve to
   * and `buffers` their buffers beforehand.
   */
  method ConfigureEach(queue: seq<DeferredSlf4jLogger>, c: Configuration, ghost levels: seq<LogLevel>, ghost buffers: seq<seq<UnstructuredLog>>)
    requires |levels| == |buffers| == |queue|
    requires forall i, j :: 0 <= i < j < |queue| ==> queue[i] != queue[j]
    requires forall i :: 0 <= i < |queue| ==> levels[i] == c.LogLevelOf(queue[i].name) && queue[i].buffer == buffers[i]
    modifies queue, c
    ensures forall i :: 0 <= i < |queue| ==> queue[i].DeliversTo(c)
    ensures c.recorded == old(c.recorded) + Delivered(levels, buffers, |queue|)
  {
    ghost var delivered := [];
    for k := 0 to |queue|
      invariant delivered == Delivered(levels, buffers, k)
      invariant c.recorded == old(c.recorded) + delivered
      invariant forall i :: 0 <= i < k ==> queue[i].DeliversTo(c)
      invariant forall i :: k <= i < |queue| ==> queue[i].buffer == buffers[i]
    {
      ConfigureNext(queue, c, k, levels[k], buffers[k]);
      AppendAssociative(old(c.recorded), delivered, Filter(levels[k], buffers[k]));
      delivered := delivered + Filter(levels[k], buffers[k]);
    }
  }

  /** One step of `ConfigureEach`: configures `queue[k]`, leaving the other loggers as they were. */
  method ConfigureNext(queue: seq<DeferredSlf4jLogger>, c: Configuration, k: nat, ghost level: LogLevel, ghost buffer: seq<UnstructuredLog>)
    requires k < |queue| && level == c.LogLevelOf(queue[k].name) && buffer == queue[k].buffer
    requires forall i, j :: 0 <= i < j < |queue| ==> queue[i] != queue[j]
    requires forall i :: 0 <= i < k ==> queue[i].DeliversTo(c)
    modifies queue[k], c
    ensures forall i :: 0 <= i <= k ==> queue[i].DeliversTo(c)
    ensures forall i :: k < i < |queue| ==> queue[i].buffer == old(queue[i].buffer)
    ensures c.recorded == old(c.recorded) + Filter(level, buffer)
  {
    queue[k].Configure(c);
  }

  /** The module-level state: the configuration, if any, and the queue of loggers still waiting for it. */
  class Bridge {
    var configuration: Option<Configuration>
    var deferred: seq<DeferredSlf4jLogger>

    constructor()
      ensures Valid() && configuration.None? && deferred == []
    {
      configuration := Option.None;
      deferred := [];
    }

    /** The queue holds distinct, valid, unconfigured loggers, and is empty once logging is configured. */
    ghost predicate Valid()
      reads this, deferred
    {
      && (forall i, j :: 0 <= i < j < |deferred| ==> deferred[i] != deferred[j])
      && (forall i :: 0 <= i < |deferred| ==> deferred[i].Valid() && deferred[i].configured.None?)
      && (configuration.Some? ==> deferred == [])
    }

    /** `Slf4jLoggerFactory.getLogger(name)`: a fresh logger every time, queued while unconfigured. */
    method GetLogger(name: string) returns (logger: Logger)
      requires Valid()
      modifies this
      ensures Valid() && configuration == old(configuration)
      ensures old(configuration).Some? ==>
        && deferred == old(deferred) && logger.Direct? && fresh(logger.direct)
        && logger.direct.name == name && logger.direct.configuration == configuration.value
        && logger.direct.logLevel == configuration.value.LogLevelOf(name)
      ensures old(configuration).None? ==>
        && logger.Deferred? && fresh(logger.deferredLogger)
        && logger.deferredLogger.name == name && logger.deferredLogger.buffer == []
        && logger.deferredLogger.configured.None?
        && deferred == old(deferred) + [logger.deferredLogger]
    {
      if configuration.Some? {
        var direct := new Slf4jLogger(name, configuration.value);
        logger := Direct(direct);
      } else {
        var d := new DeferredSlf4jLogger(name);
        deferred := deferred + [d];
        logger := Deferred(d);
      }
    }

    /**
     * `recordUnstructuredLogsTo(defaultLogLevel, logLevels, record)`: fails
     * when already configured; otherwise configures, then configures and
     * dequeues every waiting logger in creation order, so that each of them
     * delivers to the new configuration from then on.
     */
    method RecordUnstructuredLogsTo(defaultLogLevel: LogLevel := Warning, logLevels: map<string, LogLevel> := map[])
      returns (r: Result<Configuration, ConfigurationError>)
      requires Valid()
      modifies this, deferred
      ensures Valid()
      ensures old(configuration).Some? ==> r == Failure(ConfiguredMoreThanOnce) && configuration == old(configuration) && deferred == old(deferred)
      ensures old(configuration).None? ==>
        && r.Success? && fresh(r.value) && configuration == Some(r.value) && deferred == []
        && r.value.overrides == logLevels && r.value.defaultLogLevel == defaultLogLevel
        && r.value.recorded == Delivered(LevelsOf(r.value, old(deferred)), old(BuffersOf(deferred)), |old(deferred)|)
        && forall i :: 0 <= i < |old(deferred)| ==> old(deferred)[i].DeliversTo(r.value)
    {
      if configuration.Some? {
        return Failure(ConfiguredMoreThanOnce);
      }
      var c := new Configuration(logLevels, defaultLogLevel);
      Install(c);
      r := Success(c);
    }

    /** The success path of `recordUnstructuredLogsTo`: installs `c`, then drains the queue into it. */
    method Install(c: Configuration)
      requires Valid() && configuration.None? && c.recorded == []
      modifies this, deferred, c
      ensures Valid() && configuration == Some(c) && deferred == []
      ensures c.recorded == Delivered(LevelsOf(c, old(deferred)), old(BuffersOf(deferred)), |old(deferred)|)
      ensures forall i :: 0 <= i < |old(deferred)| ==> old(deferred)[i].DeliversTo(c)
    {
      ghost var levels, buffers := LevelsOf(c, deferred), BuffersOf(deferred);
      var queue := deferred;
      configuration := Some(c);
      ConfigureEach(queue, c, levels, buffers);
      deferred := [];
    }

    /** `resetUnstructuredLoggingForTesting`: forgets the configuration and the waiting loggers. */
    method ResetForTesting()
      modifies this
      ensures Valid() && configuration.None? && deferred == []
    {
      configuration := Option.None;
      deferred := [];
    }
  }
}
