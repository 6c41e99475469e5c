/**
 * The bridge's `LogLevel`, SLF4J's event `Level`, and the mapping of log
 * levels onto `java.util.logging` levels, from UnstructuredLogging.kt.
 */
module LogLevels {

  /** `LogLevel`, least to most severe; `None` logs nothing. */
  datatype LogLevel = Trace | Debug | Info | Warning | Error | None

  /** SLF4J's `org.slf4j.event.Level` of one event. */
  datatype Level = ERROR | WARN | INFO | DEBUG | TRACE

  /** The declaration index, which Kotlin's `<=` on enum constants compares. */
  function Ordinal(l: LogLevel): nat {
    match l
    case Trace => 0
    case Debug => 1
    case Info => 2
    case Warning => 3
    case Error => 4
    case None => 5
  }

  /** `a <= b` on `LogLevel`. */
  predicate AtMost(a: LogLevel, b: LogLevel) {
    Ordinal(a) <= Ordinal(b)
  }

  /** The `when` of `recordIfLevelIsEnabled`: an event level as a `LogLevel`; no event is `None`. */
  function ToLogLevel(level: Level): (r: LogLevel)
    ensures r != None
  {
    match level
    case ERROR => Error
    case WARN => Warning
    case INFO => Info
    case DEBUG => Debug
    case TRACE => Trace
  }

  /**
   * Whether a logger whose resolved log level is `logLevel` lets an event of
   * `level` through: `isTraceEnabled` .. `isErrorEnabled`, and the test in
   * `recordIfLevelIsEnabled`.
   */
  predicate Enabled(logLevel: LogLevel, level: Level)
    ensures Enabled(logLevel, level) ==> logLevel != None
    ensures logLevel == Trace ==> Enabled(logLevel, level)
    ensures level == ERROR ==> (Enabled(logLevel, level) <==> logLevel != None)
  {
    AtMost(logLevel, ToLogLevel(level))
  }

  /** A level lets through exactly the events at least as severe, and only when it is not `None`. */
  lemma EnabledLevels(logLevel: LogLevel, level: Level)
    ensures Enabled(logLevel, level) <==> logLevel != None && Ordinal(logLevel) <= Ordinal(ToLogLevel(level))
  {
  }

  /** `ToLogLevel` is one-to-one and keeps severity order. */
  lemma ToLogLevelOrder(a: Level, b: Level)
    ensures ToLogLevel(a) == ToLogLevel(b) ==> a == b
    ensures Ordinal(ToLogLevel(TRACE)) < Ordinal(ToLogLevel(DEBUG)) < Ordinal(ToLogLevel(INFO)) < Ordinal(ToLogLevel(WARN)) < Ordinal(ToLogLevel(ERROR))
  {
  }

  /** A `java.util.logging.Level`: its name and its JDK `intValue()`. */
  datatype JulLevel = JulLevel(name: string, intValue: int)

  const Finest := JulLevel("FINEST", 300)
  const Fine := JulLevel("FINE", 500)
  const JulInfo := JulLevel("INFO", 800)
  const JulWarning := JulLevel("WARNING", 900)
  const Severe := JulLevel("SEVERE", 1000)
  const Off := JulLevel("OFF", 0x7fff_ffff)

  /** `LogLevel.toJavaUtilLogging()`. */
  function ToJavaUtilLogging(l: LogLevel): (r: JulLevel)
    ensures r == Off <==> l == None
    ensures Finest.intValue <= r.intValue <= Off.intValue
  {
    match l
    case Trace => Finest
    case Debug => Fine
    case Info => JulInfo
    case Warning => JulWarning
    case Error => Severe
    case None => Off
  }

  /** The mapping keeps the order of log levels in both directions, so it is also one-to-one. */
  lemma ToJavaUtilLoggingOrder(a: LogLevel, b: LogLevel)
    ensures AtMost(a, b) <==> ToJavaUtilLogging(a).intValue <= ToJavaUtilLogging(b).intValue
    ensures ToJavaUtilLogging(a) == ToJavaUtilLogging(b) ==> a == b
  {
  }
}
