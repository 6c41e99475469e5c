/**
 * Logger-name hierarchies and the per-name log level of a configuration,
 * from UnstructuredLogging.kt.
 */
module LoggerNames {
  import opened Wrappers
  import opened LogLevels

  /** `lastIndexOf(c)`: the position of the last `c` in `s`, or -1. */
  function LastIndexOf(s: string, c: char): (r: int)
    ensures -1 <= r < |s|
  {
    if |s| == 0 then -1
    else if s[|s| - 1] == c then |s| - 1
    else LastIndexOf(s[..|s| - 1], c)
  }

  /** A found position holds `c`, and no `c` comes after it; -1 means no `c` at all. */
  lemma {:induction false} LastIndexOfResult(s: string, c: char)
    ensures var r := LastIndexOf(s, c);
      && (r >= 0 ==> s[r] == c)
      && (forall j :: r < j < |s| ==> s[j] != c)
  {
    if |s| > 0 && s[|s| - 1] != c {
      LastIndexOfResult(s[..|s| - 1], c);
    }
  }

  /** `substringBeforeLast(c)`: everything before the last `c`; the whole string when `c` does not occur. */
  function SubstringBeforeLast(s: string, c: char): (r: string)
    ensures r == s || |r| < |s|
  {
    var i := LastIndexOf(s, c);
    if i == -1 then s else s[..i]
  }

  /** Without a `c` the string is kept; otherwise the result is the prefix up to the last `c`. */
  lemma SubstringBeforeLastResult(s: string, c: char)
    ensures var r := SubstringBeforeLast(s, c);
      && (c !in s ==> r == s)
      && (c in s ==> |r| < |s| && r == s[..|r|] && s[|r|] == c && forall j :: |r| < j < |s| ==> s[j] != c)
  {
    LastIndexOfResult(s, c);
    if LastIndexOf(s, c) == -1 {
      assert forall j :: 0 <= j < |s| ==> s[j] != c;
    }
  }

  /**
   * `loggerNameHierarchy(name)`: `name`, then each name with its last
   * `.`-segment removed, until a name without a dot.
   */
  function LoggerNameHierarchy(name: string): (r: seq<string>)
    ensures |r| > 0 && r[0] == name
    ensures forall k :: 0 <= k < |r| ==> |r[k]| <= |name|
    decreases |name|
  {
    var parent := SubstringBeforeLast(name, '.');
    if parent == name then [name] else [name] + LoggerNameHierarchy(parent)
  }

  /** The hierarchy starts at the name itself and ends at a name without a dot. */
  lemma {:induction false} HierarchyEnds(name: string)
    ensures var r := LoggerNameHierarchy(name); |r| > 0 && r[0] == name && '.' !in r[|r| - 1]
    decreases |name|
  {
    var parent := SubstringBeforeLast(name, '.');
    SubstringBeforeLastResult(name, '.');
    if parent != name {
      HierarchyEnds(parent);
    }
  }

  /** Each element but the last has a dot, and the next element is it with its last segment removed. */
  lemma {:induction false} HierarchySteps(name: string)
    ensures var r := LoggerNameHierarchy(name);
      forall k :: 0 <= k < |r| - 1 ==> '.' in r[k] && r[k + 1] == SubstringBeforeLast(r[k], '.')
    decreases |name|
  {
    var parent := SubstringBeforeLast(name, '.');
    SubstringBeforeLastResult(name, '.');
    if parent != name {
      HierarchySteps(parent);
      var r := LoggerNameHierarchy(name);
      assert forall k :: 1 <= k < |r| ==> r[k] == LoggerNameHierarchy(parent)[k - 1];
    }
  }

  /** Every element of the hierarchy is a prefix of the name. */
  lemma {:induction false} HierarchyPrefixes(name: string)
    ensures forall k :: 0 <= k < |LoggerNameHierarchy(name)| ==> LoggerNameHierarchy(name)[k] <= name
    decreases |name|
  {
    var parent := SubstringBeforeLast(name, '.');
    SubstringBeforeLastResult(name, '.');
    if parent != name {
      HierarchyPrefixes(parent);
      var r := LoggerNameHierarchy(name);
      forall k | 1 <= k < |r|
        ensures r[k] <= name
      {
        assert r[k] == LoggerNameHierarchy(parent)[k - 1];
      }
    }
  }

  /** The hierarchy has one element per dot in the name, plus one, so the walk always ends. */
  lemma {:induction false} HierarchyLength(name: string)
    ensures |LoggerNameHierarchy(name)| == multiset(name)['.'] + 1
    decreases |name|
  {
    var parent := SubstringBeforeLast(name, '.');
    SubstringBeforeLastResult(name, '.');
    if parent != name {
      HierarchyLength(parent);
      var i := |parent|;
      assert name == parent + [name[i]] + name[i + 1..];
      assert '.' !in name[i + 1..];
    } else {
      assert '.' !in name;
    }
  }

  lemma HierarchyExamples()
    ensures LoggerNameHierarchy("a") == ["a"]
    ensures LoggerNameHierarchy("a.bc.d") == ["a.bc.d", "a.bc", "a"]
  {
    assert SubstringBeforeLast("a", '.') == "a";
    assert LastIndexOf("a.bc.d", '.') == 4;
    assert SubstringBeforeLast("a.bc.d", '.') == "a.bc";
    assert LastIndexOf("a.bc", '.') == 1;
    assert SubstringBeforeLast("a.bc", '.') == "a";
  }

  /** `mapNotNull { overrides[it] }.firstOrNull()`: the override of the first name that has one. */
  function FirstOverride(names: seq<string>, overrides: map<string, LogLevel>): (r: Option<LogLevel>)
    ensures r.Some? ==> r.value in overrides.Values
  {
    if |names| == 0 then Option.None
    else if names[0] in overrides then Some(overrides[names[0]])
    else FirstOverride(names[1..], overrides)
  }

  /** There is no override exactly when no name has one; otherwise it is the override of the first name that has one. */
  lemma {:induction false} FirstOverrideResult(names: seq<string>, overrides: map<string, LogLevel>)
    ensures var r := FirstOverride(names, overrides);
      && (r.None? <==> forall k :: 0 <= k < |names| ==> names[k] !in overrides)
      && (r.Some? ==> exists k :: 0 <= k < |names| && names[k] in overrides && r.value == overrides[names[k]] &&
                                  forall j :: 0 <= j < k ==> names[j] !in overrides)
  {
    if |names| > 0 && names[0] !in overrides {
      FirstOverrideResult(names[1..], overrides);
      assert forall k :: 1 <= k < |names| ==> names[k] == names[1..][k - 1];
      var r := FirstOverride(names, overrides);
      if r.Some? {
        var k :| 0 <= k < |names[1..]| && names[1..][k] in overrides && r.value == overrides[names[1..][k]] &&
                 forall j :: 0 <= j < k ==> names[1..][j] !in overrides;
        assert names[k + 1] in overrides && r.value == overrides[names[k + 1]] && forall j :: 0 <= j < k + 1 ==> names[j] !in overrides;
      }
    }
  }

  /** `UnstructuredLoggingConfiguration.logLevel(name)`: the nearest override up the hierarchy, else the default. */
  function LogLevelFor(overrides: map<string, LogLevel>, defaultLogLevel: LogLevel, name: string): (r: LogLevel)
    ensures r == defaultLogLevel || r in overrides.Values
  {
    FirstOverride(LoggerNameHierarchy(name), overrides).GetOr(defaultLogLevel)
  }

  /** A name's own override wins; a name with no override anywhere up its hierarchy gets the default. */
  lemma LogLevelForResolution(overrides: map<string, LogLevel>, defaultLogLevel: LogLevel, name: string)
    ensures name in overrides ==> LogLevelFor(overrides, defaultLogLevel, name) == overrides[name]
    ensures (forall n :: n in LoggerNameHierarchy(name) ==> n !in overrides) ==> LogLevelFor(overrides, defaultLogLevel, name) == defaultLogLevel
  {
    var h := LoggerNameHierarchy(name);
    HierarchyEnds(name);
    FirstOverrideResult(h, overrides);
    if forall n :: n in h ==> n !in overrides {
      assert forall k :: 0 <= k < |h| ==> h[k] in h;
    }
  }

  /** A name without an override of its own inherits its parent's level. */
  lemma {:induction false} LogLevelInherited(overrides: map<string, LogLevel>, defaultLogLevel: LogLevel, name: string)
    requires name !in overrides && '.' in name
    ensures LogLevelFor(overrides, defaultLogLevel, name) == LogLevelFor(overrides, defaultLogLevel, SubstringBeforeLast(name, '.'))
  {
    var h := LoggerNameHierarchy(name);
    SubstringBeforeLastResult(name, '.');
    assert h == [name] + LoggerNameHierarchy(SubstringBeforeLast(name, '.'));
    assert h[1..] == LoggerNameHierarchy(SubstringBeforeLast(name, '.'));
  }

  const ExampleOverrides: map<string, LogLevel> := map["a.b.c" := Error, "a.b" := Trace]

  lemma ExampleHierarchies()
    ensures LoggerNameHierarchy("a") == ["a"]
    ensures LoggerNameHierarchy("a.b") == ["a.b", "a"]
    ensures LoggerNameHierarchy("a.b.c") == ["a.b.c", "a.b", "a"]
    ensures LoggerNameHierarchy("a.b.c.d") == ["a.b.c.d", "a.b.c", "a.b", "a"]
    ensures LoggerNameHierarchy("a.b.d") == ["a.b.d", "a.b", "a"]
  {
    assert SubstringBeforeLast("a", '.') == "a";
    assert LastIndexOf("a.b", '.') == 1;
    assert SubstringBeforeLast("a.b", '.') == "a";
    assert LastIndexOf("a.b.c", '.') == 3;
    assert SubstringBeforeLast("a.b.c", '.') == "a.b";
    assert LastIndexOf("a.b.c.d", '.') == 5;
    assert SubstringBeforeLast("a.b.c.d", '.') == "a.b.c";
    assert LastIndexOf("a.b.d", '.') == 3;
    assert SubstringBeforeLast("a.b.d", '.') == "a.b";
  }

  /** The overrides {a.b.c: Error, a.b: Trace} with default Info. */
  lemma LogLevelExamples()
    ensures LogLevelFor(ExampleOverrides, Info, "a") == Info
    ensures LogLevelFor(ExampleOverrides, Info, "a.b") == Trace
    ensures LogLevelFor(ExampleOverrides, Info, "a.b.c") == Error
    ensures LogLevelFor(ExampleOverrides, Info, "a.b.c.d") == Error
    ensures LogLevelFor(ExampleOverrides, Info, "a.b.d") == Trace
  {
    ExampleHierarchies();
    assert "a" !in ExampleOverrides && "a.b.c.d" !in ExampleOverrides && "a.b.d" !in ExampleOverrides;
    assert FirstOverride(["a"], ExampleOverrides) == Option.None;
    assert FirstOverride(["a.b.c.d", "a.b.c", "a.b", "a"], ExampleOverrides) == Some(Error) by {
      assert ["a.b.c.d", "a.b.c", "a.b", "a"][1..] == ["a.b.c", "a.b", "a"];
    }
    assert FirstOverride(["a.b.d", "a.b", "a"], ExampleOverrides) == Some(Trace) by {
      assert ["a.b.d", "a.b", "a"][1..] == ["a.b", "a"];
    }
  }
}
