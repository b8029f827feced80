/**
 * Levels, log events and the small predicates of lib/definitions.ts.
 * Levels are integers and are compared numerically; a level name stands for
 * its number.
 */
module Definitions {
  import opened Wrappers
  import opened Values

  const TRACE: int := 0
  const DEBUG: int := 10
  const INFO: int := 20
  const WARN: int := 30
  const ERROR: int := 40
  const FATAL: int := 50
  const OFF: int := 1000

  /** `LogLevelMap`, in declaration order. */
  const LogLevelMap: seq<(string, int)> :=
    [("TRACE", TRACE), ("DEBUG", DEBUG), ("INFO", INFO), ("WARN", WARN),
     ("ERROR", ERROR), ("FATAL", FATAL), ("OFF", OFF)]

  /** A level as the API accepts it: one of the names, or any number. */
  datatype LogLevel = Named(name: string) | Numeric(n: int)

  /** `LogLevelMap[name]`: the value of the first entry called `name`. */
  function LookupName(name: string, i: nat := 0): (r: Option<int>)
    requires i <= |LogLevelMap|
    ensures r.Some? <==> exists k :: i <= k < |LogLevelMap| && LogLevelMap[k].0 == name
    ensures r.Some? ==> exists k :: i <= k < |LogLevelMap| && LogLevelMap[k] == (name, r.value)
    decreases |LogLevelMap| - i
  {
    if i == |LogLevelMap| then None
    else if LogLevelMap[i].0 == name then Some(LogLevelMap[i].1)
    else LookupName(name, i + 1)
  }

  /** `LogLevelName[level]`: the name whose value is `level`, if there is one. */
  function LevelName(level: int, i: nat := 0): (r: Option<string>)
    requires i <= |LogLevelMap|
    ensures r.Some? <==> exists k :: i <= k < |LogLevelMap| && LogLevelMap[k].1 == level
    ensures r.Some? ==> exists k :: i <= k < |LogLevelMap| && LogLevelMap[k] == (r.value, level)
    decreases |LogLevelMap| - i
  {
    if i == |LogLevelMap| then None
    else if LogLevelMap[i].1 == level then Some(LogLevelMap[i].0)
    else LevelName(level, i + 1)
  }

  /** `toLogLevel`: a number is returned as it is, a name is looked up, null and undefined give undefined. */
  function ToLogLevel(value: Option<LogLevel>): (r: Option<int>)
    ensures value.None? ==> r.None?
    ensures value.Some? && value.value.Numeric? ==> r == Some(value.value.n)
    ensures value.Some? && value.value.Named? ==>
      (r.Some? <==> exists k :: 0 <= k < |LogLevelMap| && LogLevelMap[k].0 == value.value.name) &&
      (r.Some? ==> exists k :: 0 <= k < |LogLevelMap| && LogLevelMap[k] == (value.value.name, r.value))
  {
    match value
    case None => None
    case Some(Numeric(n)) => Some(n)
    case Some(Named(name)) => LookupName(name)
  }

  /** The reverse scan of `toLogLevelString`: entries `k-1` down to 0, the first whose value is at most `n`. */
  function ScanDown(n: int, k: nat): string
    requires k <= |LogLevelMap|
    decreases k
  {
    if k == 0 then "TRACE"
    else if n >= LogLevelMap[k - 1].1 then LogLevelMap[k - 1].0
    else ScanDown(n, k - 1)
  }

  /** `toLogLevelString`: a name is returned as it is; a number gives the name of the highest level at most that number. */
  function ToLogLevelString(level: LogLevel): (r: string)
    ensures level.Named? ==> r == level.name
    ensures level.Numeric? ==> LookupName(r).Some?
  {
    match level
    case Named(name) => name
    case Numeric(n) =>
      ScanDownFinds(n, |LogLevelMap|);
      assert LogLevelMap[0].0 == "TRACE";
      ScanDown(n, |LogLevelMap|)
  }

  /** The level values increase strictly in declaration order. */
  lemma LevelsIncrease()
    ensures forall i, j :: 0 <= i < j < |LogLevelMap| ==> LogLevelMap[i].1 < LogLevelMap[j].1
    ensures forall i :: 0 <= i < |LogLevelMap| ==> LogLevelMap[i].1 <= OFF
    ensures LogLevelMap[0].1 == TRACE == 0
  {
  }

  /** What the reverse scan over the first `k` entries finds. */
  lemma {:induction false} ScanDownFinds(n: int, k: nat)
    requires 0 < k <= |LogLevelMap|
    ensures var r := ScanDown(n, k);
      (n < 0 ==> r == "TRACE") &&
      (n >= 0 ==> exists i :: 0 <= i < k && r == LogLevelMap[i].0 && LogLevelMap[i].1 <= n &&
                             forall j :: i < j < k ==> n < LogLevelMap[j].1)
    decreases k
  {
    LevelsIncrease();
    if k == 1 {
      assert ScanDown(n, 0) == "TRACE";
      if n >= 0 {
        assert ScanDown(n, 1) == LogLevelMap[0].0;
      }
    } else if n >= LogLevelMap[k - 1].1 {
      assert ScanDown(n, k) == LogLevelMap[k - 1].0;
    } else {
      ScanDownFinds(n, k - 1);
      if n >= 0 {
        var i :| 0 <= i < k - 1 && ScanDown(n, k - 1) == LogLevelMap[i].0 && LogLevelMap[i].1 <= n &&
                 forall j :: i < j < k - 1 ==> n < LogLevelMap[j].1;
        assert forall j :: i < j < k ==> n < LogLevelMap[j].1;
      }
    }
  }

  /**
   * `toLogLevelString(n)` is the name of the highest level whose value is at
   * most `n`, and TRACE below 0.
   */
  lemma ToLogLevelStringHighestAtMost(n: int)
    ensures n < 0 ==> ToLogLevelString(Numeric(n)) == "TRACE"
    ensures n >= 0 ==> exists i :: 0 <= i < |LogLevelMap| && ToLogLevelString(Numeric(n)) == LogLevelMap[i].0 &&
                                   LogLevelMap[i].1 <= n &&
                                   forall j :: i < j < |LogLevelMap| ==> n < LogLevelMap[j].1
  {
    ScanDownFinds(n, |LogLevelMap|);
  }

  /** No two levels share a name. */
  lemma NamesDistinct()
    ensures forall i, j :: 0 <= i < j < |LogLevelMap| ==> LogLevelMap[i].0 != LogLevelMap[j].0
  {
  }

  /** Converting a name to its value and back gives the name, for each of the seven names. */
  lemma {:induction false} NameRoundTrip(i: nat)
    requires i < |LogLevelMap|
    ensures ToLogLevel(Some(Named(LogLevelMap[i].0))).Some?
    ensures ToLogLevelString(Numeric(ToLogLevel(Some(Named(LogLevelMap[i].0))).value)) == LogLevelMap[i].0
  {
    LevelsIncrease();
    var name := LogLevelMap[i].0;
    var v := ToLogLevel(Some(Named(name)));
    var k :| 0 <= k < |LogLevelMap| && LogLevelMap[k] == (name, v.value);
    NamesDistinct();
    assert k == i;
    ToLogLevelStringHighestAtMost(v.value);
    var m :| 0 <= m < |LogLevelMap| && ToLogLevelString(Numeric(v.value)) == LogLevelMap[m].0 &&
             LogLevelMap[m].1 <= v.value && forall j :: m < j < |LogLevelMap| ==> v.value < LogLevelMap[j].1;
    assert m == i;
  }

  /** The conversions on the values the tests use. */
  lemma LevelExamples()
    ensures ToLogLevel(Some(Numeric(12))) == Some(12)
    ensures ToLogLevel(Some(Numeric(30))) == Some(30)
    ensures ToLogLevel(Some(Named("ERROR"))) == Some(40)
    ensures ToLogLevel(Some(Named("foobar"))) == None
    ensures ToLogLevel(None) == None
    ensures ToLogLevelString(Named("ERROR")) == "ERROR"
    ensures ToLogLevelString(Numeric(10)) == "DEBUG"
    ensures ToLogLevelString(Numeric(-1)) == "TRACE"
    ensures ToLogLevelString(Numeric(9)) == "TRACE"
    ensures ToLogLevelString(Numeric(999)) == "FATAL"
  {
    ToLogLevelStringHighestAtMost(-1);
  }

  /** `isPresent`: anything but null and undefined. */
  predicate IsPresent(v: Value)
    ensures v.Str? || v.Num? || v.BigInt? || v.Bool? ==> IsPresent(v)
  {
    !v.Undefined? && !v.Null?
  }

  /** Only null and undefined are absent; the empty string and zero are present. */
  lemma PresentExamples()
    ensures !IsPresent(Undefined) && !IsPresent(Null)
    ensures IsPresent(Str("")) && IsPresent(Num(0)) && IsPresent(Bool(false))
  {
  }

  /**
   * `isAppenderConfig` (lib reads the property `Class`, src reads `class`):
   * the property holds a function whose `prototype` is an object.
   */
  predicate IsAppenderConfig(heap: Heap, cfg: Value, classKey: string)
    requires ValueIn(heap, cfg)
    ensures IsAppenderConfig(heap, cfg, classKey) ==> cfg.Ref? && heap[cfg.id].ObjectNode?
  {
    var c := Get(heap, cfg, classKey);
    IsPresent(c) && c.Fn? && c.f.hasPrototype
  }

  /** An optional call site of an event. */
  datatype CallSite = CallSite(file: string, line: int, column: int)

  /**
   * A `Date` as the local-time getters report it: the month counts from 0,
   * `offset` is `getTimezoneOffset()` in minutes (positive west of UTC).
   */
  datatype DateTime = DateTime(year: int, month: int, day: int, hours: int, minutes: int,
                               seconds: int, millis: int, offset: int)

  /**
   * What an event carries: an argument list, a function an appender calls for
   * the text, or (what the logger stores for a lazy message) a bare value.
   */
  datatype Payload = Args(values: seq<Value>) | Thunk(f: Callable) | Bare(value: Value)

  /** `ILogEvent`. */
  datatype LogEvent = LogEvent(level: int, loggerName: string, payload: Payload,
                               timestamp: DateTime, callSite: Option<CallSite>)
}
