/**
 * The older level conversion of src/definitions.ts: `LogLevel` is a numeric
 * enum (same seven names and values as `LogLevelMap`) and `toLogLevel` is
 * strict, throwing `not a valid LogLevel: '<value>'` for anything it does not
 * know.  A thrown message is a `Failure`.
 */
module LegacyDefinitions {
  import opened Wrappers
  import opened Text
  import opened Definitions

  /** The message `toLogLevel` throws for `value`. */
  function InvalidLevel(value: LogLevel): string {
    "not a valid LogLevel: '" + (match value case Named(s) => s case Numeric(n) => IntToString(n)) + "'"
  }

  /**
   * The reverse-mapping keys of the enum object: `LogLevel['20']` is 'INFO'.
   * Yields the name whose value's decimal text is `s`.
   */
  function ReverseKey(s: string, i: nat := 0): (r: Option<string>)
    requires i <= |LogLevelMap|
    ensures r.Some? ==> exists k :: i <= k < |LogLevelMap| && IntToString(LogLevelMap[k].1) == s && LogLevelMap[k].0 == r.value
    decreases |LogLevelMap| - i
  {
    if i == |LogLevelMap| then None
    else if IntToString(LogLevelMap[i].1) == s then Some(LogLevelMap[i].0)
    else ReverseKey(s, i + 1)
  }

  /**
   * `toLogLevel` as src/definitions.ts:44-58 writes it.  `value in LogLevel`
   * also admits the enum's reverse-mapping keys, for which `LogLevel[value]`
   * is a level name rather than a level.
   */
  function ToLogLevelAsWritten(value: Option<LogLevel>): (r: Result<Option<LogLevel>, string>)
    ensures r.Success? && r.value.Some? && r.value.value.Numeric? ==> LevelName(r.value.value.n).Some?
    ensures r.Success? && r.value.Some? && r.value.value.Named? ==> LookupName(r.value.value.name).Some?
    ensures r.Failure? ==> value.Some? && (value.value.Named? ==> LookupName(value.value.name).None?) &&
                           (value.value.Numeric? ==> LevelName(value.value.n).None?)
  {
    match value
    case None => Success(None)
    case Some(Named(s)) =>
      if LookupName(s).Some? then Success(Some(Numeric(LookupName(s).value)))
      else if ReverseKey(s).Some? then Success(Some(Named(ReverseKey(s).value)))
      else Failure(InvalidLevel(Named(s)))
    case Some(Numeric(n)) =>
      if LevelName(n).Some? then Success(Some(Numeric(n))) else Failure(InvalidLevel(Numeric(n)))
  }

  /** '20' is no level name, but it is the reverse-mapping key of INFO. */
  lemma TwentyIsReverseKey()
    ensures LookupName("20") == None
    ensures ReverseKey("20") == Some("INFO")
  {
    assert IntToString(20) == "20";
  }

  /** The decimal text '20' is let through and converted to the name 'INFO', not to a level. */
  lemma AsWrittenTurnsTextIntoName()
    ensures ToLogLevelAsWritten(Some(Named("20"))) == Success(Some(Named("INFO")))
  {
    TwentyIsReverseKey();
  }

  /**
   * The strict `toLogLevel` with only the seven names looked up: undefined
   * stays undefined, a name gives its value, a number is accepted iff it is
   * one of the seven values, and everything else fails with the message.
   */
  function ToLogLevel(value: Option<LogLevel>): (r: Result<Option<int>, string>)
    ensures value.None? <==> r == Success(None)
    ensures r.Success? && r.value.Some? ==> exists k :: 0 <= k < |LogLevelMap| && LogLevelMap[k].1 == r.value.value
    ensures value.Some? && value.value.Named? ==>
      (r.Success? <==> exists k :: 0 <= k < |LogLevelMap| && LogLevelMap[k].0 == value.value.name)
    ensures value.Some? && value.value.Numeric? ==>
      (r.Success? <==> exists k :: 0 <= k < |LogLevelMap| && LogLevelMap[k].1 == value.value.n) &&
      (r.Success? ==> r.value == Some(value.value.n))
    ensures r.Failure? ==> r.error == InvalidLevel(value.value)
  {
    match value
    case None => Success(None)
    case Some(Named(s)) =>
      if LookupName(s).Some? then Success(Some(LookupName(s).value)) else Failure(InvalidLevel(Named(s)))
    case Some(Numeric(n)) =>
      if LevelName(n).Some? then Success(Some(n)) else Failure(InvalidLevel(Numeric(n)))
  }

  /** Strict conversion agrees with the lenient one wherever it succeeds. */
  lemma {:induction false} StrictAgreesWithLenient(value: Option<LogLevel>)
    requires ToLogLevel(value).Success?
    ensures ToLogLevel(value).value == Definitions.ToLogLevel(value)
  {
  }

  /** The conversions the tests check that succeed. */
  lemma StrictExamples()
    ensures ToLogLevel(None) == Success(None)
    ensures ToLogLevel(Some(Named("ERROR"))) == Success(Some(ERROR))
    ensures ToLogLevel(Some(Numeric(DEBUG))) == Success(Some(DEBUG))
    ensures ToLogLevel(Some(Numeric(30))) == Success(Some(WARN))
  {
  }

  /** The conversions the tests check that throw, and the decimal text '20', which is no level name. */
  lemma StrictFailureExamples()
    ensures ToLogLevel(Some(Named("foobar"))) == Failure("not a valid LogLevel: 'foobar'")
    ensures ToLogLevel(Some(Numeric(12))) == Failure("not a valid LogLevel: '12'")
    ensures ToLogLevel(Some(Named("20"))) == Failure("not a valid LogLevel: '20'")
  {
    assert LookupName("20") == None;
    assert InvalidLevel(Named("20")) == "not a valid LogLevel: '20'";
    assert IntToString(12) == "12";
    assert InvalidLevel(Numeric(12)) == "not a valid LogLevel: '12'";
    assert LookupName("foobar") == None;
    assert InvalidLevel(Named("foobar")) == "not a valid LogLevel: 'foobar'";
  }
}
