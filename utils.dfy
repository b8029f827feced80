/**
 * The string helpers of lib/utils.ts and src/utils.ts: middle truncation,
 * class hierarchies, level labels, ISO-8601 timestamps and the line prefix.
 * Where the two revisions agree one definition serves both; the src variants
 * that differ carry the prefix `Legacy`.
 */
module Utils {
  import opened Wrappers
  import opened Text
  import opened Ansi
  import opened Values
  import opened Definitions

  // ---------------------------------------------------------------- truncation

  /** `Math.ceil(x / 2)` for an integer `x`. */
  function CeilHalf(x: int): int {
    (x + 1) / 2
  }

  /** `Math.floor(x / 2)` for an integer `x` (Dafny's division rounds down for a positive divisor). */
  function FloorHalf(x: int): int {
    x / 2
  }

  /**
   * `truncateMiddle(s, n, replacement)`: a string that fits is returned
   * unchanged; otherwise the first ceil((n-|replacement|)/2) and the last
   * floor((n-|replacement|)/2) characters are kept around the replacement.
   */
  function TruncateMiddle(s: string, n: int, replacement: string := "..."): (r: string)
    ensures |s| <= n ==> r == s
    ensures |s| > n && n >= |replacement| ==>
      var front := CeilHalf(n - |replacement|);
      var back := FloorHalf(n - |replacement|);
      |r| == n && front + back == n - |replacement| && 0 <= front - back <= 1 &&
      r[..front] == s[..front] &&
      r[front..front + |replacement|] == replacement &&
      r[front + |replacement|..] == s[|s| - back..]
  {
    if |s| <= n then s
    else
      var charsToShow := n - |replacement|;
      Slice(s, 0, CeilHalf(charsToShow)) + replacement + SliceFrom(s, |s| - FloorHalf(charsToShow))
  }

  /** `truncateOrExtend(s, n)`: truncate in the middle, then pad with spaces to exactly `n`. */
  function TruncateOrExtend(s: string, n: int): (r: string)
    ensures n >= 3 ==> |r| == n
    ensures |s| <= n ==> r == s + Spaces(n - |s|)
    ensures |s| > n && n >= 3 ==> r == TruncateMiddle(s, n)
  {
    PadEnd(TruncateMiddle(s, n), n, ' ')
  }

  /** The test cases of `truncateMiddle` and `truncateOrExtend`. */
  lemma TruncateExamples()
    ensures TruncateMiddle("to short", 10) == "to short"
    ensures TruncateMiddle("exactly 10", 10) == "exactly 10"
    ensures TruncateMiddle("longer then", 10) == "long...hen"
    ensures TruncateOrExtend("to short", 10) == "to short  "
  {
    assert Spaces(2) == "  ";
  }

  // ------------------------------------------------------------------ classes

  /** `isClass`: the string form of the function starts with 'class '. */
  predicate IsClass(f: Callable)
    ensures IsClass(f) ==> |f.source| >= 6 && f.source[5] == ' '
  {
    StartsWith(f.source, "class ")
  }

  /** The names along the constructor chain, from `f` up to (not including) `Object`. */
  function Chain(f: Callable): (r: seq<string>)
    ensures |r| >= 1 && r[0] == f.name
  {
    [f.name] + (if f.base.Some? then Chain(f.base.value) else [])
  }

  /** What `getClassHierarchy` returns. */
  function ClassHierarchy(v: Value): (r: string)
    ensures v.Fn? && IsClass(v.f) <==> StartsWith(r, "[class ")
    ensures v.Fn? && IsClass(v.f) ==> EndsWith(r, "]")
  {
    if v.Fn? && IsClass(v.f) then "[class " + Join(Chain(v.f), " extends ") + "]"
    else assert "no class"[0] != "[class "[0]; "no class"
  }

  /**
   * `getClassHierarchy`: the while loop that walks the constructor chain,
   * collecting names until `Object`.
   */
  method GetClassHierarchy(v: Value) returns (r: string)
    ensures r == ClassHierarchy(v)
  {
    if !v.Fn? || !IsClass(v.f) {
      return "no class";
    }
    var names: seq<string> := [];
    var current: Option<Callable> := Some(v.f);
    while current.Some?
      invariant names + (if current.Some? then Chain(current.value) else []) == Chain(v.f)
      decreases current
    {
      assert Chain(current.value) == [current.value.name] + (if current.value.base.Some? then Chain(current.value.base.value) else []);
      names := names + [current.value.name];
      current := current.value.base;
    }
    assert names == Chain(v.f);
    r := "[class " + Join(names, " extends ") + "]";
  }

  /** A class that extends another lists its own name, ' extends ', then its base's chain. */
  lemma {:induction false} HierarchyOfSubclass(f: Callable)
    requires IsClass(f) && f.base.Some?
    ensures ClassHierarchy(Fn(f)) == "[class " + f.name + " extends " + Join(Chain(f.base.value), " extends ") + "]"
  {
    var rest := Chain(f.base.value);
    var c := Chain(f);
    assert c == [f.name] + rest;
    assert c[0] == f.name && c[1..] == rest;
    assert Join(c, " extends ") == f.name + " extends " + Join(rest, " extends ");
  }

  /** `[class ClassB extends ClassA]` for a class ClassB that extends ClassA. */
  lemma HierarchyExample()
    ensures var a := Callable("ClassA", "class ClassA {}", true, None, "", None);
            var b := Callable("ClassB", "class ClassB extends ClassA {}", true, Some(a), "", None);
            ClassHierarchy(Fn(b)) == "[class ClassB extends ClassA]"
  {
    var a := Callable("ClassA", "class ClassA {}", true, None, "", None);
    var b := Callable("ClassB", "class ClassB extends ClassA {}", true, Some(a), "", None);
    assert "class ClassB extends ClassA {}"[..6] == "class ";
    HierarchyOfSubclass(b);
    assert Join(Chain(a), " extends ") == "ClassA";
  }

  /** 'no class' for plain functions, arrow functions and other values. */
  lemma NoClassExamples()
    ensures ClassHierarchy(Fn(Callable("test", "function test() {}", true, None, "", None))) == "no class"
    ensures ClassHierarchy(Fn(Callable("", "() => {}", false, None, "", None))) == "no class"
    ensures ClassHierarchy(Num(1)) == "no class"
  {
    assert "function test() {}"[0] != "class "[0];
    assert "() => {}"[0] != "class "[0];
  }

  // ------------------------------------------------------------------- levels

  /** The colour each named level is shown in. */
  function LevelStyle(level: int): Option<Style> {
    if level == DEBUG then Some(Gray)
    else if level == ERROR then Some(Red)
    else if level == FATAL then Some(Magenta)
    else if level == INFO then Some(Green)
    else if level == TRACE then Some(DarkGray)
    else if level == WARN then Some(Yellow)
    else None
  }

  /**
   * `formatLogLevel(level, colored)` of lib/utils.ts.  Coloured, the six
   * severities are painted and anything else is ''; plain, it is
   * `LogLevelName[level]`, which is undefined (None) for a level without a name.
   */
  function FormatLogLevel(level: int, colored: bool): (r: Option<string>)
    ensures colored ==> r.Some?
    ensures !colored ==> r == LevelName(level)
  {
    if colored then
      Some(if LevelStyle(level).Some? then Paint(LevelStyle(level).value, LevelName(level).value) else "")
    else LevelName(level)
  }

  /** A coloured label is the level's selector, the plain label and the reset code. */
  lemma ColoredLabelWrapsPlain(level: int)
    requires LevelStyle(level).Some?
    ensures FormatLogLevel(level, false).Some?
    ensures FormatLogLevel(level, true).value ==
            FormatCode(Code(LevelStyle(level).value)) + FormatLogLevel(level, false).value + EndFormatCode
  {
    var name := LevelName(level).value;
    PaintShape(LevelStyle(level).value, name);
    assert !EndsWith(name, EndFormatCode);
  }

  /** `formatLogLevel(level)` of src/utils.ts: always coloured, '' for OFF and unnamed levels. */
  function LegacyFormatLogLevel(level: int): (r: string)
    ensures r != "" <==> level in {DEBUG, ERROR, FATAL, INFO, TRACE, WARN}
    ensures r != "" ==> r[0] == Esc && EndsWith(r, EndFormatCode) && |r| <= 13
  {
    if level == DEBUG then [Esc] + "[37mDEBUG" + EndFormatCode
    else if level == ERROR then [Esc] + "[91mERROR" + EndFormatCode
    else if level == FATAL then [Esc] + "[95mFATAL" + EndFormatCode
    else if level == INFO then [Esc] + "[92mINFO" + EndFormatCode
    else if level == TRACE then [Esc] + "[90mTRACE" + EndFormatCode
    else if level == WARN then [Esc] + "[93mWARN" + EndFormatCode
    else ""
  }

  /** A wrapper around a level name is its selector, the name and the reset code. */
  lemma PaintName(st: Style, name: string)
    requires name in {"DEBUG", "ERROR", "FATAL", "INFO", "TRACE", "WARN"}
    ensures Paint(st, name) == FormatCode(Code(st)) + name + EndFormatCode
  {
    PaintShape(st, name);
    assert name[|name| - 1] != EndFormatCode[2];
  }

  /** For one named level, the src literal is the lib wrapper. */
  lemma LegacyLabelAgrees(level: int, st: Style, name: string, digits: string)
    requires LevelStyle(level) == Some(st) && LevelName(level) == Some(name)
    requires name in {"DEBUG", "ERROR", "FATAL", "INFO", "TRACE", "WARN"}
    requires NatToString(Code(st)) == digits
    requires LegacyFormatLogLevel(level) == [Esc] + "[" + digits + "m" + name + EndFormatCode
    ensures LegacyFormatLogLevel(level) == FormatLogLevel(level, true).value
  {
    PaintName(st, name);
    assert FormatLogLevel(level, true).value == Paint(st, name);
    assert FormatCode(Code(st)) == [Esc, '['] + digits + "m";
    assert [Esc, '['] == [Esc] + "[";
  }

  /** The labels of TRACE and DEBUG. */
  lemma LegacyLabelsAgreeTraceDebug(level: int)
    requires level in {TRACE, DEBUG}
    ensures LegacyFormatLogLevel(level) == FormatLogLevel(level, true).value
  {
    if level == TRACE {
      LegacyLabelAgrees(TRACE, DarkGray, "TRACE", "90");
    } else {
      LegacyLabelAgrees(DEBUG, Gray, "DEBUG", "37");
    }
  }

  /** The labels of INFO and WARN. */
  lemma LegacyLabelsAgreeInfoWarn(level: int)
    requires level in {INFO, WARN}
    ensures LegacyFormatLogLevel(level) == FormatLogLevel(level, true).value
  {
    if level == INFO {
      LegacyLabelAgrees(INFO, Green, "INFO", "92");
    } else {
      LegacyLabelAgrees(WARN, Yellow, "WARN", "93");
    }
  }

  /** The labels of ERROR and FATAL. */
  lemma LegacyLabelsAgreeErrorFatal(level: int)
    requires level in {ERROR, FATAL}
    ensures LegacyFormatLogLevel(level) == FormatLogLevel(level, true).value
  {
    if level == ERROR {
      LegacyLabelAgrees(ERROR, Red, "ERROR", "91");
    } else {
      LegacyLabelAgrees(FATAL, Magenta, "FATAL", "95");
    }
  }

  /** The src literals are exactly the lib colour wrappers, and both give '' for every other level. */
  lemma LegacyLabelsAgree(level: int)
    ensures LegacyFormatLogLevel(level) == FormatLogLevel(level, true).value
  {
    if level in {TRACE, DEBUG} {
      LegacyLabelsAgreeTraceDebug(level);
    } else if level in {INFO, WARN} {
      LegacyLabelsAgreeInfoWarn(level);
    } else if level in {ERROR, FATAL} {
      LegacyLabelsAgreeErrorFatal(level);
    }
  }

  // --------------------------------------------------------------- timestamps

  function Abs(x: int): nat {
    if x < 0 then -x else x
  }

  /** `String(n).padStart(w, '0')`. */
  function ZeroPad(n: int, w: nat): string {
    PadStart(IntToString(n), w, '0')
  }

  /**
   * The `±HH:MM` suffix as lib/utils.ts:230-234 computes it:
   * `Math.abs(Math.floor(offset / 60))` rounds the hours down before
   * dropping the sign.
   */
  function OffsetSuffixAsWritten(offset: int): string {
    (if offset > 0 then "-" else "+") + ZeroPad(Abs(offset / 60), 2) + ":" + ZeroPad(Abs(offset) % 60, 2)
  }

  /** The `±HH:MM` suffix with the hours taken from the absolute offset. */
  function OffsetSuffix(offset: int): string {
    (if offset > 0 then "-" else "+") + ZeroPad(Abs(offset) / 60, 2) + ":" + ZeroPad(Abs(offset) % 60, 2)
  }

  /** `YYYY-MM-DDTHH:mm:ss.SSS` followed by the given zone suffix. */
  function IsoText(d: DateTime, zone: string): string {
    IntToString(d.year) + "-" + ZeroPad(d.month + 1, 2) + "-" + ZeroPad(d.day, 2) +
    "T" + ZeroPad(d.hours, 2) + ":" + ZeroPad(d.minutes, 2) + ":" + ZeroPad(d.seconds, 2) +
    "." + ZeroPad(d.millis, 3) + zone
  }

  /** `formatISO8601` as written (identical in lib/utils.ts and src/utils.ts). */
  function FormatISO8601AsWritten(d: DateTime): (r: string)
    ensures EndsWith(r, OffsetSuffixAsWritten(d.offset))
  {
    IsoText(d, OffsetSuffixAsWritten(d.offset))
  }

  /** `formatISO8601` with the zone suffix corrected; the rest of the model uses this one. */
  function FormatISO8601(d: DateTime): (r: string)
    ensures EndsWith(r, OffsetSuffix(d.offset))
  {
    IsoText(d, OffsetSuffix(d.offset))
  }

  /** Two zero-padded digits read back as the number they pad. */
  lemma ZeroPadReadsBack(n: nat)
    requires n < 100
    ensures |ZeroPad(n, 2)| == 2 && IsDigits(ZeroPad(n, 2)) && DigitsValue(ZeroPad(n, 2)) == n
  {
    DigitsValueOfNatToString(n);
    if n < 10 {
      var z := ZeroPad(n, 2);
      assert z == "0" + NatToString(n);
      assert z[..1] == "0";
    } else {
      assert NatToString(n) == NatToString(n / 10) + [Digit(n % 10)];
    }
  }

  /**
   * The corrected suffix states the zone exactly: '+' east of UTC (a
   * non-positive `getTimezoneOffset`), '-' west of it, and HH*60+MM is the
   * size of the offset, for any offset under 100 hours.
   */
  lemma OffsetSuffixReadsBack(offset: int)
    requires Abs(offset) < 6000
    ensures var z := OffsetSuffix(offset);
      |z| == 6 && z[0] == (if offset > 0 then '-' else '+') && z[3] == ':' &&
      IsDigits(z[1..3]) && IsDigits(z[4..6]) &&
      DigitsValue(z[1..3]) * 60 + DigitsValue(z[4..6]) == Abs(offset)
  {
    var h := Abs(offset) / 60;
    var m := Abs(offset) % 60;
    ZeroPadReadsBack(h);
    ZeroPadReadsBack(m);
    SuffixFields(if offset > 0 then "-" else "+", ZeroPad(h, 2), ZeroPad(m, 2));
  }

  /** The fields of a sign, two digits, ':' and two digits sit at fixed positions. */
  lemma SuffixFields(sign: string, hh: string, mm: string)
    requires |sign| == 1 && |hh| == 2 && |mm| == 2
    ensures var z := sign + hh + ":" + mm;
      |z| == 6 && z[0] == sign[0] && z[3] == ':' && z[1..3] == hh && z[4..6] == mm
  {
    var z := sign + hh + ":" + mm;
    assert z[1..3] == hh;
    assert z[4..6] == mm;
  }

  /** The two computations agree east of UTC on whole hours and everywhere west of UTC. */
  lemma {:induction false} AsWrittenAgreesOffWholeHoursEast(offset: int)
    requires offset >= 0 || offset % 60 == 0
    ensures OffsetSuffixAsWritten(offset) == OffsetSuffix(offset)
  {
    if offset < 0 {
      assert offset == (offset / 60) * 60;
      assert -offset == (-(offset / 60)) * 60;
      assert Abs(offset) / 60 == -(offset / 60);
    }
  }

  /**
   * India (UTC+05:30) has `getTimezoneOffset() == -330`; the written code
   * rounds -5.5 down to -6 and prints +06:30.
   */
  lemma AsWrittenMisstatesHalfHourEast()
    ensures OffsetSuffixAsWritten(-330) == "+06:30"
    ensures OffsetSuffix(-330) == "+05:30"
  {
    assert Abs(-330 / 60) == 6 && Abs(-330) / 60 == 5 && Abs(-330) % 60 == 30;
    ZeroPadTwo(6, '0', '6');
    ZeroPadTwo(5, '0', '5');
    ZeroPadTwo(30, '3', '0');
  }

  /** A number below 100 pads to its two decimal digits. */
  lemma ZeroPadTwo(n: nat, a: char, b: char)
    requires n < 100 && a == Digit(n / 10) && b == Digit(n % 10)
    ensures ZeroPad(n, 2) == [a, b]
  {
    if n < 10 {
      assert NatToString(n) == [b];
    } else {
      assert NatToString(n / 10) == [a];
    }
  }

  /** The timestamp is its fields' texts joined by the fixed separators. */
  lemma IsoTextParts(d: DateTime, zone: string, y: string, mo: string, da: string, h: string, mi: string, s: string, ms: string)
    requires IntToString(d.year) == y && ZeroPad(d.month + 1, 2) == mo && ZeroPad(d.day, 2) == da
    requires ZeroPad(d.hours, 2) == h && ZeroPad(d.minutes, 2) == mi && ZeroPad(d.seconds, 2) == s
    requires ZeroPad(d.millis, 3) == ms
    ensures IsoText(d, zone) == y + "-" + mo + "-" + da + "T" + h + ":" + mi + ":" + s + "." + ms + zone
  {
  }

  /** The year and the milliseconds of the examples of the tests. */
  lemma YearAndMillisExample()
    ensures IntToString(2024) == "2024" && ZeroPad(789, 3) == "789"
  {
    assert NatToString(2024) == "2024";
    assert NatToString(789) == "789";
  }

  /** The suffixes of a zone two hours east of UTC and of one five hours west of it. */
  lemma ZoneExamples()
    ensures OffsetSuffix(-120) == "+02:00"
    ensures OffsetSuffix(300) == "-05:00"
  {
    ZeroPadTwo(2, '0', '2');
    ZeroPadTwo(5, '0', '5');
    ZeroPadTwo(0, '0', '0');
  }

  /** The example of the tests for a zone two hours east of UTC: 2024-07-01T14:34:56.789+02:00. */
  lemma IsoExampleEast()
    ensures FormatISO8601(DateTime(2024, 6, 1, 14, 34, 56, 789, -120)) ==
            "2024" + "-" + "07" + "-" + "01" + "T" + "14" + ":" + "34" + ":" + "56" + "." + "789" + "+02:00"
  {
    YearAndMillisExample();
    ZoneExamples();
    ZeroPadTwo(7, '0', '7'); ZeroPadTwo(1, '0', '1'); ZeroPadTwo(14, '1', '4');
    ZeroPadTwo(34, '3', '4'); ZeroPadTwo(56, '5', '6');
    IsoTextParts(DateTime(2024, 6, 1, 14, 34, 56, 789, -120), "+02:00", "2024", "07", "01", "14", "34", "56", "789");
  }

  /** The example of the tests for a zone five hours west of UTC: 2024-12-23T07:34:56.789-05:00. */
  lemma IsoExampleWest()
    ensures FormatISO8601(DateTime(2024, 11, 23, 7, 34, 56, 789, 300)) ==
            "2024" + "-" + "12" + "-" + "23" + "T" + "07" + ":" + "34" + ":" + "56" + "." + "789" + "-05:00"
  {
    YearAndMillisExample();
    ZoneExamples();
    ZeroPadTwo(12, '1', '2'); ZeroPadTwo(23, '2', '3'); ZeroPadTwo(7, '0', '7');
    ZeroPadTwo(34, '3', '4'); ZeroPadTwo(56, '5', '6');
    IsoTextParts(DateTime(2024, 11, 23, 7, 34, 56, 789, 300), "-05:00", "2024", "12", "23", "07", "34", "56", "789");
  }

  // ------------------------------------------------------------------- prefix

  /**
   * The line prefix `<stamp> <level> [<name>]:`, read back piece by piece:
   * each part sits at a fixed position determined by the lengths before it.
   */
  function PrefixLine(stamp: string, tag: string, field: string): (r: string)
    ensures |r| == |stamp| + |tag| + |field| + 5
    ensures r[..|stamp| + 1] == stamp + " "
    ensures r[|stamp| + 1..|stamp| + 1 + |tag|] == tag
    ensures r[|stamp| + 1 + |tag|..|stamp| + 3 + |tag|] == " ["
    ensures r[|stamp| + 3 + |tag|..|r| - 2] == field
    ensures r[|r| - 2..] == "]:"
  {
    stamp + " " + tag + " [" + field + "]:"
  }

  /**
   * `r` is `stamp`, a space, `text` right-aligned in a field of `width`
   * (wider when `text` is longer), ' [', `field` and ']:'.
   */
  predicate PrefixShape(r: string, stamp: string, text: string, width: int, field: string) {
    var tagEnd := |stamp| + 1 + (if |text| >= width then |text| else width);
    |r| == tagEnd + 4 + |field| &&
    r[..|stamp| + 1] == stamp + " " &&
    EndsWith(r[..tagEnd], text) &&
    (forall i :: |stamp| + 1 <= i < tagEnd - |text| ==> r[i] == ' ') &&
    r[tagEnd..tagEnd + 2] == " [" &&
    r[tagEnd + 2..tagEnd + 2 + |field|] == field &&
    r[tagEnd + 2 + |field|..] == "]:"
  }

  /** A prefix whose level text is padded on the left to `width` has that shape. */
  lemma PaddedPrefixLine(stamp: string, text: string, width: int, field: string)
    ensures PrefixShape(PrefixLine(stamp, PadStart(text, width, ' '), field), stamp, text, width, field)
  {
    var padded := PadStart(text, width, ' ');
    var r := PrefixLine(stamp, padded, field);
    var tagEnd := |stamp| + 1 + |padded|;
    assert |padded| == if |text| >= width then |text| else width;
    assert padded[|padded| - |text|..] == text;
    var head := r[..tagEnd];
    assert head[|stamp| + 1..] == padded by {
      assert head[|stamp| + 1..] == r[|stamp| + 1..|stamp| + 1 + |padded|];
    }
    assert head[|head| - |text|..] == text by {
      assert head[|head| - |text|..] == head[|stamp| + 1..][|padded| - |text|..];
    }
    forall i | |stamp| + 1 <= i < tagEnd - |text|
      ensures r[i] == ' '
    {
      assert r[i] == head[|stamp| + 1..][i - |stamp| - 1];
    }
    assert r[tagEnd..tagEnd + 2] == " [";
    assert r[tagEnd + 2..tagEnd + 2 + |field|] == field;
    assert r[tagEnd + 2 + |field|..] == "]:";
    assert EndsWith(head, text);
  }

  /**
   * `formatPrefix(ts, level, name, colored)` of lib/utils.ts: timestamp, the
   * level tag left-padded to 13 (coloured) or 5 (plain), and the logger name
   * truncated or extended to exactly 20 in brackets.  None when the plain
   * tag is undefined (padding it throws).
   */
  function FormatPrefix(ts: DateTime, level: int, name: string, colored: bool): (r: Option<string>)
    ensures r.Some? <==> FormatLogLevel(level, colored).Some?
    ensures r.Some? ==>
      PrefixShape(r.value, FormatISO8601(ts), FormatLogLevel(level, colored).value,
                  if colored then 13 else 5, TruncateOrExtend(name, 20))
  {
    match FormatLogLevel(level, colored)
    case None => None
    case Some(text) =>
      var stamp := FormatISO8601(ts);
      var padded := PadStart(text, if colored then 13 else 5, ' ');
      PaddedPrefixLine(stamp, text, if colored then 13 else 5, TruncateOrExtend(name, 20));
      Some(PrefixLine(stamp, padded, TruncateOrExtend(name, 20)))
  }

  /** `formatPrefix(level, name)` of src/utils.ts, with the current time passed in. */
  function LegacyFormatPrefix(now: DateTime, level: int, name: string): (r: string)
    ensures |r| == |FormatISO8601(now)| + 38
    ensures StartsWith(r, FormatISO8601(now) + " ") && EndsWith(r, "]:")
  {
    PrefixLine(FormatISO8601(now), PadStart(LegacyFormatLogLevel(level), 13, ' '), TruncateOrExtend(name, 20))
  }

  /** The src prefix is the coloured lib prefix at the same moment. */
  lemma LegacyPrefixIsColoredPrefix(now: DateTime, level: int, name: string)
    ensures LegacyFormatPrefix(now, level, name) == FormatPrefix(now, level, name, true).value
  {
    LegacyLabelsAgree(level);
  }
}
