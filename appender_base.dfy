/**
 * The shared part of every appender (lib/appender/AbstractBaseAppender.ts and
 * its older copy in src/): the level filter `willHandle` and the line prefix
 * `formatPrefix`.  The timestamp formatter is a replaceable member of the
 * appender, so the prefix takes the timestamp text; `truncateOrExtendLeft`
 * is not part of this model and is a parameter.
 */
module AppenderBase {
  import opened Wrappers
  import opened Text
  import opened Definitions
  import opened Utils

  /**
   * `willHandle(event)`: an appender without a level takes every event, one
   * with a level takes the events at or above it.
   */
  function WillHandle(level: Option<int>, eventLevel: int): (r: bool)
    ensures level.None? ==> r
    ensures level.Some? ==> (r <==> eventLevel >= level.value)
  {
    !level.Some? || eventLevel >= level.value
  }

  /** An appender that takes a level takes every higher level. */
  lemma WillHandleMonotone(level: Option<int>, l: int, l2: int)
    requires WillHandle(level, l) && l <= l2
    ensures WillHandle(level, l2)
  {
  }

  /**
   * The appender's level is the least level it takes: it takes that level
   * and refuses the one below; without a level it takes every level.
   */
  lemma WillHandleThreshold(level: Option<int>, l: int)
    ensures level.Some? ==> WillHandle(level, level.value) && !WillHandle(level, level.value - 1)
    ensures level.None? ==> WillHandle(level, l)
  {
  }

  /** The width the level text is padded to: 13 with colour codes, 5 without. */
  function LevelWidth(colored: bool): int {
    if colored then 13 else 5
  }

  /**
   * The call-site part ` (<path>:<line>:<column>)`, the line padded on the
   * left to 4 and the column to 2; empty without a call site.
   */
  function CallSiteText(cs: Option<CallSite>, truncateLeft: string -> string): (r: string)
    ensures cs.None? <==> r == ""
    ensures cs.Some? ==>
      var lineText := IntToString(cs.value.line);
      var columnText := IntToString(cs.value.column);
      StartsWith(r, " (" + truncateLeft(cs.value.file) + ":") && EndsWith(r, ")") &&
      |r| == |truncateLeft(cs.value.file)| + 5 + (if |lineText| < 4 then 4 else |lineText|) +
             (if |columnText| < 2 then 2 else |columnText|)
  {
    match cs
    case None => ""
    case Some(c) =>
      var head := " (" + truncateLeft(c.file) + ":";
      var r := head + PadStart(IntToString(c.line), 4, ' ') + ":" + PadStart(IntToString(c.column), 2, ' ') + ")";
      assert r[..|head|] == head;
      r
  }

  /** The prefix up to, and without, its final colon: `<stamp> <tag> [<field>]`. */
  function PrefixHead(stamp: string, tag: string, field: string): (r: string)
    ensures PrefixLine(stamp, tag, field) == r + ":"
  {
    stamp + " " + tag + " [" + field + "]"
  }

  /** A concatenation splits back into its parts. */
  lemma SplitAt(a: string, b: string)
    ensures (a + b)[..|a|] == a && (a + b)[|a|..] == b
  {
  }

  /**
   * `formatPrefix(event, colored)` with the timestamp text `stamp`: the
   * prefix of the utilities (timestamp, padded level, the 20-character name
   * in brackets) with the call-site part inserted before its final colon.
   * None when the plain level text is undefined (padding it throws).
   */
  function FormatPrefix(event: LogEvent, colored: bool, stamp: string, truncateLeft: string -> string): (r: Option<string>)
    ensures r.Some? <==> FormatLogLevel(event.level, colored).Some?
    ensures r.Some? ==>
      var head := PrefixHead(stamp, PadStart(FormatLogLevel(event.level, colored).value, LevelWidth(colored), ' '),
                             TruncateOrExtend(event.loggerName, 20));
      |r.value| > |head| && r.value[..|head|] == head && r.value[|head|..] == CallSiteText(event.callSite, truncateLeft) + ":"
  {
    match FormatLogLevel(event.level, colored)
    case None => None
    case Some(text) =>
      var head := PrefixHead(stamp, PadStart(text, LevelWidth(colored), ' '), TruncateOrExtend(event.loggerName, 20));
      var tail := CallSiteText(event.callSite, truncateLeft) + ":";
      SplitAt(head, tail);
      Some(head + tail)
  }

  /**
   * Without a call site the appender's prefix has the shape of the
   * utilities' prefix: the level text right-aligned in its field of 13 or 5.
   */
  lemma PrefixWithoutCallSite(event: LogEvent, colored: bool, stamp: string, truncateLeft: string -> string)
    requires event.callSite.None? && FormatLogLevel(event.level, colored).Some?
    ensures PrefixShape(FormatPrefix(event, colored, stamp, truncateLeft).value, stamp,
                        FormatLogLevel(event.level, colored).value, LevelWidth(colored),
                        TruncateOrExtend(event.loggerName, 20))
  {
    var text := FormatLogLevel(event.level, colored).value;
    var field := TruncateOrExtend(event.loggerName, 20);
    var head := PrefixHead(stamp, PadStart(text, LevelWidth(colored), ' '), field);
    var r := FormatPrefix(event, colored, stamp, truncateLeft).value;
    assert r == r[..|head|] + r[|head|..];
    assert r == PrefixLine(stamp, PadStart(text, LevelWidth(colored), ' '), field);
    PaddedPrefixLine(stamp, text, LevelWidth(colored), field);
  }

  /**
   * With the default timestamp formatter and no call site, the appender's
   * prefix is the prefix of the utilities.
   */
  lemma DefaultPrefixIsUtilsPrefix(event: LogEvent, colored: bool, truncateLeft: string -> string)
    requires event.callSite.None?
    ensures FormatPrefix(event, colored, FormatISO8601(event.timestamp), truncateLeft) ==
            Utils.FormatPrefix(event.timestamp, event.level, event.loggerName, colored)
  {
    var r := FormatPrefix(event, colored, FormatISO8601(event.timestamp), truncateLeft);
    if r.Some? {
      var text := FormatLogLevel(event.level, colored).value;
      var head := PrefixHead(FormatISO8601(event.timestamp), PadStart(text, LevelWidth(colored), ' '),
                             TruncateOrExtend(event.loggerName, 20));
      assert r.value == r.value[..|head|] + r.value[|head|..];
      assert r.value == head + ":";
      assert Utils.FormatPrefix(event.timestamp, event.level, event.loggerName, colored).value ==
             PrefixLine(FormatISO8601(event.timestamp), PadStart(text, LevelWidth(colored), ' '),
                        TruncateOrExtend(event.loggerName, 20));
    }
  }

  /** The INFO label padded to five characters. */
  lemma PaddedInfo()
    ensures FormatLogLevel(INFO, false) == Some("INFO")
    ensures PadStart("INFO", 5, ' ') == " INFO"
  {
  }

  /** `foo.bar` in the 20-character name field. */
  lemma NameField()
    ensures TruncateOrExtend("foo.bar", 20) == "foo.bar" + Spaces(13)
  {
  }

  /**
   * The custom-timestamp test: an INFO event of `foo.bar` with the stamp
   * `08.05.2024` gives `08.05.2024  INFO [foo.bar             ]:`.
   */
  lemma CustomStampExample(event: LogEvent, truncateLeft: string -> string)
    requires event.level == INFO && event.loggerName == "foo.bar" && event.callSite.None?
    ensures FormatPrefix(event, false, "08.05.2024", truncateLeft) ==
            Some("08.05.2024" + " " + " INFO" + " [" + "foo.bar" + Spaces(13) + "]" + ":")
  {
    PaddedInfo();
    NameField();
    var head := PrefixHead("08.05.2024", " INFO", "foo.bar" + Spaces(13));
    var r := FormatPrefix(event, false, "08.05.2024", truncateLeft).value;
    assert r == r[..|head|] + r[|head|..];
    assert r == head + ":";
    assert head == "08.05.2024" + " " + " INFO" + " [" + "foo.bar" + Spaces(13) + "]";
  }
}
