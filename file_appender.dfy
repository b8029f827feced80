/**
 * The `FileAppender` of lib/appender/FileAppender.ts: the checks that turn
 * its configuration into a log-file path, the date part of the file name,
 * the line it appends for an event, and the write queue that keeps the
 * appends in `handle`-call order.  The file system is the value `Files`:
 * which paths can be accessed, which exist, which are directories, and
 * which refuse appends.
 */
module FileAppending {
  import opened Wrappers
  import opened Text
  import opened Values
  import opened Definitions
  import opened Utils
  import opened Formatter
  import opened FormatterFacts
  import AppenderBase
  import Logging

  /** The file system as the appender observes it. */
  datatype Files = Files(accessible: set<string>, existing: set<string>,
                         directories: set<string>, appendFails: set<string>)

  /** `path.join(dir, file)` for a plain file name: exactly one '/' between the two. */
  function JoinPath(dir: string, file: string): (r: string)
    ensures StartsWith(r, dir) && EndsWith(r, file)
  {
    var r := if EndsWith(dir, "/") then dir + file else dir + "/" + file;
    assert r[..|dir|] == dir;
    assert r[|r| - |file|..] == file;
    r
  }

  /** The file name without extension: `baseName-timeStamp` when both are given, else the one that is. */
  function FileName(baseName: string, timeStamp: string): (r: string)
    ensures |r| == |baseName| + |timeStamp| + (if baseName != "" && timeStamp != "" then 1 else 0)
  {
    if baseName != "" && timeStamp != "" then baseName + "-" + timeStamp
    else if baseName != "" then baseName else timeStamp
  }

  /** The file name is never empty when one of its parts is given, and contains each given part. */
  lemma FileNameParts(baseName: string, timeStamp: string)
    requires baseName != "" || timeStamp != ""
    ensures FileName(baseName, timeStamp) != ""
    ensures baseName != "" ==> StartsWith(FileName(baseName, timeStamp), baseName)
    ensures timeStamp != "" ==> EndsWith(FileName(baseName, timeStamp), timeStamp)
    ensures baseName != "" && timeStamp != "" ==>
      FileName(baseName, timeStamp)[|baseName|] == '-' && |FileName(baseName, timeStamp)| == |baseName| + 1 + |timeStamp|
  {
    var n := FileName(baseName, timeStamp);
    if baseName != "" && timeStamp != "" {
      assert n[..|baseName|] == baseName;
      assert n[|n| - |timeStamp|..] == timeStamp;
    }
  }

  lemma EndsWithExtension(p: string, name: string, extension: string)
    requires EndsWith(p, name + "." + extension)
    ensures EndsWith(p, "." + extension)
  {
    var full := name + "." + extension;
    var tail := "." + extension;
    assert full == name + tail;
    assert full[|full| - |tail|..] == tail;
    assert p[|p| - |tail|..] == full[|full| - |tail|..];
  }

  const NotConfigured := "FileAppender is not configured properly: "

  /** The second argument of the inaccessible-path report; `console.error` joins its arguments with a space. */
  const NoAutoCreate := "For security reasons, the file path is not created automatically."

  /**
   * `calcFullFilePath(filePath, baseName, extension, timeStamp)`: the path of
   * the log file, or the message reported on the console for the first check
   * that fails, with all of its arguments.  A missing (null or undefined) setting is None.
   */
  function CalcFullFilePath(filePath: Option<string>, baseName: Option<string>, extension: Option<string>,
                            timeStamp: string, fs: Files): (r: Result<string, string>)
    ensures (filePath.None? || filePath.value == "") ==>
      r == Failure(NotConfigured + "filePath not given")
    ensures filePath.Some? && filePath.value != "" && filePath.value !in fs.accessible ==>
      r == Failure(NotConfigured + "filePath '" + filePath.value + "' does not exists or is not accessible. " + NoAutoCreate)
    ensures filePath.Some? && filePath.value in fs.accessible && filePath.value != "" && baseName.None? ==>
      r == Failure(NotConfigured + "baseName must not be null or undefined")
    ensures filePath.Some? && filePath.value in fs.accessible && filePath.value != "" && baseName == Some("") &&
            timeStamp == "" ==>
      r == Failure(NotConfigured + "either baseName or timeStamp must not be empty")
    ensures filePath.Some? && filePath.value in fs.accessible && filePath.value != "" && baseName.Some? &&
            (baseName.value != "" || timeStamp != "") && (extension.None? || extension.value == "") ==>
      r == Failure(NotConfigured + "extension must not be empty")
    ensures r.Success? <==>
      filePath.Some? && filePath.value != "" && filePath.value in fs.accessible && baseName.Some? &&
      (baseName.value != "" || timeStamp != "") && extension.Some? && extension.value != "" &&
      var p := JoinPath(filePath.value, FileName(baseName.value, timeStamp) + "." + extension.value);
      (p in fs.existing ==> p in fs.accessible && p !in fs.directories)
    ensures r.Success? ==>
      r.value == JoinPath(filePath.value, FileName(baseName.value, timeStamp) + "." + extension.value) &&
      EndsWith(r.value, "." + extension.value)
  {
    if filePath.None? || filePath.value == "" then
      Failure(NotConfigured + "filePath not given")
    else if filePath.value !in fs.accessible then
      Failure(NotConfigured + "filePath '" + filePath.value + "' does not exists or is not accessible. " + NoAutoCreate)
    else if baseName.None? then
      Failure(NotConfigured + "baseName must not be null or undefined")
    else if baseName.value == "" && timeStamp == "" then
      Failure(NotConfigured + "either baseName or timeStamp must not be empty")
    else if extension.None? || extension.value == "" then
      Failure(NotConfigured + "extension must not be empty")
    else
      var name := FileName(baseName.value, timeStamp) + "." + extension.value;
      var p := JoinPath(filePath.value, name);
      EndsWithExtension(p, FileName(baseName.value, timeStamp), extension.value);
      if p in fs.existing && p !in fs.accessible then
        Failure(NotConfigured + "path '" + p + "' can not be accessed.")
      else if p in fs.existing && p in fs.directories then
        Failure(NotConfigured + "path '" + p + "' is a directory.")
      else
        Success(p)
  }

  /** An existing target that cannot be accessed, or is a directory, is refused with its own message. */
  lemma ExistingTargetRefused(filePath: string, baseName: string, extension: string, timeStamp: string, fs: Files)
    requires filePath != "" && filePath in fs.accessible && (baseName != "" || timeStamp != "") && extension != ""
    requires JoinPath(filePath, FileName(baseName, timeStamp) + "." + extension) in fs.existing
    ensures var p := JoinPath(filePath, FileName(baseName, timeStamp) + "." + extension);
      (p !in fs.accessible ==>
        CalcFullFilePath(Some(filePath), Some(baseName), Some(extension), timeStamp, fs) ==
        Failure(NotConfigured + "path '" + p + "' can not be accessed.")) &&
      (p in fs.accessible && p in fs.directories ==>
        CalcFullFilePath(Some(filePath), Some(baseName), Some(extension), timeStamp, fs) ==
        Failure(NotConfigured + "path '" + p + "' is a directory."))
  {
  }

  /** `getTimestamp(date)`: `YYYY-MM-DD`, month (1-based) and day padded to two digits. */
  function GetTimestamp(d: DateTime): (r: string)
    ensures |r| >= |IntToString(d.year)| + 6
    ensures r[|IntToString(d.year)|] == '-'
  {
    IntToString(d.year) + "-" + ZeroPad(d.month + 1, 2) + "-" + ZeroPad(d.day, 2)
  }

  /**
   * For a calendar date the timestamp reads back: the year, a '-', two digits
   * that spell the month, a '-' and two digits that spell the day.
   */
  lemma GetTimestampReadsBack(d: DateTime)
    requires d.year >= 0 && 0 <= d.month < 12 && 1 <= d.day <= 31
    ensures var t := GetTimestamp(d); var y := IntToString(d.year);
      |t| == |y| + 6 && t[..|y|] == y && t[|y|] == '-' && t[|y| + 3] == '-' &&
      IsDigits(t[|y| + 1..|y| + 3]) && DigitsValue(t[|y| + 1..|y| + 3]) == d.month + 1 &&
      IsDigits(t[|y| + 4..]) && DigitsValue(t[|y| + 4..]) == d.day
  {
    var y := IntToString(d.year);
    var mo := ZeroPad(d.month + 1, 2);
    var da := ZeroPad(d.day, 2);
    ZeroPadReadsBack(d.month + 1);
    ZeroPadReadsBack(d.day);
    TimestampSlices(y, mo, da);
  }

  lemma TimestampSlices(y: string, mo: string, da: string)
    requires |mo| == 2 && |da| == 2
    ensures var t := y + "-" + mo + "-" + da;
      |t| == |y| + 6 && t[..|y|] == y && t[|y|] == '-' && t[|y| + 3] == '-' &&
      t[|y| + 1..|y| + 3] == mo && t[|y| + 4..] == da
  {
  }

  /** The date of the default test event: 1 May 2024 is `2024-05-01`. */
  lemma GetTimestampExample(d: DateTime)
    requires d.year == 2024 && d.month == 4 && d.day == 1
    ensures GetTimestamp(d) == "2024-05-01"
  {
    ZeroPadTwo(5, '0', '5');
    ZeroPadTwo(1, '0', '1');
    assert IntToString(2024) == "2024";
  }

  /** The payload values all live in the heap. */
  predicate PayloadIn(heap: Heap, p: Payload) {
    (p.Args? ==> forall i :: 0 <= i < |p.values| ==> ValueIn(heap, p.values[i])) &&
    (p.Bare? ==> ValueIn(heap, p.value))
  }

  /** `payload.map(elem => formatAny(elem, pretty, colored))`. */
  function FormatParts(heap: Heap, vs: seq<Value>, pretty: bool, colored: bool): (parts: seq<string>)
    requires Closed(heap) && forall i :: 0 <= i < |vs| ==> ValueIn(heap, vs[i])
    ensures |parts| == |vs|
  {
    seq(|vs|, i requires 0 <= i < |vs| => FormatValue(heap, vs[i], pretty, colored))
  }

  /**
   * The line `writeToFile` appends for an event: the prefix and the payload
   * parts (or the result of a function payload) joined by ' ', then '\n'.
   * None when building it throws: the level has no plain label, or the
   * payload is neither an argument list nor a function.
   */
  function WriteLine(event: LogEvent, colored: bool, pretty: bool, heap: Heap, truncateLeft: string -> string): (r: Option<string>)
    requires Closed(heap) && PayloadIn(heap, event.payload)
    ensures r.Some? <==> FormatLogLevel(event.level, colored).Some? && !event.payload.Bare?
    ensures r.Some? ==>
      var prefix := AppenderBase.FormatPrefix(event, colored, FormatISO8601(event.timestamp), truncateLeft).value;
      (event.payload.Thunk? ==> r.value == prefix + " " + event.payload.f.callResult + "\n") &&
      (event.payload.Args? && |event.payload.values| == 0 ==> r.value == prefix + "\n") &&
      (event.payload.Args? && |event.payload.values| > 0 ==>
        r.value == prefix + " " + Join(FormatParts(heap, event.payload.values, pretty, colored), " ") + "\n")
  {
    match AppenderBase.FormatPrefix(event, colored, FormatISO8601(event.timestamp), truncateLeft)
    case None => None
    case Some(prefix) =>
      match event.payload
      case Bare(_) => None
      case Thunk(f) =>
        assert Join([prefix, f.callResult], " ") == prefix + " " + Join([f.callResult], " ");
        Some(Join([prefix, f.callResult], " ") + "\n")
      case Args(vs) =>
        var parts := FormatParts(heap, vs, pretty, colored);
        assert ([prefix] + parts)[1..] == parts;
        Some(Join([prefix] + parts, " ") + "\n")
  }

  /** The settings `writeToFile` reads. */
  datatype FileConfig = FileConfig(baseName: Option<string>, colored: bool, extension: Option<string>,
                                   filePath: Option<string>, pretty: bool)

  /**
   * One run of `writeToFile(event)`: the path and the line appended, or None
   * when the path checks fail, building the line throws or the append fails
   * (each is only reported on the console).
   */
  function WriteOne(cfg: FileConfig, fs: Files, heap: Heap, truncateLeft: string -> string, event: LogEvent): (w: Option<(string, string)>)
    requires Closed(heap) && PayloadIn(heap, event.payload)
    ensures w.Some? <==>
      CalcFullFilePath(cfg.filePath, cfg.baseName, cfg.extension, GetTimestamp(event.timestamp), fs).Success? &&
      WriteLine(event, cfg.colored, cfg.pretty, heap, truncateLeft).Some? &&
      CalcFullFilePath(cfg.filePath, cfg.baseName, cfg.extension, GetTimestamp(event.timestamp), fs).value !in fs.appendFails
    ensures w.Some? ==>
      w.value.0 == CalcFullFilePath(cfg.filePath, cfg.baseName, cfg.extension, GetTimestamp(event.timestamp), fs).value &&
      w.value.1 == WriteLine(event, cfg.colored, cfg.pretty, heap, truncateLeft).value
  {
    match CalcFullFilePath(cfg.filePath, cfg.baseName, cfg.extension, GetTimestamp(event.timestamp), fs)
    case Failure(_) => None
    case Success(p) =>
      match WriteLine(event, cfg.colored, cfg.pretty, heap, truncateLeft)
      case None => None
      case Some(line) => if p in fs.appendFails then None else Some((p, line))
  }

  predicate EventsIn(heap: Heap, events: seq<LogEvent>) {
    forall i :: 0 <= i < |events| ==> PayloadIn(heap, events[i].payload)
  }

  /** The append one write attempt performs: none when it failed. */
  function Emitted(w: Option<(string, string)>): seq<(string, string)> {
    if w.Some? then [w.value] else []
  }

  /** The appends of a run of write attempts, in order, failed attempts adding nothing. */
  function Appends(ws: seq<Option<(string, string)>>): (r: seq<(string, string)>)
    ensures |r| <= |ws|
  {
    if |ws| == 0 then [] else Appends(ws[..|ws| - 1]) + Emitted(ws[|ws| - 1])
  }

  lemma {:induction false} AppendsConcat(x: seq<Option<(string, string)>>, y: seq<Option<(string, string)>>)
    ensures Appends(x + y) == Appends(x) + Appends(y)
    decreases |y|
  {
    if |y| == 0 {
      assert x + y == x;
    } else {
      var y' := y[..|y| - 1];
      var n := |x + y|;
      assert (x + y)[..n - 1] == x + y';
      assert (x + y)[n - 1] == y[|y| - 1];
      calc {
        Appends(x + y);
        Appends((x + y)[..n - 1]) + Emitted((x + y)[n - 1]);
        Appends(x + y') + Emitted(y[|y| - 1]);
        { AppendsConcat(x, y'); }
        Appends(x) + Appends(y') + Emitted(y[|y| - 1]);
        Appends(x) + (Appends(y') + Emitted(y[|y| - 1]));
        Appends(x) + Appends(y);
      }
    }
  }

  /** The write attempt for each queued event, in queue order. */
  function Attempts(cfg: FileConfig, fs: Files, heap: Heap, truncateLeft: string -> string, events: seq<LogEvent>): (ws: seq<Option<(string, string)>>)
    requires Closed(heap) && EventsIn(heap, events)
    ensures |ws| == |events|
  {
    seq(|events|, i requires 0 <= i < |events| => WriteOne(cfg, fs, heap, truncateLeft, events[i]))
  }

  /** The appends the write queue performs for the queued events, in queue order. */
  function Writes(cfg: FileConfig, fs: Files, heap: Heap, truncateLeft: string -> string, events: seq<LogEvent>): (ws: seq<(string, string)>)
    requires Closed(heap) && EventsIn(heap, events)
    ensures |ws| <= |events|
  {
    Appends(Attempts(cfg, fs, heap, truncateLeft, events))
  }

  lemma EventsConcat(heap: Heap, a: seq<LogEvent>, b: seq<LogEvent>)
    requires EventsIn(heap, a) && EventsIn(heap, b)
    ensures EventsIn(heap, a + b)
  {
    forall i | 0 <= i < |a + b|
      ensures PayloadIn(heap, (a + b)[i].payload)
    {
      if i >= |a| {
        assert (a + b)[i] == b[i - |a|];
      }
    }
  }

  lemma AttemptsConcat(cfg: FileConfig, fs: Files, heap: Heap, truncateLeft: string -> string,
                       a: seq<LogEvent>, b: seq<LogEvent>)
    requires Closed(heap) && EventsIn(heap, a) && EventsIn(heap, b) && EventsIn(heap, a + b)
    ensures Attempts(cfg, fs, heap, truncateLeft, a + b) ==
            Attempts(cfg, fs, heap, truncateLeft, a) + Attempts(cfg, fs, heap, truncateLeft, b)
  {
    var w := Attempts(cfg, fs, heap, truncateLeft, a + b);
    var wa := Attempts(cfg, fs, heap, truncateLeft, a);
    var wb := Attempts(cfg, fs, heap, truncateLeft, b);
    forall i | 0 <= i < |a + b|
      ensures w[i] == (wa + wb)[i]
    {
      if i < |a| {
        assert (a + b)[i] == a[i];
      } else {
        assert (a + b)[i] == b[i - |a|];
      }
    }
  }

  /** The writes of a longer queue extend those of the shorter one: appends happen in `handle`-call order. */
  lemma WritesAppend(cfg: FileConfig, fs: Files, heap: Heap, truncateLeft: string -> string,
                     a: seq<LogEvent>, b: seq<LogEvent>)
    requires Closed(heap) && EventsIn(heap, a) && EventsIn(heap, b)
    ensures EventsIn(heap, a + b)
    ensures Writes(cfg, fs, heap, truncateLeft, a + b) == Writes(cfg, fs, heap, truncateLeft, a) + Writes(cfg, fs, heap, truncateLeft, b)
  {
    EventsConcat(heap, a, b);
    AttemptsConcat(cfg, fs, heap, truncateLeft, a, b);
    AppendsConcat(Attempts(cfg, fs, heap, truncateLeft, a), Attempts(cfg, fs, heap, truncateLeft, b));
  }

  /** The appends for a single queued event: its write, if it succeeds. */
  lemma WritesOne(cfg: FileConfig, fs: Files, heap: Heap, truncateLeft: string -> string, e: LogEvent)
    requires Closed(heap) && PayloadIn(heap, e.payload)
    ensures EventsIn(heap, [e])
    ensures Writes(cfg, fs, heap, truncateLeft, [e]) == Emitted(WriteOne(cfg, fs, heap, truncateLeft, e))
  {
    var w := Attempts(cfg, fs, heap, truncateLeft, [e]);
    assert w == [WriteOne(cfg, fs, heap, truncateLeft, e)];
    assert w[..0] == [];
  }

  /** A queued event whose write fails adds nothing and does not keep the later events from being written. */
  lemma WriteFailureRecovers(cfg: FileConfig, fs: Files, heap: Heap, truncateLeft: string -> string,
                             a: seq<LogEvent>, e: LogEvent, b: seq<LogEvent>)
    requires Closed(heap) && EventsIn(heap, a) && PayloadIn(heap, e.payload) && EventsIn(heap, b)
    requires WriteOne(cfg, fs, heap, truncateLeft, e).None?
    ensures EventsIn(heap, a + [e] + b)
    ensures Writes(cfg, fs, heap, truncateLeft, a + [e] + b) == Writes(cfg, fs, heap, truncateLeft, a) + Writes(cfg, fs, heap, truncateLeft, b)
  {
    WritesOne(cfg, fs, heap, truncateLeft, e);
    WritesAppend(cfg, fs, heap, truncateLeft, a, [e]);
    WritesAppend(cfg, fs, heap, truncateLeft, a + [e], b);
    var wa := Writes(cfg, fs, heap, truncateLeft, a);
    assert Writes(cfg, fs, heap, truncateLeft, [e]) == [];
    assert Writes(cfg, fs, heap, truncateLeft, a + [e]) == wa + [] == wa;
  }

  /** The appender object. */
  class FileAppender {
    var level: Option<int>
    var baseName: Option<string>
    var colored: bool
    var extension: Option<string>
    var filePath: Option<string>
    var pretty: bool
    /** The events handed to the write queue, oldest first. */
    var queue: seq<LogEvent>

    /**
     * `new FileAppender(level)`: base name '', plain, extension 'log', the
     * file `bit.log` in the temporary directory `tmpdir`, not pretty; the
     * level when one is given.
     */
    constructor(level: Option<int>, tmpdir: string)
      ensures this.level == level && baseName == Some("") && !colored && extension == Some("log")
      ensures filePath == Some(JoinPath(tmpdir, "bit.log")) && !pretty && queue == []
    {
      this.level := level;
      baseName := Some("");
      colored := false;
      extension := Some("log");
      filePath := Some(JoinPath(tmpdir, "bit.log"));
      pretty := false;
      queue := [];
    }

    function Config(): FileConfig
      reads this
    {
      FileConfig(baseName, colored, extension, filePath, pretty)
    }

    /**
     * `handle(event)`: an event the appender does not take is dropped; any
     * other is chained behind the writes queued before it.
     */
    method Handle(event: LogEvent) returns (queued: bool)
      modifies this
      ensures queued <==> AppenderBase.WillHandle(level, event.level)
      ensures queue == old(queue) + (if queued then [event] else [])
      ensures Config() == old(Config()) && level == old(level)
    {
      if !AppenderBase.WillHandle(level, event.level) {
        return false;
      }
      queue := queue + [event];
      return true;
    }
  }

  /**
   * After a `handle` call the queue's appends are those before it followed
   * by the one for the new event, if it was taken and its write succeeds.
   */
  lemma HandleAppendsInOrder(cfg: FileConfig, fs: Files, heap: Heap, truncateLeft: string -> string,
                             before: seq<LogEvent>, e: LogEvent)
    requires Closed(heap) && EventsIn(heap, before) && PayloadIn(heap, e.payload)
    ensures EventsIn(heap, before + [e])
    ensures var w := WriteOne(cfg, fs, heap, truncateLeft, e);
      Writes(cfg, fs, heap, truncateLeft, before + [e]) ==
      Writes(cfg, fs, heap, truncateLeft, before) + (if w.Some? then [w.value] else [])
  {
    WritesOne(cfg, fs, heap, truncateLeft, e);
    WritesAppend(cfg, fs, heap, truncateLeft, before, [e]);
  }

  /**
   * The lazy payload as the logger builds it (a bare string) is never
   * written: `writeToFile` throws on it and every such event is lost.
   */
  lemma AsWrittenLazyPayloadIsLost(event: LogEvent, args: seq<Value>, colored: bool, pretty: bool,
                                   heap: Heap, truncateLeft: string -> string)
    requires Closed(heap) && |args| > 0 && args[0].Fn?
    requires event.payload == Logging.PayloadAsWritten(args)
    ensures PayloadIn(heap, event.payload)
    ensures WriteLine(event, colored, pretty, heap, truncateLeft) == None
  {
  }

  /** A lone string argument is written as itself, whatever the options. */
  lemma SingleStringPart(heap: Heap, s: string, pretty: bool, colored: bool)
    requires Closed(heap)
    ensures Join(FormatParts(heap, [Str(s)], pretty, colored), " ") == s
  {
    PrimitiveRendering(heap, s, 1, pretty, Tracking.NoneTracked);
    assert FormatParts(heap, [Str(s)], pretty, colored) == [s];
  }

  /**
   * The corrected payload writes the function's result after the prefix,
   * exactly as a function payload would be written, coloured or not: a line
   * is written whenever the level has a label.
   */
  lemma LoggedLazyPayloadIsWritten(event: LogEvent, args: seq<Value>, colored: bool, pretty: bool,
                                   heap: Heap, truncateLeft: string -> string)
    requires Closed(heap) && |args| > 0 && args[0].Fn?
    requires event.payload == Logging.LoggedPayload(args)
    ensures PayloadIn(heap, event.payload)
    ensures WriteLine(event, colored, pretty, heap, truncateLeft) ==
            WriteLine(event.(payload := Thunk(args[0].f)), colored, pretty, heap, truncateLeft)
    ensures WriteLine(event, colored, pretty, heap, truncateLeft).Some? <==> FormatLogLevel(event.level, colored).Some?
  {
    var s := args[0].f.callResult;
    assert event.payload == Args([Str(s)]);
    SingleStringPart(heap, s, pretty, colored);
  }
}
