/**
 * The module state of src/index.ts, the earlier variant of the registry: a
 * root logger created at start-up with a console appender, a registry of the
 * other loggers by name, a registry of configured appenders, `useLogger`,
 * the `asString` helper of the error messages, and `configureLogging`, whose
 * root and logger sections only write debug messages.  The loggers are the
 * `Logger` objects of the lib variant.
 */
module LegacyRegistry {
  import opened Wrappers
  import opened Text
  import opened Values
  import opened Definitions
  import opened Records
  import opened Formatter
  import opened Utils
  import opened Logging
  import Registry

  /** The name the console appender is registered under at start-up. */
  const CONSOLE := "CONSOLE"

  // --------------------------------------------------------------- JSON text

  /** The lower-case hexadecimal digit of `d`. */
  function HexDigit(d: nat): char
    requires d < 16
  {
    "0123456789abcdef"[d]
  }

  /** How `JSON.stringify` writes one character inside a string literal. */
  function JsonChar(c: char): (r: string)
    ensures |r| >= 1
    ensures c != '"' && c != '\\' && c >= ' ' ==> r == [c]
  {
    if c == '"' then "\\\""
    else if c == '\\' then "\\\\"
    else if c == '\n' then "\\n"
    else if c == '\r' then "\\r"
    else if c == '\t' then "\\t"
    else if c == '\U{8}' then "\\b"
    else if c == '\U{C}' then "\\f"
    else if c < ' ' then "\\u00" + [HexDigit(c as int / 16), HexDigit(c as int % 16)]
    else [c]
  }

  /** The characters of a string, each as `JSON.stringify` writes it. */
  function JsonChars(s: string): string
  {
    if |s| == 0 then "" else JsonChars(s[..|s| - 1]) + JsonChar(s[|s| - 1])
  }

  /** A character that `JSON.stringify` writes as it is. */
  predicate Plain(c: char) {
    c != '"' && c != '\\' && c >= ' '
  }

  /** A string without quotes, backslashes and control characters is written as it is. */
  lemma {:induction false} JsonCharsPlain(s: string)
    requires forall i :: 0 <= i < |s| ==> Plain(s[i])
    ensures JsonChars(s) == s
  {
    if |s| > 0 {
      JsonCharsPlain(s[..|s| - 1]);
      assert s == s[..|s| - 1] + [s[|s| - 1]];
    }
  }

  /** Escaping never shortens a string. */
  lemma {:induction false} JsonCharsLonger(s: string)
    ensures |JsonChars(s)| >= |s|
  {
    if |s| > 0 {
      JsonCharsLonger(s[..|s| - 1]);
    }
  }

  /**
   * The text `${JSON.stringify(v)}` for a property value: undefined,
   * functions and symbols give `undefined`, which the template writes as
   * 'undefined'; a string is quoted and escaped.  A BigInt makes
   * `JSON.stringify` throw (None); the text of an object, or its failure, is
   * `objectJson`.
   */
  function JsonText(v: Value, objectJson: Id -> Option<string>): (r: Option<string>)
    ensures v.BigInt? ==> r.None?
    ensures v.Str? ==> r == Some("\"" + JsonChars(v.s) + "\"")
    ensures v.Undefined? || v.Fn? || v.Symbol? ==> r == Some("undefined")
  {
    match v
    case Undefined => Some("undefined")
    case Null => Some("null")
    case Bool(b) => Some(if b then "true" else "false")
    case Num(n) => Some(IntToString(n))
    case BigInt(_) => None
    case Str(s) => Some("\"" + JsonChars(s) + "\"")
    case Symbol(_) => Some("undefined")
    case Fn(_) => Some("undefined")
    case Ref(id) => objectJson(id)
  }

  // --------------------------------------------------------------- asString

  /**
   * One property as `asString` writes it: the key, ': ', then the class
   * hierarchy for 'class' and the JSON text of the value otherwise.
   */
  function PropertyText(entry: (string, Value), objectJson: Id -> Option<string>): (r: Option<string>)
    ensures entry.0 == "class" ==> r == Some(entry.0 + ": " + ClassHierarchy(entry.1))
    ensures entry.0 != "class" ==> (r.Some? <==> JsonText(entry.1, objectJson).Some?)
  {
    if entry.0 == "class" then Some(entry.0 + ": " + ClassHierarchy(entry.1))
    else match JsonText(entry.1, objectJson)
      case None => None
      case Some(t) => Some(entry.0 + ": " + t)
  }

  /** The texts of the properties in order; None as soon as one of them throws. */
  function PropertyTexts(entries: seq<(string, Value)>, objectJson: Id -> Option<string>): (r: Option<seq<string>>)
    ensures r.Some? ==> |r.value| == |entries|
  {
    if |entries| == 0 then Some([])
    else
      var front := PropertyTexts(entries[..|entries| - 1], objectJson);
      var last := PropertyText(entries[|entries| - 1], objectJson);
      if front.Some? && last.Some? then Some(front.value + [last.value]) else None
  }

  /** Every property has a text exactly when no value makes `JSON.stringify` throw. */
  lemma {:induction false} PropertyTextsDefined(entries: seq<(string, Value)>, objectJson: Id -> Option<string>)
    ensures PropertyTexts(entries, objectJson).Some? <==>
      forall i :: 0 <= i < |entries| ==> PropertyText(entries[i], objectJson).Some?
    ensures PropertyTexts(entries, objectJson).Some? ==>
      forall i :: 0 <= i < |entries| ==> PropertyTexts(entries, objectJson).value[i] == PropertyText(entries[i], objectJson).value
  {
    if |entries| > 0 {
      var n := |entries| - 1;
      var front := entries[..n];
      PropertyTextsDefined(front, objectJson);
      if PropertyTexts(front, objectJson).Some? && PropertyText(entries[n], objectJson).Some? {
        var r := PropertyTexts(entries, objectJson).value;
        assert r == PropertyTexts(front, objectJson).value + [PropertyText(entries[n], objectJson).value];
        forall i | 0 <= i < |entries|
          ensures PropertyText(entries[i], objectJson).Some? && r[i] == PropertyText(entries[i], objectJson).value
        {
          if i < n {
            assert front[i] == entries[i];
            assert r[i] == PropertyTexts(front, objectJson).value[i];
            assert PropertyText(entries[i], objectJson) == PropertyText(front[i], objectJson);
          } else {
            assert i == n;
          }
        }
      } else if PropertyTexts(front, objectJson).None? {
        var j :| 0 <= j < n && PropertyText(front[j], objectJson).None?;
        assert front[j] == entries[j];
      }
    }
  }

  /** What `asString(config)` returns for the entries of the configuration: the property texts joined by ', ' in braces. */
  function AsStringOf(entries: seq<(string, Value)>, objectJson: Id -> Option<string>): (r: Option<string>)
    ensures r.Some? ==> StartsWith(r.value, "{") && EndsWith(r.value, "}")
    ensures entries == [] ==> r == Some("{}")
  {
    match PropertyTexts(entries, objectJson)
    case None => None
    case Some(texts) =>
      var s := "{" + Join(texts, ", ") + "}";
      assert s[..1] == "{" && s[|s| - 1..] == "}";
      assert entries == [] ==> texts == [] && Join(texts, ", ") == "" && s == "{}";
      Some(s)
  }

  /**
   * `asString(config)`: the loop over `Object.entries(config)` that adds a
   * separator before every property but the first.  A value `JSON.stringify`
   * rejects makes it throw (None).
   */
  method AsString(entries: seq<(string, Value)>, objectJson: Id -> Option<string>) returns (r: Option<string>)
    ensures r == AsStringOf(entries, objectJson)
  {
    var result := "{";
    var first := true;
    ghost var texts: seq<string> := [];
    for i := 0 to |entries|
      invariant first <==> i == 0
      invariant PropertyTexts(entries[..i], objectJson) == Some(texts)
      invariant result == "{" + Join(texts, ", ")
    {
      var text := PropertyText(entries[i], objectJson);
      if text.None? {
        assert entries[..i + 1][..i] == entries[..i];
        assert PropertyTexts(entries[..i + 1], objectJson).None?;
        PropertyTextsPrefix(entries, i + 1, objectJson);
        return None;
      }
      TextStep(entries, objectJson, i, texts, result, text.value);
      result := result + (if !first then ", " else "") + text.value;
      texts := texts + [text.value];
      first := false;
    }
    assert entries[..|entries|] == entries;
    r := Some(result + "}");
  }

  /** One more written property extends the texts and the joined text by its text. */
  lemma TextStep(entries: seq<(string, Value)>, objectJson: Id -> Option<string>, i: nat,
                 texts: seq<string>, result: string, t: string)
    requires i < |entries| && PropertyTexts(entries[..i], objectJson) == Some(texts)
    requires result == "{" + Join(texts, ", ") && PropertyText(entries[i], objectJson) == Some(t)
    ensures PropertyTexts(entries[..i + 1], objectJson) == Some(texts + [t])
    ensures result + (if i != 0 then ", " else "") + t == "{" + Join(texts + [t], ", ")
  {
    assert entries[..i + 1][..i] == entries[..i];
    assert entries[..i + 1][i] == entries[i];
    JoinedStep(texts, t);
  }

  /** Appending a text to the joined texts, after a separator unless it is the first. */
  lemma JoinedStep(texts: seq<string>, t: string)
    ensures "{" + Join(texts, ", ") + (if |texts| != 0 then ", " else "") + t == "{" + Join(texts + [t], ", ")
  {
    if |texts| != 0 {
      JoinSnoc(texts, t, ", ");
    } else {
      assert texts + [t] == [t];
    }
  }

  /** When the texts of a prefix cannot be written, neither can the texts of the whole. */
  lemma {:induction false} PropertyTextsPrefix(entries: seq<(string, Value)>, i: nat, objectJson: Id -> Option<string>)
    requires i <= |entries| && PropertyTexts(entries[..i], objectJson).None?
    ensures PropertyTexts(entries, objectJson).None?
    decreases |entries| - i
  {
    if i < |entries| {
      assert entries[..i + 1][..i] == entries[..i];
      PropertyTextsPrefix(entries, i + 1, objectJson);
    } else {
      assert entries[..i] == entries;
    }
  }

  /**
   * The text of `asString` is enclosed in braces and holds one text per
   * property; it exists exactly when every value can be written.
   */
  lemma AsStringShape(entries: seq<(string, Value)>, objectJson: Id -> Option<string>)
    ensures AsStringOf(entries, objectJson).Some? <==>
      forall i :: 0 <= i < |entries| ==> entries[i].0 == "class" || JsonText(entries[i].1, objectJson).Some?
    ensures AsStringOf(entries, objectJson).Some? ==>
      StartsWith(AsStringOf(entries, objectJson).value, "{") && EndsWith(AsStringOf(entries, objectJson).value, "}")
  {
    PropertyTextsDefined(entries, objectJson);
  }

  // ------------------------------------------------------- appender entries

  /** Why the configuration `cfg` is illegal; None when its `class` constructs an instance. */
  function EntryError(heap: Heap, cfg: Value): (r: Option<Registry.ConfigError>)
    requires ValueIn(heap, cfg)
    ensures r.None? <==> IsAppenderConfig(heap, cfg, "class") && Get(heap, cfg, "class").f.constructError.None?
    ensures r == Some(Registry.NotAnAppender) <==> !IsAppenderConfig(heap, cfg, "class")
  {
    if !IsAppenderConfig(heap, cfg, "class") then Some(Registry.NotAnAppender)
    else match Get(heap, cfg, "class").f.constructError
      case Some(e) => Some(Registry.ConstructorThrew(e))
      case None => None
  }

  /** What an illegal configuration raises: its error, or the error of `JSON.stringify` while writing the message. */
  datatype Raised = ConfigRejected(message: string) | StringifyThrew

  /**
   * The error an illegal configuration raises: 'illegal appender config ',
   * the `asString` text of the configuration, and a thrown error appended.
   */
  function ErrorMessage(heap: Heap, cfg: Value, e: Registry.ConfigError, objectJson: Id -> Option<string>): (r: Raised)
    requires ValueIn(heap, cfg)
    ensures r.StringifyThrew? <==> AsStringOf(OwnEntries(heap, cfg), objectJson).None?
    ensures r.ConfigRejected? ==> StartsWith(r.message, Registry.IllegalConfig + AsStringOf(OwnEntries(heap, cfg), objectJson).value)
    ensures r.ConfigRejected? && e.ConstructorThrew? ==> EndsWith(r.message, ", error: " + e.thrown)
    ensures r.ConfigRejected? && e.NotAnAppender? ==> r.message == Registry.IllegalConfig + AsStringOf(OwnEntries(heap, cfg), objectJson).value
  {
    match AsStringOf(OwnEntries(heap, cfg), objectJson)
    case None => StringifyThrew
    case Some(text) =>
      var head := Registry.IllegalConfig + text;
      match e
      case NotAnAppender => ConfigRejected(head)
      case ConstructorThrew(t) =>
        var m := head + ", error: " + t;
        assert m[..|head|] == head;
        assert m[|m| - |", error: " + t|..] == ", error: " + t;
        ConfigRejected(m)
  }

  /**
   * The `throw` of an illegal configuration: the message built with
   * `asString`, the thrown error appended when the constructor threw.
   */
  method Raise(heap: Heap, cfg: Value, e: Registry.ConfigError, objectJson: Id -> Option<string>) returns (r: Raised)
    requires ValueIn(heap, cfg)
    ensures r == ErrorMessage(heap, cfg, e, objectJson)
  {
    var text := AsString(OwnEntries(heap, cfg), objectJson);
    if text.None? {
      return StringifyThrew;
    }
    var message := Registry.IllegalConfig + text.value;
    if e.ConstructorThrew? {
      message := message + ", error: " + e.thrown;
    }
    return ConfigRejected(message);
  }

  /** The level an assigned `level` value gives the instance: a number is its level, anything else none. */
  function InstanceLevel(v: Value): (r: Option<int>)
    ensures r.Some? <==> v.Num?
  {
    if v.Num? then Some(v.n) else None
  }

  /** The level the entry loop leaves on the instance: that of the last 'level' entry. */
  function AssignedLevel(entries: seq<(string, Value)>): (r: Option<int>)
    ensures r.Some? ==> exists i :: 0 <= i < |entries| && entries[i] == ("level", Num(r.value))
  {
    if |entries| == 0 then None
    else
      var last := entries[|entries| - 1];
      if last.0 == "level" then InstanceLevel(last.1)
      else
        var r := AssignedLevel(entries[..|entries| - 1]);
        assert r.Some? ==> exists i :: 0 <= i < |entries| - 1 && entries[i] == ("level", Num(r.value));
        r
  }

  /** Whether the entry loop sets an entry as a property: every key but 'class' (and 'level', which is the level). */
  predicate Assigned(entry: (string, Value)) {
    entry.0 != "class" && entry.0 != "level"
  }

  /** The properties the entry loop sets, absent values included, a later entry overwriting an earlier one. */
  function AssignedProps(entries: seq<(string, Value)>): seq<(string, Value)>
  {
    if |entries| == 0 then []
    else
      var last := entries[|entries| - 1];
      var front := AssignedProps(entries[..|entries| - 1]);
      if Assigned(last) then Put(front, last.0, last.1) else front
  }

  /** On a configuration whose values are all present the src loop sets the properties the lib loop sets. */
  lemma {:induction false} AssignedAgreesWhenPresent(entries: seq<(string, Value)>)
    requires forall i :: 0 <= i < |entries| ==> IsPresent(entries[i].1)
    ensures AssignedProps(entries) == Registry.CopyProps(entries)
  {
    if |entries| > 0 {
      AssignedAgreesWhenPresent(entries[..|entries| - 1]);
    }
  }

  /**
   * The entry loop of `configureLogging`: every entry but 'class' is
   * assigned to the instance in turn, 'level' to its level.
   */
  method AssignEntries(entries: seq<(string, Value)>) returns (level: Option<int>, props: seq<(string, Value)>)
    ensures level == AssignedLevel(entries) && props == AssignedProps(entries)
  {
    level := None;
    props := [];
    for i := 0 to |entries|
      invariant level == AssignedLevel(entries[..i]) && props == AssignedProps(entries[..i])
    {
      var (key, value) := entries[i];
      assert entries[..i + 1][..i] == entries[..i];
      if key == "level" {
        level := InstanceLevel(value);
      } else if key != "class" {
        props := Put(props, key, value);
      }
    }
    assert entries[..|entries|] == entries;
  }

  /** What one entry of the appender section configures: the `class` value, the assigned level and properties. */
  function BlueprintOf(heap: Heap, cfg: Value): Registry.Blueprint
    requires ValueIn(heap, cfg)
  {
    var entries := OwnEntries(heap, cfg);
    Registry.Blueprint(Get(heap, cfg, "class"), AssignedLevel(entries), AssignedProps(entries))
  }

  /** The verdict on the configuration `cfg`. */
  function Judge(heap: Heap, cfg: Value): Registry.Verdict
    requires ValueIn(heap, cfg)
  {
    match EntryError(heap, cfg)
    case Some(e) => Registry.Illegal(e)
    case None => Registry.Legal(BlueprintOf(heap, cfg))
  }

  /** The verdicts on the entries, in entry order. */
  function Verdicts(heap: Heap, entries: seq<(string, Value)>): (vs: seq<Registry.Verdict>)
    requires EntriesIn(heap, entries)
    ensures |vs| == |entries|
  {
    if |entries| == 0 then []
    else Verdicts(heap, entries[..|entries| - 1]) + [Judge(heap, entries[|entries| - 1].1)]
  }

  /** The verdict on each entry is the verdict on its configuration. */
  lemma {:induction false} VerdictAt(heap: Heap, entries: seq<(string, Value)>, j: nat)
    requires EntriesIn(heap, entries) && j < |entries|
    ensures Verdicts(heap, entries)[j] == Judge(heap, entries[j].1)
  {
    if j < |entries| - 1 {
      var front := entries[..|entries| - 1];
      VerdictAt(heap, front, j);
      assert front[j] == entries[j];
    }
  }

  /** The index of the first illegal entry; None when every entry is legal. */
  function FirstIllegal(heap: Heap, entries: seq<(string, Value)>): Option<nat>
    requires EntriesIn(heap, entries)
  {
    Registry.FirstIllegalFrom(Verdicts(heap, entries), 0)
  }

  /** The section fails at the first illegal entry, and only when there is one. */
  lemma FirstIllegalIsFirst(heap: Heap, entries: seq<(string, Value)>)
    requires EntriesIn(heap, entries)
    ensures FirstIllegal(heap, entries).None? <==> forall j :: 0 <= j < |entries| ==> EntryError(heap, entries[j].1).None?
    ensures FirstIllegal(heap, entries).Some? ==>
      var i := FirstIllegal(heap, entries).value;
      i < |entries| && EntryError(heap, entries[i].1).Some? &&
      forall j :: 0 <= j < i ==> EntryError(heap, entries[j].1).None?
  {
    var vs := Verdicts(heap, entries);
    Registry.FirstIllegalFromIsFirst(vs, 0);
    forall j | 0 <= j < |entries|
      ensures vs[j].Legal? <==> EntryError(heap, entries[j].1).None?
    {
      VerdictAt(heap, entries, j);
    }
  }

  /** The blueprint of every name of a section. */
  function Blueprints(heap: Heap, entries: seq<(string, Value)>): map<string, Registry.Blueprint>
    requires EntriesIn(heap, entries)
  {
    Registry.PlanUpTo(Keys(entries), Verdicts(heap, entries), |entries|)
  }

  /** `AbstractBaseAppender` of the test of src/index.ts. */
  const TestBase := Callable("AbstractBaseAppender", ClassDeclaration("AbstractBaseAppender"), true, None, "", None)

  /** `ErrorThrowingAppender` of the test of src/index.ts: its constructor throws. */
  const TestClass := Callable("ErrorThrowingAppender", ClassDeclaration("ErrorThrowingAppender extends AbstractBaseAppender"),
                              true, Some(TestBase), "", Some("Error: Something was wrong"))

  /** The configuration object of that test: the class and two more keys. */
  const TestLevel := [("class", DataProperty(Fn(TestClass))), ("someKey", DataProperty(Num(100))),
                      ("otherKey", DataProperty(Str("Hallo Welt")))]

  /** The heap holding that configuration as object 0. */
  const TestHeap: Heap := map[0 := ObjectNode([TestLevel])]

  /** The string form of a class with the given header and an elided body. */
  function ClassDeclaration(header: string): string {
    "class " + header + " { }"
  }

  /** The string form of a class declaration is that of a class. */
  lemma ClassSource(header: string)
    ensures StartsWith(ClassDeclaration(header), "class ")
  {
    assert ClassDeclaration(header) == "class " + (header + " { }");
    assert ("class " + (header + " { }"))[..|"class "|] == "class ";
  }

  /** The test configuration reads as its three entries, and its class throws on construction. */
  lemma TestConfigEntries()
    ensures OwnEntries(TestHeap, Ref(0)) == TestEntries
    ensures EntryError(TestHeap, Ref(0)) == Some(Registry.ConstructorThrew("Error: Something was wrong"))
  {
    assert Get(TestHeap, Ref(0), "class") == Fn(TestClass) by {
      assert ChainEntries([TestLevel]) == LevelEntries(TestLevel) + ChainEntries([]);
      assert LevelEntries(TestLevel)[0] == ("class", Fn(TestClass));
    }
    ClassSource("ErrorThrowingAppender extends AbstractBaseAppender");
  }

  /** The class hierarchy of the test class: the class, then the class it extends. */
  lemma TestHierarchy()
    ensures ClassHierarchy(Fn(TestClass)) == "[class " + "ErrorThrowingAppender" + " extends " + "AbstractBaseAppender" + "]"
  {
    ClassSource("ErrorThrowingAppender extends AbstractBaseAppender");
    ClassSource("AbstractBaseAppender");
    HierarchyOfSubclass(TestClass);
    assert Chain(TestBase) == ["AbstractBaseAppender"];
  }

  /** The entries of the test configuration, as `Object.entries` lists them. */
  const TestEntries := [("class", Fn(TestClass)), ("someKey", Num(100)), ("otherKey", Str("Hallo Welt"))]

  /** The 'class' property of the test configuration is written as its class hierarchy. */
  lemma TestClassText(oj: Id -> Option<string>)
    ensures PropertyText(TestEntries[0], oj) == Some("class" + ": " + ClassHierarchy(Fn(TestClass)))
  {
  }

  /** The number property of the test configuration is written in decimal. */
  lemma TestNumberText(oj: Id -> Option<string>)
    ensures PropertyText(TestEntries[1], oj) == Some("someKey" + ": " + "100")
  {
    assert IntToString(100) == "100" by {
      assert NatToString(100) == NatToString(10) + [Digit(0)];
      assert NatToString(10) == NatToString(1) + [Digit(0)];
    }
  }

  /** The string property of the test configuration is written quoted. */
  lemma TestStringText(oj: Id -> Option<string>)
    ensures PropertyText(TestEntries[2], oj) == Some("otherKey" + ": " + ("\"" + "Hallo Welt" + "\""))
  {
    JsonCharsPlain("Hallo Welt");
  }

  /** The property texts of the test configuration, in entry order. */
  lemma TestTexts(oj: Id -> Option<string>)
    ensures PropertyTexts(TestEntries, oj) ==
      Some(["class" + ": " + ClassHierarchy(Fn(TestClass)), "someKey" + ": " + "100",
            "otherKey" + ": " + ("\"" + "Hallo Welt" + "\"")])
  {
    var e := TestEntries;
    var t0 := "class" + ": " + ClassHierarchy(Fn(TestClass));
    var t1 := "someKey" + ": " + "100";
    var t2 := "otherKey" + ": " + ("\"" + "Hallo Welt" + "\"");
    TestClassText(oj);
    TestNumberText(oj);
    TestStringText(oj);
    assert PropertyTexts(e[..1], oj) == Some([t0]) by {
      assert e[..1][..0] == [] && e[..1][0] == e[0];
      assert PropertyTexts([], oj) == Some([]);
      assert [] + [t0] == [t0];
    }
    assert PropertyTexts(e[..2], oj) == Some([t0, t1]) by {
      assert e[..2][..1] == e[..1] && e[..2][1] == e[1];
      assert [t0] + [t1] == [t0, t1];
    }
    assert PropertyTexts(e, oj) == Some([t0, t1, t2]) by {
      assert e[..2] == e[..|e| - 1] && e[|e| - 1] == e[2];
      assert [t0, t1] + [t2] == [t0, t1, t2];
    }
  }

  /**
   * The test of src/index.ts: an appender class whose constructor throws,
   * with two more keys.  The message lists the class hierarchy and the JSON
   * text of the other values, separated by ', ' in braces, then the thrown
   * error.
   */
  lemma ErrorMessageExample(oj: Id -> Option<string>)
    ensures EntryError(TestHeap, Ref(0)) == Some(Registry.ConstructorThrew("Error: Something was wrong"))
    ensures ErrorMessage(TestHeap, Ref(0), Registry.ConstructorThrew("Error: Something was wrong"), oj) ==
      ConfigRejected("illegal appender config " +
                     ("{" + (("class" + ": " + ("[class " + "ErrorThrowingAppender" + " extends " + "AbstractBaseAppender" + "]")) +
                             ", " + (("someKey" + ": " + "100") +
                             ", " + ("otherKey" + ": " + ("\"" + "Hallo Welt" + "\"")))) + "}") +
                     ", error: " + "Error: Something was wrong")
  {
    TestConfigEntries();
    TestHierarchy();
    TestTexts(oj);
    var texts := ["class" + ": " + ClassHierarchy(Fn(TestClass)), "someKey" + ": " + "100",
                  "otherKey" + ": " + ("\"" + "Hallo Welt" + "\"")];
    assert Join(texts, ", ") == texts[0] + ", " + (texts[1] + ", " + texts[2]) by {
      assert texts[1..][1..] == [texts[2]];
      assert Join(texts[1..][1..], ", ") == texts[2];
      assert Join(texts[1..], ", ") == texts[1] + ", " + texts[2];
    }
  }

  // ---------------------------------------------------------------- loggers

  /** `n` is the name `key` or the name of one of the loggers above it, the root '' included. */
  ghost predicate Above(n: string, key: string)
    decreases |key|
  {
    n == key || (key != "" && Above(n, Registry.ParentName(key)))
  }

  /** The loggers above a name are no longer than the name. */
  lemma {:induction false} AboveShorter(n: string, key: string)
    requires Above(n, key)
    ensures |n| <= |key|
    decreases |key|
  {
    if n != key {
      AboveShorter(n, Registry.ParentName(key));
    }
  }

  /**
   * The tree of loggers: the root '' without a parent, and every registered
   * logger under its own name, never '', linked to the logger of its parent
   * name, which is the root when that name is ''.
   */
  ghost predicate Tree(root: Logger, m: map<string, Logger>) {
    root.name == "" && root.parent == null && root.Linked() && "" !in m &&
    (forall n :: n in m ==> m[n].name == n && m[n].Linked()) &&
    forall n {:trigger Registry.ParentName(n)} :: n in m ==>
      if Registry.ParentName(n) == "" then m[n].parent == root else Registry.ParentName(n) in m && m[n].parent == m[Registry.ParentName(n)]
  }

  /** Registering a new logger linked to the logger of its parent name keeps the tree. */
  lemma Register(root: Logger, m: map<string, Logger>, key: string, l: Logger)
    requires Tree(root, m) && key !in m && key != ""
    requires l.name == key && l.Linked()
    requires Registry.ParentName(key) == "" ==> l.parent == root
    requires Registry.ParentName(key) != "" ==> Registry.ParentName(key) in m && l.parent == m[Registry.ParentName(key)]
    ensures Tree(root, m[key := l])
  {
    var m2 := m[key := l];
    forall n | n in m2
      ensures m2[n].name == n && m2[n].Linked()
      ensures if Registry.ParentName(n) == "" then m2[n].parent == root else Registry.ParentName(n) in m2 && m2[n].parent == m2[Registry.ParentName(n)]
    {
      if n != key && Registry.ParentName(n) != "" {
        assert Registry.ParentName(n) in m;
        assert Registry.ParentName(n) != key;
      }
    }
  }

  /** The loggers and the appenders of src/index.ts. */
  class LegacyRegistry {
    /** `ROOT`. */
    const root: Logger
    /** `LoggerRegistry`: every logger but the root. */
    var loggers: map<string, Logger>
    /** `AppenderRegistry`. */
    var appenders: map<string, Appender>

    /** The loggers form the tree and every appender record is well formed. */
    ghost predicate Valid()
      reads this`loggers, loggers.Values`appender, root`appender
    {
      Tree(root, loggers) && root.Valid() && forall n :: n in loggers ==> loggers[n].Valid()
    }

    /** The appender record of every logger by name, the root under ''. */
    ghost function Records(): (r: map<string, Registry.AppenderRecord>)
      reads this`loggers, loggers.Values`appender, root`appender
      ensures r.Keys == loggers.Keys + {""}
    {
      map n | n in loggers.Keys + {""} :: if n in loggers then loggers[n].appender else root.appender
    }

    /**
     * The module's start-up code: the root logger at INFO, a console
     * appender (an instance of `console`) registered as 'CONSOLE' and added
     * to the root, no other logger.
     */
    constructor(console: Callable)
      ensures Valid() && fresh(root) && loggers == map[]
      ensures root.level == INFO && root.appender == [(CONSOLE, Appender(console, None, []))]
      ensures appenders == map[CONSOLE := Appender(console, None, [])]
    {
      root := new Logger("", null, Some(INFO));
      loggers := map[];
      appenders := map[CONSOLE := Appender(console, None, [])];
      new;
      var _ := root.AddAppender(CONSOLE, appenders[CONSOLE], false);
    }

    /**
     * `useLogger(name)`: the root for '', else the registered logger of the
     * name, created with every missing logger above it; a new logger has no
     * appenders and takes its parent's level.  Existing loggers are not touched.
     */
    method UseLogger(name: string) returns (logger: Logger)
      requires Valid()
      modifies this`loggers
      ensures Valid() && appenders == old(appenders)
      ensures name == "" ==> logger == root && loggers == old(loggers)
      ensures name != "" ==> name in loggers && logger == loggers[name]
      ensures forall n :: n in old(loggers) ==> n in loggers && loggers[n] == old(loggers[n])
      ensures name in old(loggers) ==> loggers == old(loggers)
      ensures forall n :: n in loggers && n !in old(loggers) ==>
        Above(n, name) && fresh(loggers[n]) && loggers[n].appender == [] &&
        loggers[n].parent != null && loggers[n].level == loggers[n].parent.level
      decreases |name|
    {
      if name == "" {
        return root;
      }
      if name in loggers {
        return loggers[name];
      }
      var parentName := Registry.ParentName(name);
      var parent := UseLogger(parentName);
      forall n | n in loggers && n !in old(loggers)
        ensures n != name
      {
        AboveShorter(n, parentName);
      }
      logger := new Logger(name, parent, None);
      Register(root, loggers, name, logger);
      loggers := loggers[name := logger];
    }

    /** Every logger holding an appender called `name`, the root first, gets `instance` in its place. */
    method ReplaceEverywhere(name: string, instance: Appender)
      requires Valid()
      modifies root`appender, loggers.Values`appender
      ensures Valid() && Records() == Registry.ReplaceAll(old(Records()), name, instance)
    {
      ghost var init := Records();
      Registry.Registry.ReplaceInLogger(root, name, instance);
      var todo := loggers.Keys;
      while todo != {}
        invariant todo <= loggers.Keys
        invariant root.Valid() && root.appender == Registry.ReplaceIn(init[""], name, instance)
        invariant forall n :: n in loggers ==> loggers[n].Valid()
        invariant forall n :: n in loggers ==>
          loggers[n].appender == if n in todo then init[n] else Registry.ReplaceIn(init[n], name, instance)
        decreases todo
      {
        var k :| k in todo;
        var logger := loggers[k];
        assert forall n :: n in loggers && n != k ==> loggers[n] != logger;
        label L:
        Registry.Registry.ReplaceInLogger(logger, name, instance);
        assert unchanged@L(root);
        forall n | n in loggers && n != k
          ensures loggers[n].appender == old@L(loggers[n].appender)
        {
          assert loggers[n] != logger;
        }
        todo := todo - {k};
      }
      Registry.ReplaceAllPointwise(init, Records(), name, instance);
    }

    /** Registers a built instance under `name`: when the name is already configured, every holder of it gets the new instance first. */
    method Install(name: string, instance: Appender)
      requires Valid()
      modifies this`appenders, root`appender, loggers.Values`appender
      ensures Valid() && loggers == old(loggers) && appenders == old(appenders)[name := instance]
      ensures Records() == if name in old(appenders) then Registry.ReplaceAll(old(Records()), name, instance) else old(Records())
    {
      if name in appenders {
        ReplaceEverywhere(name, instance);
      }
      ghost var recs := Records();
      label before:
      appenders := appenders[name := instance];
      assert unchanged@before(root, loggers.Values);
      assert Records() == recs;
    }

    /**
     * The instance one entry builds: an object of the configured class to
     * which every entry but 'class' is assigned.  An illegal configuration
     * gives its error instead.
     */
    method BuildAppender(cfg: Value, heap: Heap) returns (r: Result<Appender, Registry.ConfigError>)
      requires ValueIn(heap, cfg)
      ensures r.Failure? <==> EntryError(heap, cfg).Some?
      ensures r.Failure? ==> r.error == EntryError(heap, cfg).value
      ensures r.Success? ==> Registry.Matches(r.value, BlueprintOf(heap, cfg))
      ensures r.Failure? ==> Judge(heap, cfg) == Registry.Illegal(r.error)
      ensures r.Success? ==> Judge(heap, cfg) == Registry.Legal(BlueprintOf(heap, cfg))
    {
      if !IsAppenderConfig(heap, cfg, "class") {
        return Failure(Registry.NotAnAppender);
      }
      var cls := Get(heap, cfg, "class").f;
      if cls.constructError.Some? {
        return Failure(Registry.ConstructorThrew(cls.constructError.value));
      }
      var level, props := AssignEntries(OwnEntries(heap, cfg));
      r := Success(Appender(cls, level, props));
    }

    /**
     * One entry of the appender section: the built instance replaces the
     * appender of the same name in the root and in every registered logger
     * when the name is configured, and the registry maps the name to it.
     */
    method ConfigureAppenderEntry(name: string, cfg: Value, heap: Heap) returns (r: Result<Appender, Registry.ConfigError>)
      requires Valid() && ValueIn(heap, cfg)
      modifies this`appenders, root`appender, loggers.Values`appender
      ensures Valid() && loggers == old(loggers)
      ensures r.Failure? ==> Judge(heap, cfg) == Registry.Illegal(r.error) && appenders == old(appenders)
      ensures r.Success? ==> Judge(heap, cfg).Legal? && Registry.Matches(r.value, Judge(heap, cfg).bp) &&
                             appenders == old(appenders)[name := r.value]
      ensures r.Failure? ==> Records() == old(Records())
      ensures r.Success? ==> Records() == if name in old(appenders) then Registry.ReplaceAll(old(Records()), name, r.value)
                                          else old(Records())
    {
      ghost var recs := Records();
      r := BuildAppender(cfg, heap);
      assert unchanged(this, root) && unchanged(loggers.Values);
      if r.Failure? {
        return;
      }
      assert Records() == recs;
      Install(name, r.value);
    }

    /** Every record of a well-formed registry has distinct keys. */
    lemma RecordsDistinct()
      requires Valid()
      ensures Registry.AllDistinct(Records())
    {
    }

    /** A tree of loggers whose records have distinct keys is well formed. */
    lemma DistinctRecordsValid()
      requires Tree(root, loggers) && Registry.AllDistinct(Records())
      ensures Valid()
    {
      assert root.Valid() by { assert Records()[""] == root.appender; }
      forall n | n in loggers
        ensures loggers[n].Valid()
      {
        assert Records()[n] == loggers[n].appender;
      }
    }

    /** Entry `i` of the section: on success, what the entries before it left extends to it. */
    method ConfigureNth(entries: seq<(string, Value)>, heap: Heap, i: nat,
                        ghost recs0: map<string, Registry.AppenderRecord>, ghost appenders0: map<string, Appender>)
      returns (r: Result<Appender, Registry.ConfigError>)
      requires Tree(root, loggers) && EntriesIn(heap, entries) && i < |entries|
      requires Registry.SoFar(recs0, Records(), appenders0, appenders, Keys(entries), Verdicts(heap, entries), i)
      modifies this`appenders, root`appender, loggers.Values`appender
      ensures loggers == old(loggers)
      ensures r.Failure? ==> Registry.FirstIllegalFrom(Verdicts(heap, entries), i) == Some(i)
      ensures r.Failure? ==> Registry.SoFar(recs0, Records(), appenders0, appenders, Keys(entries), Verdicts(heap, entries), i)
      ensures r.Success? ==> Registry.FirstIllegalFrom(Verdicts(heap, entries), i) == Registry.FirstIllegalFrom(Verdicts(heap, entries), i + 1)
      ensures r.Success? ==> Registry.SoFar(recs0, Records(), appenders0, appenders, Keys(entries), Verdicts(heap, entries), i + 1)
    {
      DistinctRecordsValid();
      ghost var recs := Records();
      ghost var before := appenders;
      VerdictAt(heap, entries, i);
      r := ConfigureAppenderEntry(entries[i].0, entries[i].1, heap);
      if r.Success? {
        Registry.SoFarStep(recs0, recs, Records(), appenders0, before, Keys(entries), Verdicts(heap, entries), i, r.value);
      }
    }

    /**
     * The entries in order from the first, until the first illegal one:
     * what the entries before the stop install extends what there was.
     */
    method ConfigureEntries(entries: seq<(string, Value)>, heap: Heap,
                            ghost recs0: map<string, Registry.AppenderRecord>, ghost appenders0: map<string, Appender>)
      returns (failed: Option<nat>)
      requires Tree(root, loggers) && EntriesIn(heap, entries)
      requires Registry.SoFar(recs0, Records(), appenders0, appenders, Keys(entries), Verdicts(heap, entries), 0)
      modifies this`appenders, root`appender, loggers.Values`appender
      ensures loggers == old(loggers)
      ensures failed == Registry.FirstIllegalFrom(Verdicts(heap, entries), 0)
      ensures failed.Some? ==> failed.value < |entries|
      ensures Registry.SoFar(recs0, Records(), appenders0, appenders, Keys(entries), Verdicts(heap, entries),
                             if failed.Some? then failed.value else |entries|)
    {
      ghost var vs := Verdicts(heap, entries);
      var i := 0;
      while i < |entries|
        invariant 0 <= i <= |entries|
        invariant loggers == old(loggers)
        invariant Registry.FirstIllegalFrom(vs, 0) == Registry.FirstIllegalFrom(vs, i)
        invariant Registry.SoFar(recs0, Records(), appenders0, appenders, Keys(entries), vs, i)
      {
        var r := ConfigureNth(entries, heap, i, recs0, appenders0);
        if r.Failure? {
          return Some(i);
        }
        i := i + 1;
      }
      return None;
    }

    /**
     * The appender section of `configureLogging`: the entries in order; the
     * first illegal one stops the section.  Afterwards the registry holds
     * every configured name with an instance of its last entry, every holder
     * of a name that was configured before holds the new instance, and every
     * logger holds the same names as before.
     */
    method ConfigureAppenderSection(entries: seq<(string, Value)>, heap: Heap) returns (failed: Option<nat>)
      requires Valid() && EntriesIn(heap, entries)
      modifies this`appenders, root`appender, loggers.Values`appender
      ensures Valid() && loggers == old(loggers)
      ensures failed == FirstIllegal(heap, entries)
      ensures Registry.KeptAll(old(Records()), Records(), Keys(entries))
      ensures failed.None? ==> Registry.Configured(appenders, old(appenders), Blueprints(heap, entries))
      ensures failed.None? ==> Registry.Propagated(Records(), appenders, Registry.Reconfigured(Keys(entries), old(appenders).Keys))
      ensures failed.Some? ==> failed.value < |entries|
      ensures failed.Some? ==> Registry.Configured(appenders, old(appenders),
                                 Registry.PlanUpTo(Keys(entries), Verdicts(heap, entries), failed.value))
      ensures failed.Some? ==> Registry.KeptAll(old(Records()), Records(), Keys(entries)[..failed.value])
      ensures failed.Some? ==> Registry.Propagated(Records(), appenders,
                                 Registry.Reconfigured(Keys(entries)[..failed.value], old(appenders).Keys))
      ensures failed.Some? ==>
        Registry.SoFar(old(Records()), Records(), old(appenders), appenders, Keys(entries), Verdicts(heap, entries), failed.value)
      ensures root.level == old(root.level) && forall n :: n in loggers ==> loggers[n].level == old(loggers[n].level)
    {
      ghost var names := Keys(entries);
      ghost var vs := Verdicts(heap, entries);
      ghost var recs0 := Records();
      RecordsDistinct();
      Registry.SoFarStart(recs0, appenders, names, vs);
      failed := ConfigureEntries(entries, heap, recs0, appenders);
      DistinctRecordsValid();
      if failed.Some? {
        Registry.SoFarStopped(recs0, Records(), old(appenders), appenders, names, vs, failed.value);
      } else {
        Registry.SoFarDone(recs0, Records(), old(appenders), appenders, names, vs);
      }
    }

    /**
     * The appender section of `configureLogging` with its error: the first
     * illegal entry raises the error its message gives, after the entries
     * before it were installed.
     */
    method ConfigureAppenders(entries: seq<(string, Value)>, heap: Heap, objectJson: Id -> Option<string>)
      returns (raised: Option<Raised>)
      requires Valid() && EntriesIn(heap, entries)
      modifies this`appenders, root`appender, loggers.Values`appender
      ensures Valid() && loggers == old(loggers)
      ensures root.level == old(root.level) && forall n :: n in loggers ==> loggers[n].level == old(loggers[n].level)
      ensures raised.Some? <==> FirstIllegal(heap, entries).Some?
      ensures Registry.KeptAll(old(Records()), Records(), Keys(entries))
      ensures raised.Some? ==>
        var i := FirstIllegal(heap, entries).value;
        i < |entries| && EntryError(heap, entries[i].1).Some? &&
        raised.value == ErrorMessage(heap, entries[i].1, EntryError(heap, entries[i].1).value, objectJson) &&
        Registry.Configured(appenders, old(appenders), Registry.PlanUpTo(Keys(entries), Verdicts(heap, entries), i)) &&
        Registry.SoFar(old(Records()), Records(), old(appenders), appenders, Keys(entries), Verdicts(heap, entries), i)
      ensures raised.None? ==>
        Registry.Configured(appenders, old(appenders), Blueprints(heap, entries)) &&
        Registry.Propagated(Records(), appenders, Registry.Reconfigured(Keys(entries), old(appenders).Keys))
    {
      var failed := ConfigureAppenderSection(entries, heap);
      if failed.Some? {
        var i := failed.value;
        FirstIllegalIsFirst(heap, entries);
        var e := EntryError(heap, entries[i].1).value;
        return Some(ErrorMessage(heap, entries[i].1, e, objectJson));
      }
      return None;
    }

    /**
     * `configureLogging(config)`: the appender section; an illegal entry
     * stops it with the error its message raises, the entries before it
     * staying configured.  The root and logger sections change nothing: no
     * logger is created and no level changes.
     */
    method ConfigureLogging(config: Registry.LoggingConfig, heap: Heap, objectJson: Id -> Option<string>)
      returns (raised: Option<Raised>)
      requires Valid()
      requires config.appender.Some? ==> EntriesIn(heap, config.appender.value) && Registry.ConfigsPresent(config.appender.value)
      modifies this`appenders, root`appender, loggers.Values`appender
      ensures Valid() && loggers == old(loggers)
      ensures root.level == old(root.level) && forall n :: n in loggers ==> loggers[n].level == old(loggers[n].level)
      ensures raised.Some? <==> config.appender.Some? && FirstIllegal(heap, config.appender.value).Some?
      ensures raised.Some? ==>
        var entries := config.appender.value;
        var i := FirstIllegal(heap, entries).value;
        i < |entries| && EntryError(heap, entries[i].1).Some? &&
        raised.value == ErrorMessage(heap, entries[i].1, EntryError(heap, entries[i].1).value, objectJson) &&
        Registry.KeptAll(old(Records()), Records(), Keys(entries)) &&
        Registry.Configured(appenders, old(appenders), Registry.PlanUpTo(Keys(entries), Verdicts(heap, entries), i)) &&
        Registry.SoFar(old(Records()), Records(), old(appenders), appenders, Keys(entries), Verdicts(heap, entries), i)
      ensures raised.None? && config.appender.Some? ==>
        var entries := config.appender.value;
        Registry.Configured(appenders, old(appenders), Blueprints(heap, entries)) &&
        Registry.KeptAll(old(Records()), Records(), Keys(entries)) &&
        Registry.Propagated(Records(), appenders, Registry.Reconfigured(Keys(entries), old(appenders).Keys))
      ensures config.appender.None? ==> raised.None? && appenders == old(appenders) && Records() == old(Records())
    {
      if config.appender.Some? {
        raised := ConfigureAppenders(config.appender.value, heap, objectJson);
      } else {
        raised := None;
      }
    }
  }
}
