/**
 * The module state of lib/index.ts: the registry of loggers by name, the
 * registry of configured appenders, and the operations that fill them:
 * `useLog`, `configureAppender` and `configureLogging`.  The two registries
 * are the fields of a `Registry` object.  Messages the library only writes
 * to its own `bit.log` logger at debug level are left out; the warnings of
 * `configureAppender` are returned.
 */
module Registry {
  import opened Wrappers
  import opened Text
  import opened Values
  import opened Definitions
  import opened Records
  import opened Formatter
  import opened Logging

  /** The name of the parent: the text before the last '.', or '' without a '.'. */
  function ParentName(name: string): (r: string)
    ensures name != "" ==> |r| < |name|
    ensures LastIndexOf(name, '.') >= 0 ==> r == name[..LastIndexOf(name, '.')]
    ensures LastIndexOf(name, '.') == -1 ==> r == ""
  {
    var i := LastIndexOf(name, '.');
    if i == -1 then "" else name[..i]
  }

  /** The registry key a name stands for: 'root' is another name of the root logger ''. */
  function Canonical(name: string): (r: string)
    ensures r != "root" && |r| <= |name|
    ensures name != "root" ==> r == name
  {
    if name == "root" then "" else name
  }

  /** The registry key of a logger's parent. */
  function ParentKey(key: string): (r: string)
    ensures key != "" ==> |r| < |key|
    ensures r != "root"
  {
    Canonical(ParentName(key))
  }

  /** `n` is the key `key` or the key of one of the loggers above it. */
  ghost predicate OnPath(n: string, key: string)
    decreases |key|
  {
    n == key || (key != "" && OnPath(n, ParentKey(key)))
  }

  /** The loggers on a key's path are no longer than the key. */
  lemma {:induction false} OnPathShorter(n: string, key: string)
    requires OnPath(n, key)
    ensures |n| <= |key|
    decreases |key|
  {
    if n != key {
      OnPathShorter(n, ParentKey(key));
    }
  }

  /** The name a message uses for a logger: `logger.name || 'ROOT'`. */
  function LoggerLabel(name: string): string {
    if name == "" then "ROOT" else name
  }

  /** The warning for a listed appender name that is not configured. */
  function NotConfiguredWarning(appenderName: string, who: string): string {
    "Appender named '" + appenderName + "' is not configured. Can't be used in logger '" + who + "'"
  }

  /** The warnings `configureAppender` logs for a list: one per unknown name, in list order. */
  function NotConfiguredWarnings(names: seq<string>, known: set<string>, who: string): (ws: seq<string>)
    ensures |ws| <= |names|
    ensures forall w :: w in ws ==> exists n :: n in names && n !in known && w == NotConfiguredWarning(n, who)
  {
    if |names| == 0 then []
    else
      var n := names[|names| - 1];
      NotConfiguredWarnings(names[..|names| - 1], known, who) +
      (if n in known then [] else [NotConfiguredWarning(n, who)])
  }

  /** A listed name every appender of which is configured gives no warning. */
  lemma {:induction false} AllConfiguredNoWarnings(names: seq<string>, known: set<string>, who: string)
    requires forall i :: 0 <= i < |names| ==> names[i] in known
    ensures NotConfiguredWarnings(names, known, who) == []
  {
    if |names| > 0 {
      AllConfiguredNoWarnings(names[..|names| - 1], known, who);
    }
  }

  /** The level a configuration value stands for: a number, or the value of a level name. */
  function ConfigLevel(v: Value): (r: Option<int>)
    ensures v.Num? ==> r == Some(v.n)
    ensures v.Str? ==> r == ToLogLevel(Some(Named(v.s)))
    ensures !v.Num? && !v.Str? ==> r.None?
  {
    match v
    case Num(n) => Some(n)
    case Str(s) => LookupName(s)
    case _ => None
  }

  /** Whether the configuration copies an entry onto the new appender instance. */
  predicate Copied(entry: (string, Value)) {
    entry.0 != "class" && entry.0 != "level" && IsPresent(entry.1)
  }

  /** The properties the entry loop sets: every copied entry in turn, a later one overwriting an earlier one. */
  function CopyProps(entries: seq<(string, Value)>): (props: seq<(string, Value)>)
    ensures forall i :: 0 <= i < |props| ==> props[i] in entries && Copied(props[i])
  {
    if |entries| == 0 then []
    else
      var last := entries[|entries| - 1];
      var front := CopyProps(entries[..|entries| - 1]);
      assert forall e :: e in entries[..|entries| - 1] ==> e in entries;
      if Copied(last) then Put(front, last.0, last.1) else front
  }

  /**
   * The copied properties have distinct keys, and a key is set exactly when
   * some entry of that key is copied; 'level' and 'class' never are.
   */
  lemma {:induction false} CopyPropsKeys(entries: seq<(string, Value)>)
    ensures Distinct(Keys(CopyProps(entries)))
    ensures forall k :: k in Keys(CopyProps(entries)) <==> exists i :: 0 <= i < |entries| && entries[i].0 == k && Copied(entries[i])
  {
    if |entries| > 0 {
      var front := entries[..|entries| - 1];
      var last := entries[|entries| - 1];
      CopyPropsKeys(front);
      if Copied(last) {
        PutKeys(CopyProps(front), last.0, last.1);
        PutDistinct(CopyProps(front), last.0, last.1);
      }
      forall k
        ensures k in Keys(CopyProps(entries)) <==> exists i :: 0 <= i < |entries| && entries[i].0 == k && Copied(entries[i])
      {
        if exists i :: 0 <= i < |entries| && entries[i].0 == k && Copied(entries[i]) {
          var i :| 0 <= i < |entries| && entries[i].0 == k && Copied(entries[i]);
          if i < |front| {
            assert front[i] == entries[i];
          }
        }
        if exists i :: 0 <= i < |front| && front[i].0 == k && Copied(front[i]) {
          var i :| 0 <= i < |front| && front[i].0 == k && Copied(front[i]);
          assert entries[i] == front[i];
        }
      }
    }
  }

  /** A record of named appenders (`logger.appender`). */
  type AppenderRecord = seq<(string, Appender)>

  /**
   * The first loop of `configureAppender`: each listed name that is
   * configured and not yet a key is added with the configured instance.
   */
  function AddListed(rec: AppenderRecord, names: seq<string>, known: map<string, Appender>): (r: AppenderRecord)
    ensures forall i :: 0 <= i < |r| ==> r[i] in rec || (r[i].0 in names && r[i].0 in known && r[i].1 == known[r[i].0])
  {
    if |names| == 0 then rec
    else
      var n := names[|names| - 1];
      var front := AddListed(rec, names[..|names| - 1], known);
      assert forall x :: x in names[..|names| - 1] ==> x in names;
      if n in known && n !in Keys(front) then Put(front, n, known[n]) else front
  }

  /** The first loop keeps every key with its instance and adds the listed configured names with theirs. */
  lemma {:induction false} AddListedFacts(rec: AppenderRecord, names: seq<string>, known: map<string, Appender>)
    requires Distinct(Keys(rec))
    ensures Distinct(Keys(AddListed(rec, names, known)))
    ensures forall k :: k in Keys(AddListed(rec, names, known)) <==> k in Keys(rec) || (k in names && k in known)
    ensures forall k :: k in Keys(rec) ==> Lookup(AddListed(rec, names, known), k) == Lookup(rec, k)
    ensures forall k :: k in Keys(AddListed(rec, names, known)) && k !in Keys(rec) ==>
      Lookup(AddListed(rec, names, known), k) == Some(known[k])
  {
    if |names| > 0 {
      var front := names[..|names| - 1];
      var n := names[|names| - 1];
      AddListedFacts(rec, front, known);
      assert names == front + [n];
      AddOneKeys(rec, AddListed(rec, front, known), AddListed(rec, names, known), front, n, known);
      AddOneLookups(rec, AddListed(rec, front, known), AddListed(rec, names, known), n, known);
    }
  }

  /** One more listed name keeps what `AddListedFacts` states of the keys. */
  lemma AddOneKeys(rec: AppenderRecord, f: AppenderRecord, g: AppenderRecord, front: seq<string>, n: string,
                   known: map<string, Appender>)
    requires Distinct(Keys(f))
    requires forall k :: k in Keys(f) <==> k in Keys(rec) || (k in front && k in known)
    requires g == if n in known && n !in Keys(f) then Put(f, n, known[n]) else f
    ensures Distinct(Keys(g))
    ensures forall k :: k in Keys(g) <==> k in Keys(rec) || (k in front + [n] && k in known)
  {
    assert forall k :: k in front + [n] <==> k in front || k == n;
    if n in known && n !in Keys(f) {
      PutKeys(f, n, known[n]);
      PutDistinct(f, n, known[n]);
    }
  }

  /** One more listed name keeps what `AddListedFacts` states of the instances. */
  lemma AddOneLookups(rec: AppenderRecord, f: AppenderRecord, g: AppenderRecord, n: string, known: map<string, Appender>)
    requires forall k :: k in Keys(rec) ==> k in Keys(f) && Lookup(f, k) == Lookup(rec, k)
    requires forall k :: k in Keys(f) && k !in Keys(rec) ==> k in known && Lookup(f, k) == Some(known[k])
    requires g == if n in known && n !in Keys(f) then Put(f, n, known[n]) else f
    ensures forall k :: k in Keys(rec) ==> Lookup(g, k) == Lookup(rec, k)
    ensures forall k :: k in Keys(g) && k !in Keys(rec) ==> k in known && Lookup(g, k) == Some(known[k])
  {
    if n in known && n !in Keys(f) {
      PutKeys(f, n, known[n]);
      PutLookupOthers(f, n, known[n]);
      forall k | k in Keys(g) && k !in Keys(rec)
        ensures k in known && Lookup(g, k) == Some(known[k])
      {
        if k != n {
          assert k in Keys(f);
        }
      }
    }
  }

  /** The keys of `ks` that are not listed, in order: those the second loop deletes. */
  function Unlisted(ks: seq<string>, names: seq<string>): (r: seq<string>)
    ensures forall k :: k in r <==> k in ks && k !in names
  {
    if |ks| == 0 then []
    else
      var front := Unlisted(ks[..|ks| - 1], names);
      assert forall k :: k in ks <==> k in ks[..|ks| - 1] || k == ks[|ks| - 1];
      if ks[|ks| - 1] in names then front else front + [ks[|ks| - 1]]
  }

  /** The appender record `configureAppender` leaves: add the listed, delete the unlisted; no list deletes all. */
  function Reconciled(rec: AppenderRecord, names: Option<seq<string>>, known: map<string, Appender>): (r: AppenderRecord)
    ensures forall i :: 0 <= i < |r| ==>
      r[i] in rec || (names.Some? && r[i].0 in names.value && r[i].0 in known && r[i].1 == known[r[i].0])
  {
    match names
    case None => RemoveAll(rec, Keys(rec))
    case Some(l) =>
      var added := AddListed(rec, l, known);
      RemoveAll(added, Unlisted(Keys(added), l))
  }

  /**
   * After `configureAppender(logger, list)` the keys are exactly the listed
   * names that were keys or are configured; a key that was there keeps its
   * instance, a new one has the configured instance; without a list the
   * record is empty.
   */
  lemma ReconciledFacts(rec: AppenderRecord, names: Option<seq<string>>, known: map<string, Appender>)
    requires Distinct(Keys(rec))
    ensures Distinct(Keys(Reconciled(rec, names, known)))
    ensures names.None? ==> Reconciled(rec, names, known) == []
    ensures names.Some? ==> forall k :: k in Keys(Reconciled(rec, names, known)) <==>
      k in names.value && (k in Keys(rec) || k in known)
    ensures forall k :: k in Keys(Reconciled(rec, names, known)) && k in Keys(rec) ==>
      Lookup(Reconciled(rec, names, known), k) == Lookup(rec, k)
    ensures forall k :: k in Keys(Reconciled(rec, names, known)) && k !in Keys(rec) ==>
      Lookup(Reconciled(rec, names, known), k) == Some(known[k])
  {
    match names
    case None =>
      RemoveAllKeys(rec);
    case Some(l) =>
      var added := AddListed(rec, l, known);
      AddListedFacts(rec, l, known);
      RemoveAllFacts(added, Unlisted(Keys(added), l));
  }

  /** The replacement step of `configureLogging`: a logger holding the name gets the new instance. */
  function ReplaceIn(rec: AppenderRecord, name: string, instance: Appender): (r: AppenderRecord)
    ensures name !in Keys(rec) ==> r == rec
    ensures Keys(r) == Keys(rec)
  {
    if name in Keys(rec) then PutKeys(rec, name, instance); Put(rec, name, instance) else rec
  }

  /** Replacing keeps the keys and every other key's instance, and maps a held name to the new instance. */
  lemma ReplaceInFacts(rec: AppenderRecord, name: string, instance: Appender)
    requires Distinct(Keys(rec))
    ensures Distinct(Keys(ReplaceIn(rec, name, instance)))
    ensures name in Keys(rec) ==> Lookup(ReplaceIn(rec, name, instance), name) == Some(instance)
    ensures forall k :: k != name ==> Lookup(ReplaceIn(rec, name, instance), k) == Lookup(rec, k)
  {
    if name in Keys(rec) {
      PutKeys(rec, name, instance);
      PutLookupOthers(rec, name, instance);
    }
  }

  /** The text every configuration error starts with. */
  const IllegalConfig := "illegal appender config "

  /** Why an appender configuration is illegal: it has no constructible `Class`, or the constructor throws `thrown`. */
  datatype ConfigError = NotAnAppender | ConstructorThrew(thrown: string)

  /** Why the configuration `cfg` is illegal; None when its class constructs an instance. */
  function EntryError(heap: Heap, cfg: Value): (r: Option<ConfigError>)
    requires ValueIn(heap, cfg)
    ensures r.None? <==> IsAppenderConfig(heap, cfg, "Class") && Get(heap, cfg, "Class").f.constructError.None?
    ensures r == Some(NotAnAppender) <==> !IsAppenderConfig(heap, cfg, "Class")
  {
    if !IsAppenderConfig(heap, cfg, "Class") then Some(NotAnAppender)
    else match Get(heap, cfg, "Class").f.constructError
      case Some(e) => Some(ConstructorThrew(e))
      case None => None
  }

  /**
   * The message of the error an illegal configuration raises: the
   * configuration through `formatAny`, and a thrown error appended.
   */
  function ErrorMessage(heap: Heap, cfg: Value, e: ConfigError): (m: string)
    requires Closed(heap) && ValueIn(heap, cfg)
    ensures StartsWith(m, IllegalConfig + FormatValue(heap, cfg, false, false))
    ensures e.NotAnAppender? ==> m == IllegalConfig + FormatValue(heap, cfg, false, false)
    ensures e.ConstructorThrew? ==> EndsWith(m, ", error: " + e.thrown)
  {
    var head := IllegalConfig + FormatValue(heap, cfg, false, false);
    match e
    case NotAnAppender => head
    case ConstructorThrew(t) =>
      var m := head + ", error: " + t;
      assert m[..|head|] == head;
      assert m[|m| - |", error: " + t|..] == ", error: " + t;
      m
  }

  /**
   * Every appender configuration is present: reading `Class` of null or
   * undefined throws a TypeError before any check, and the configuration
   * type rules both out.
   */
  predicate ConfigsPresent(entries: seq<(string, Value)>) {
    forall i :: 0 <= i < |entries| ==> IsPresent(entries[i].1)
  }

  /** The value of the last entry called `k`: in a JavaScript object a later entry wins. */
  function Latest(entries: seq<(string, Value)>, k: string): (r: Option<Value>)
    ensures r.Some? <==> k in Keys(entries)
    ensures r.Some? ==> (k, r.value) in entries
  {
    if |entries| == 0 then None
    else if entries[|entries| - 1].0 == k then Some(entries[|entries| - 1].1)
    else
      assert Keys(entries) == Keys(entries[..|entries| - 1]) + [entries[|entries| - 1].0];
      Latest(entries[..|entries| - 1], k)
  }

  /** What one entry of the appender section configures: the `Class` value, the level and the copied properties. */
  datatype Blueprint = Blueprint(cls: Value, level: Option<int>, props: seq<(string, Value)>)

  /** The blueprint of the configuration `cfg`. */
  function BlueprintOf(heap: Heap, cfg: Value): Blueprint
    requires ValueIn(heap, cfg)
  {
    Blueprint(Get(heap, cfg, "Class"), ConfigLevel(Get(heap, cfg, "level")), CopyProps(OwnEntries(heap, cfg)))
  }

  /** The instance is of the blueprint's class with the blueprint's level and properties. */
  predicate Matches(a: Appender, bp: Blueprint) {
    bp.cls == Fn(a.cls) && a.level == bp.level && a.props == bp.props
  }

  /** What one entry of the appender section amounts to: its error, or the blueprint of its instance. */
  datatype Verdict = Illegal(error: ConfigError) | Legal(bp: Blueprint)

  /** The verdict on the configuration `cfg`. */
  function Judge(heap: Heap, cfg: Value): Verdict
    requires ValueIn(heap, cfg)
  {
    match EntryError(heap, cfg)
    case Some(e) => Illegal(e)
    case None => Legal(BlueprintOf(heap, cfg))
  }

  /** The verdicts on the entries, in entry order. */
  function Verdicts(heap: Heap, entries: seq<(string, Value)>): (vs: seq<Verdict>)
    requires EntriesIn(heap, entries)
    ensures |vs| == |entries|
  {
    if |entries| == 0 then []
    else Verdicts(heap, entries[..|entries| - 1]) + [Judge(heap, entries[|entries| - 1].1)]
  }

  /** The verdict on each entry is the verdict on its configuration. */
  lemma {:induction false} VerdictAt(heap: Heap, entries: seq<(string, Value)>, j: nat)
    requires EntriesIn(heap, entries) && j < |entries|
    ensures Verdicts(heap, entries)[j] == Judge(heap, entries[j].1)
  {
    if j < |entries| - 1 {
      var front := entries[..|entries| - 1];
      VerdictAt(heap, front, j);
      assert front[j] == entries[j];
    }
  }

  /** The index of the first illegal verdict at or after `from`; None when all of them are legal. */
  function FirstIllegalFrom(vs: seq<Verdict>, from: nat): Option<nat>
    requires from <= |vs|
    decreases |vs| - from
  {
    if from == |vs| then None
    else if vs[from].Illegal? then Some(from)
    else FirstIllegalFrom(vs, from + 1)
  }

  /**
   * The search from `from` finds the first illegal verdict after `from`,
   * and finds nothing when every verdict after `from` is legal.
   */
  lemma {:induction false} FirstIllegalFromIsFirst(vs: seq<Verdict>, from: nat)
    requires from <= |vs|
    ensures FirstIllegalFrom(vs, from).None? <==> forall j :: from <= j < |vs| ==> vs[j].Legal?
    ensures FirstIllegalFrom(vs, from).Some? ==>
      var i := FirstIllegalFrom(vs, from).value;
      from <= i < |vs| && vs[i].Illegal? && forall j :: from <= j < i ==> vs[j].Legal?
    decreases |vs| - from
  {
    if from < |vs| && vs[from].Legal? {
      FirstIllegalFromIsFirst(vs, from + 1);
    }
  }

  /** An illegal verdict after only legal ones is the first. */
  lemma FirstIllegalAt(vs: seq<Verdict>, i: nat)
    requires i < |vs| && vs[i].Illegal? && forall j :: 0 <= j < i ==> vs[j].Legal?
    ensures FirstIllegalFrom(vs, 0) == Some(i)
  {
    FirstIllegalFromIsFirst(vs, 0);
  }

  /** The index of the first illegal entry, in entry order; None when every entry is legal. */
  function FirstIllegal(heap: Heap, entries: seq<(string, Value)>): Option<nat>
    requires EntriesIn(heap, entries)
  {
    FirstIllegalFrom(Verdicts(heap, entries), 0)
  }

  /**
   * The section fails at the first illegal entry: None exactly when every
   * entry is legal, else an illegal entry with only legal ones before it.
   */
  lemma FirstIllegalIsFirst(heap: Heap, entries: seq<(string, Value)>)
    requires EntriesIn(heap, entries)
    ensures FirstIllegal(heap, entries).None? <==> forall j :: 0 <= j < |entries| ==> EntryError(heap, entries[j].1).None?
    ensures FirstIllegal(heap, entries).Some? ==>
      var i := FirstIllegal(heap, entries).value;
      i < |entries| && EntryError(heap, entries[i].1).Some? &&
      forall j :: 0 <= j < i ==> EntryError(heap, entries[j].1).None?
  {
    var vs := Verdicts(heap, entries);
    FirstIllegalFromIsFirst(vs, 0);
    forall j | 0 <= j < |entries|
      ensures vs[j].Legal? <==> EntryError(heap, entries[j].1).None?
    {
      VerdictAt(heap, entries, j);
    }
  }

  /** The blueprint of every name among the first `i` entries; a later entry of a name replaces an earlier one. */
  function PlanUpTo(names: seq<string>, vs: seq<Verdict>, i: nat): map<string, Blueprint>
    requires |names| == |vs| && i <= |vs|
  {
    if i == 0 then map[]
    else
      var p := PlanUpTo(names, vs, i - 1);
      if vs[i - 1].Legal? then p[names[i - 1] := vs[i - 1].bp] else p
  }

  /** The blueprint of every name of a section. */
  function Blueprints(heap: Heap, entries: seq<(string, Value)>): map<string, Blueprint>
    requires EntriesIn(heap, entries)
  {
    PlanUpTo(Keys(entries), Verdicts(heap, entries), |entries|)
  }

  /** The last entry of a name after appending one more entry. */
  lemma LatestSnoc(entries: seq<(string, Value)>, e: (string, Value), k: string)
    ensures Latest(entries + [e], k) == if e.0 == k then Some(e.1) else Latest(entries, k)
  {
    assert (entries + [e])[..|entries|] == entries;
  }

  /** The position of the last of the first `i` names that is `k`. */
  function LastIndex(names: seq<string>, k: string, i: nat): (r: Option<nat>)
    requires i <= |names|
    ensures r.Some? <==> k in names[..i]
    ensures r.Some? ==> r.value < i && names[r.value] == k && forall j :: r.value < j < i ==> names[j] != k
  {
    if i == 0 then None
    else
      assert names[..i] == names[..i - 1] + [names[i - 1]];
      if names[i - 1] == k then Some(i - 1) else LastIndex(names, k, i - 1)
  }

  /** `Latest` on the first `i` entries is the value at the last position of the name. */
  lemma {:induction false} LatestIndex(entries: seq<(string, Value)>, k: string, i: nat)
    requires i <= |entries|
    ensures var r := LastIndex(Keys(entries), k, i);
      Latest(entries[..i], k) == if r.Some? then Some(entries[r.value].1) else None
  {
    if i == 0 {
      assert entries[..0] == [];
    } else {
      LatestIndex(entries, k, i - 1);
      var pre := entries[..i - 1];
      var e := entries[i - 1];
      assert entries[..i] == pre + [e];
      LatestSnoc(pre, e, k);
      assert Keys(entries)[i - 1] == e.0;
    }
  }

  /** While every verdict is legal the plan holds exactly the names of the first `i` entries. */
  lemma {:induction false} PlanKeys(names: seq<string>, vs: seq<Verdict>, i: nat)
    requires |names| == |vs| && i <= |vs|
    requires forall j :: 0 <= j < i ==> vs[j].Legal?
    ensures forall k :: k in PlanUpTo(names, vs, i) <==> k in names[..i]
  {
    if i > 0 {
      PlanKeys(names, vs, i - 1);
      assert names[..i] == names[..i - 1] + [names[i - 1]];
      var p := PlanUpTo(names, vs, i - 1);
      assert PlanUpTo(names, vs, i) == p[names[i - 1] := vs[i - 1].bp];
      forall k
        ensures k in PlanUpTo(names, vs, i) <==> k in names[..i]
      {
        assert k in names[..i] <==> k in names[..i - 1] || k == names[i - 1];
      }
    }
  }

  /** While every verdict is legal the plan gives each name the blueprint of its last entry. */
  lemma {:induction false} PlanLatest(names: seq<string>, vs: seq<Verdict>, i: nat)
    requires |names| == |vs| && i <= |vs|
    requires forall j :: 0 <= j < i ==> vs[j].Legal?
    ensures forall k :: k in names[..i] ==>
      k in PlanUpTo(names, vs, i) && PlanUpTo(names, vs, i)[k] == vs[LastIndex(names, k, i).value].bp
  {
    if i > 0 {
      PlanLatest(names, vs, i - 1);
      var p := PlanUpTo(names, vs, i - 1);
      assert PlanUpTo(names, vs, i) == p[names[i - 1] := vs[i - 1].bp];
      assert names[..i] == names[..i - 1] + [names[i - 1]];
      forall k | k in names[..i]
        ensures k in PlanUpTo(names, vs, i) && PlanUpTo(names, vs, i)[k] == vs[LastIndex(names, k, i).value].bp
      {
        if k != names[i - 1] {
          assert k in names[..i - 1];
          assert LastIndex(names, k, i) == LastIndex(names, k, i - 1);
        }
      }
    }
  }

  /** In a legal section each name gets the blueprint of its last entry, and no other name gets one. */
  lemma BlueprintsLatest(heap: Heap, entries: seq<(string, Value)>)
    requires EntriesIn(heap, entries) && FirstIllegal(heap, entries).None?
    ensures forall k :: k in Blueprints(heap, entries) <==> k in Keys(entries)
    ensures forall k :: k in Keys(entries) ==>
      Latest(entries, k).Some? && ValueIn(heap, Latest(entries, k).value) &&
      Blueprints(heap, entries)[k] == BlueprintOf(heap, Latest(entries, k).value)
  {
    FirstIllegalIsFirst(heap, entries);
    var names := Keys(entries);
    var vs := Verdicts(heap, entries);
    forall j | 0 <= j < |entries|
      ensures vs[j] == Legal(BlueprintOf(heap, entries[j].1))
    {
      VerdictAt(heap, entries, j);
    }
    PlanKeys(names, vs, |entries|);
    PlanLatest(names, vs, |entries|);
    assert names[..|entries|] == names;
    assert entries[..|entries|] == entries;
    forall k | k in names
      ensures Latest(entries, k).Some? && ValueIn(heap, Latest(entries, k).value) &&
              Blueprints(heap, entries)[k] == BlueprintOf(heap, Latest(entries, k).value)
    {
      LatestIndex(entries, k, |entries|);
    }
  }

  /** No name of `a` occurs in `b`. */
  predicate Disjoint(a: seq<string>, b: seq<string>) {
    forall j :: 0 <= j < |a| ==> a[j] !in b
  }

  /**
   * What configuring the appenders `names` leaves of a logger's record: the
   * same names, and the same record when it holds none of `names`.
   */
  predicate Kept(before: AppenderRecord, after: AppenderRecord, names: seq<string>) {
    Keys(after) == Keys(before) && (Disjoint(Keys(before), names) ==> after == before)
  }

  /** Replacing `name` leaves what configuring `name` leaves. */
  lemma ReplaceInKept(rec: AppenderRecord, name: string, instance: Appender)
    ensures Kept(rec, ReplaceIn(rec, name, instance), [name])
  {
  }

  /** Configuring fewer names leaves what configuring more names leaves. */
  lemma KeptMore(a: AppenderRecord, b: AppenderRecord, names: seq<string>, more: seq<string>)
    requires Kept(a, b, names) && forall k :: k in names ==> k in more
    ensures Kept(a, b, more)
  {
  }

  /** Configuring `names` and then `name` leaves what configuring `names + [name]` leaves. */
  lemma KeptStep(a: AppenderRecord, b: AppenderRecord, c: AppenderRecord, names: seq<string>, name: string)
    requires Kept(a, b, names) && Kept(b, c, [name])
    ensures Kept(a, c, names + [name])
  {
    if Disjoint(Keys(a), names + [name]) {
      assert Disjoint(Keys(a), names);
    }
  }

  /** Every logger keeps what configuring `names` leaves of its record; no logger comes or goes. */
  predicate KeptAll(before: map<string, AppenderRecord>, after: map<string, AppenderRecord>, names: seq<string>) {
    after.Keys == before.Keys && forall n :: n in before ==> Kept(before[n], after[n], names)
  }

  /** `ReplaceIn` on the record of every logger. */
  function ReplaceAll(recs: map<string, AppenderRecord>, name: string, instance: Appender): (r: map<string, AppenderRecord>)
    ensures KeptAll(recs, r, [name])
  {
    var r := map n | n in recs :: ReplaceIn(recs[n], name, instance);
    forall n | n in recs
      ensures Kept(recs[n], r[n], [name])
    {
      ReplaceInKept(recs[n], name, instance);
    }
    r
  }

  /** Records that each underwent the replacement are the replaced records. */
  lemma ReplaceAllPointwise(before: map<string, AppenderRecord>, after: map<string, AppenderRecord>, name: string, instance: Appender)
    requires after.Keys == before.Keys
    requires forall n :: n in before ==> after[n] == ReplaceIn(before[n], name, instance)
    ensures after == ReplaceAll(before, name, instance)
  {
  }

  /** Every record holding one of `names` that the registry configures holds the registry's instance under it. */
  predicate Propagated(recs: map<string, AppenderRecord>, appenders: map<string, Appender>, names: set<string>) {
    forall n, k :: n in recs && k in names && k in Keys(recs[n]) && k in appenders ==> Lookup(recs[n], k) == Some(appenders[k])
  }

  /** The record holds the registry's instance under each of `names` that it holds and the registry configures. */
  predicate HoldsRegistered(rec: AppenderRecord, appenders: map<string, Appender>, names: set<string>) {
    forall k :: k in names && k in Keys(rec) && k in appenders ==> Lookup(rec, k) == Some(appenders[k])
  }

  /** Every record has distinct keys. */
  predicate AllDistinct(recs: map<string, AppenderRecord>) {
    forall n :: n in recs ==> Distinct(Keys(recs[n]))
  }

  /**
   * Replacing an already configured name everywhere and registering the new
   * instance leaves every holder of the name with the registry's instance.
   */
  lemma PropagatedStep(recs: map<string, AppenderRecord>, appenders: map<string, Appender>, names: set<string>,
                       name: string, instance: Appender)
    requires Propagated(recs, appenders, names) && AllDistinct(recs)
    ensures Propagated(ReplaceAll(recs, name, instance), appenders[name := instance], names + {name})
    ensures AllDistinct(ReplaceAll(recs, name, instance))
  {
    var recs2 := ReplaceAll(recs, name, instance);
    forall n | n in recs
      ensures Distinct(Keys(recs2[n]))
      ensures Keys(recs2[n]) == Keys(recs[n])
      ensures name in Keys(recs[n]) ==> Lookup(recs2[n], name) == Some(instance)
      ensures forall k :: k != name ==> Lookup(recs2[n], k) == Lookup(recs[n], k)
    {
      ReplaceInFacts(recs[n], name, instance);
    }
  }

  /** Registering a name no record is told about keeps every other name propagated. */
  lemma PropagatedFresh(recs: map<string, AppenderRecord>, appenders: map<string, Appender>, names: set<string>,
                        name: string, instance: Appender)
    requires Propagated(recs, appenders, names) && name !in names
    ensures Propagated(recs, appenders[name := instance], names)
  {
  }

  /** The names among `names` that were configured before. */
  function Reconfigured(names: seq<string>, before: set<string>): (r: set<string>)
    ensures forall k :: k in r <==> k in names && k in before
  {
    set k | k in names && k in before
  }

  /**
   * One legal entry of the appender section keeps every reconfigured name
   * propagated: the entry's own name when it was configured before, and the
   * others as they were.
   */
  lemma PropagatedEntry(recs: map<string, AppenderRecord>, recs2: map<string, AppenderRecord>,
                        current: map<string, Appender>, initial: set<string>,
                        names: seq<string>, i: nat, instance: Appender)
    requires i < |names| && initial <= current.Keys
    requires Propagated(recs, current, Reconfigured(names[..i], initial)) && AllDistinct(recs)
    requires recs2 == if names[i] in current then ReplaceAll(recs, names[i], instance) else recs
    ensures Propagated(recs2, current[names[i] := instance], Reconfigured(names[..i + 1], initial))
    ensures AllDistinct(recs2)
  {
    var name := names[i];
    assert names[..i + 1] == names[..i] + [name];
    if name in current {
      PropagatedStep(recs, current, Reconfigured(names[..i], initial), name, instance);
    } else {
      assert Reconfigured(names[..i + 1], initial) == Reconfigured(names[..i], initial);
      PropagatedFresh(recs, current, Reconfigured(names[..i], initial), name, instance);
    }
  }

  /** Configuring `names` and then `name` leaves every logger what configuring `names + [name]` leaves. */
  lemma KeptAllStep(a: map<string, AppenderRecord>, b: map<string, AppenderRecord>, c: map<string, AppenderRecord>,
                    names: seq<string>, name: string)
    requires KeptAll(a, b, names) && KeptAll(b, c, [name])
    ensures KeptAll(a, c, names + [name])
  {
    forall n | n in a
      ensures Kept(a[n], c[n], names + [name])
    {
      KeptStep(a[n], b[n], c[n], names, name);
    }
  }

  /** Configuring fewer names leaves every logger what configuring more names leaves. */
  lemma KeptAllMore(a: map<string, AppenderRecord>, b: map<string, AppenderRecord>, names: seq<string>, more: seq<string>)
    requires KeptAll(a, b, names) && forall k :: k in names ==> k in more
    ensures KeptAll(a, b, more)
  {
    forall n | n in a
      ensures Kept(a[n], b[n], more)
    {
      KeptMore(a[n], b[n], names, more);
    }
  }

  /**
   * The appender registry is `before` with every name of `plan` added, each
   * mapped to an instance that matches its blueprint.
   */
  ghost predicate Configured(appenders: map<string, Appender>, before: map<string, Appender>, plan: map<string, Blueprint>) {
    (forall k :: k in appenders <==> k in before || k in plan) &&
    forall k :: k in plan ==> k in appenders && Matches(appenders[k], plan[k])
  }

  /** Registering an instance that matches a blueprint extends the configured plan by that blueprint. */
  lemma ConfiguredStep(appenders: map<string, Appender>, before: map<string, Appender>, plan: map<string, Blueprint>,
                       name: string, a: Appender, bp: Blueprint)
    requires Configured(appenders, before, plan) && Matches(a, bp)
    ensures Configured(appenders[name := a], before, plan[name := bp])
  {
  }

  /** The configuration of one logger; `includeCallSite` is not part of this model. */
  datatype LoggerConfig = LoggerConfig(level: Option<LogLevel>, appender: Option<seq<string>>)

  /** The argument of `configureLogging`: appender configurations by name, the root, other loggers by name. */
  datatype LoggingConfig = LoggingConfig(
    appender: Option<seq<(string, Value)>>,
    root: Option<LoggerConfig>,
    logger: Option<seq<(string, LoggerConfig)>>)

  /**
   * The record follows the list: only listed names are keys and every listed
   * configured name is one; without a list the record is empty.
   */
  predicate Conforms(rec: AppenderRecord, names: Option<seq<string>>, known: set<string>) {
    match names
    case None => rec == []
    case Some(l) => (forall k :: k in Keys(rec) ==> k in l) && (forall k :: k in l && k in known ==> k in Keys(rec))
  }

  /** `configureAppender` makes the record follow the list. */
  lemma ReconciledConforms(rec: AppenderRecord, names: Option<seq<string>>, known: map<string, Appender>)
    requires Distinct(Keys(rec))
    ensures Conforms(Reconciled(rec, names, known), names, known.Keys)
  {
    ReconciledFacts(rec, names, known);
  }

  /**
   * The logger registered under `key` follows the configuration `lc`: its
   * appenders follow the list, and it has the configured level when one is given.
   */
  predicate Applied(recs: map<string, AppenderRecord>, levels: map<string, int>, key: string,
                    lc: LoggerConfig, known: set<string>) {
    key in recs && key in levels && Conforms(recs[key], lc.appender, known) &&
    (ToLogLevel(lc.level).Some? ==> levels[key] == ToLogLevel(lc.level).value)
  }

  /** Every logger but `key` keeps its record and its level. */
  predicate OthersKept(recs: map<string, AppenderRecord>, levels: map<string, int>,
                       recs2: map<string, AppenderRecord>, levels2: map<string, int>, key: string) {
    (forall n :: n in recs && n != key ==> n in recs2 && recs2[n] == recs[n]) &&
    (forall n :: n in levels && n != key ==> n in levels2 && levels2[n] == levels[n])
  }

  /** A configuration applied to one logger stays applied while only another logger changes. */
  lemma AppliedKept(recs: map<string, AppenderRecord>, levels: map<string, int>,
                    recs2: map<string, AppenderRecord>, levels2: map<string, int>,
                    key: string, other: string, lc: LoggerConfig, known: set<string>)
    requires Applied(recs, levels, other, lc, known) && other != key
    requires OthersKept(recs, levels, recs2, levels2, key)
    ensures Applied(recs2, levels2, other, lc, known)
  {
  }

  /**
   * Reconciling the record of the logger `key`, whose level is already the
   * configured one, applies the configuration to it and to no other logger.
   */
  lemma ReconciledApplied(recs0: map<string, AppenderRecord>, levels0: map<string, int>,
                          recs1: map<string, AppenderRecord>, levels1: map<string, int>,
                          key: string, lc: LoggerConfig, known: map<string, Appender>)
    requires OthersKept(recs0, levels0, recs1, levels1, key)
    requires key in recs1 && key in levels1 && Distinct(Keys(recs1[key]))
    requires ToLogLevel(lc.level).Some? ==> levels1[key] == ToLogLevel(lc.level).value
    ensures Applied(recs1[key := Reconciled(recs1[key], lc.appender, known)], levels1, key, lc, known.Keys)
    ensures OthersKept(recs0, levels0, recs1[key := Reconciled(recs1[key], lc.appender, known)], levels1, key)
    ensures (forall n :: n in recs1 && n !in recs0 ==> recs1[n] == []) ==>
      forall n :: n in recs1 && n !in recs0 && n != key ==> recs1[key := Reconciled(recs1[key], lc.appender, known)][n] == []
  {
    ReconciledConforms(recs1[key], lc.appender, known);
  }

  /** The configuration object `{ Class: ConsoleAppender }` of the module's start-up code, stored at id 0. */
  function StartupHeap(console: Callable): Heap {
    map[0 := ObjectNode([[("Class", DataProperty(Fn(console)))]])]
  }

  /** The appender section of the start-up configuration. */
  const StartupAppenders: seq<(string, Value)> := [("CONSOLE", Ref(0))]

  /** The root section of the start-up configuration: the console appender at level 'INFO'. */
  const StartupRoot := LoggerConfig(Some(Named("INFO")), Some(["CONSOLE"]))

  /** What the start-up configuration object reports: its only entry is `Class`, its level is undefined. */
  lemma StartupObject(console: Callable)
    ensures Closed(StartupHeap(console))
    ensures OwnEntries(StartupHeap(console), Ref(0)) == [("Class", Fn(console))]
    ensures Get(StartupHeap(console), Ref(0), "Class") == Fn(console)
    ensures Get(StartupHeap(console), Ref(0), "level") == Undefined
  {
    var heap := StartupHeap(console);
    var level := [("Class", DataProperty(Fn(console)))];
    assert level[..0] == [];
    assert LevelEntries(level) == [("Class", Fn(console))];
    var levels := [level];
    assert levels[..0] == [];
    assert ChainEntries([level]) == ChainEntries([]) + LevelEntries(level);
    var all := [("Class", Fn(console))];
    assert heap[0].levels == levels && ChainEntries(heap[0].levels) == all;
    assert "Class"[0] != "level"[0];
    assert all[1..] == [];
    assert FirstNamed(all, "level") == FirstNamed([], "level") == None;
  }

  /** The instance of the start-up configuration gets a copy of `Class` and nothing else. */
  lemma StartupProps(console: Callable)
    ensures CopyProps([("Class", Fn(console))]) == [("Class", Fn(console))]
  {
    var entries := [("Class", Fn(console))];
    assert entries[..0] == [];
    assert "Class" != "class" by {
      assert "Class"[0] != "class"[0];
    }
    assert "Class" != "level" by {
      assert "Class"[0] != "level"[0];
    }
  }

  /** 'INFO', the level of the start-up configuration, names the level 20. */
  lemma StartupLevel()
    ensures ToLogLevel(StartupRoot.level) == Some(INFO)
  {
    assert LogLevelMap[0].0 != "INFO" && LogLevelMap[1].0 != "INFO" && LogLevelMap[2] == ("INFO", INFO);
    assert LookupName("INFO", 2) == Some(INFO);
  }

  /** Configuring from empty registries registers exactly the planned names. */
  lemma ConfiguredFromEmpty(appenders: map<string, Appender>, plan: map<string, Blueprint>)
    requires Configured(appenders, map[], plan)
    ensures appenders.Keys == plan.Keys
  {
  }

  /**
   * The start-up appender section is legal when the console class constructs
   * an instance; that instance gets no level and, besides, a copy of the
   * `Class` property (only 'class' and 'level' are skipped).
   */
  lemma StartupSection(console: Callable)
    requires console.hasPrototype && console.constructError.None?
    ensures Closed(StartupHeap(console)) && EntriesIn(StartupHeap(console), StartupAppenders)
    ensures ConfigsPresent(StartupAppenders)
    ensures FirstIllegal(StartupHeap(console), StartupAppenders).None?
    ensures Blueprints(StartupHeap(console), StartupAppenders) ==
            map["CONSOLE" := Blueprint(Fn(console), None, [("Class", Fn(console))])]
  {
    var heap := StartupHeap(console);
    StartupObject(console);
    StartupProps(console);
    var bp := Blueprint(Fn(console), None, [("Class", Fn(console))]);
    assert BlueprintOf(heap, Ref(0)) == bp;
    assert EntryError(heap, Ref(0)).None?;
    assert StartupAppenders[..0] == [];
    assert Verdicts(heap, StartupAppenders) == [Legal(bp)];
    FirstIllegalIsFirst(heap, StartupAppenders);
    assert Keys(StartupAppenders) == ["CONSOLE"];
    assert PlanUpTo(["CONSOLE"], [Legal(bp)], 0) == map[];
  }

  /** The entries of the logger section, by logger name. */
  type LoggerSection = seq<(string, LoggerConfig)>

  /** Entry `j` is the last of the first `i` entries that names its logger. */
  predicate LastOfName(ls: LoggerSection, j: nat, i: nat)
    requires j < i <= |ls|
  {
    forall j2 :: j < j2 < i ==> Canonical(ls[j2].0) != Canonical(ls[j].0)
  }

  /** Each logger the first `i` entries name follows the last entry that names it. */
  predicate SectionApplied(recs: map<string, AppenderRecord>, levels: map<string, int>,
                           ls: LoggerSection, i: nat, known: set<string>)
    requires i <= |ls|
  {
    forall j :: 0 <= j < i && LastOfName(ls, j, i) ==> Applied(recs, levels, Canonical(ls[j].0), ls[j].1, known)
  }

  /** Applying entry `i` to its logger, and changing no other logger, extends the applied section by it. */
  lemma SectionStep(recs: map<string, AppenderRecord>, levels: map<string, int>,
                    recs2: map<string, AppenderRecord>, levels2: map<string, int>,
                    ls: LoggerSection, i: nat, known: set<string>)
    requires i < |ls| && SectionApplied(recs, levels, ls, i, known)
    requires OthersKept(recs, levels, recs2, levels2, Canonical(ls[i].0))
    requires Applied(recs2, levels2, Canonical(ls[i].0), ls[i].1, known)
    ensures SectionApplied(recs2, levels2, ls, i + 1, known)
  {
    forall j | 0 <= j < i + 1 && LastOfName(ls, j, i + 1)
      ensures Applied(recs2, levels2, Canonical(ls[j].0), ls[j].1, known)
    {
      if j < i {
        assert LastOfName(ls, j, i);
        AppliedKept(recs, levels, recs2, levels2, Canonical(ls[i].0), Canonical(ls[j].0), ls[j].1, known);
      }
    }
  }

  /** None of the first `i` entries of the logger section names the logger `n`. */
  predicate Unnamed(ls: LoggerSection, i: nat, n: string)
    requires i <= |ls|
  {
    forall j :: 0 <= j < i ==> Canonical(ls[j].0) != n
  }

  /** Neither the root section nor an entry of the logger section names the logger `n`. */
  predicate LeftAlone(root: Option<LoggerConfig>, section: Option<LoggerSection>, n: string) {
    (root.Some? ==> n != "") && (section.Some? ==> Unnamed(section.value, |section.value|, n))
  }

  /**
   * What `configureLogging` leaves a logger that neither its root section
   * nor its logger section names, from the records `recs0` and levels
   * `levels0` before it: a registered one keeps its level and what the
   * appender section left it (its names, with the registry's instance under
   * each reconfigured one, or its record when there is no appender
   * section); a created one has no appenders.
   */
  ghost predicate LeftAloneResult(recs0: map<string, AppenderRecord>, levels0: map<string, int>,
                                  recs: map<string, AppenderRecord>, levels: map<string, int>,
                                  appenders: map<string, Appender>, before: set<string>, config: LoggingConfig) {
    (forall n :: n in recs0 && LeftAlone(config.root, config.logger, n) ==>
      n in recs && n in levels0 && n in levels && levels[n] == levels0[n] &&
      match config.appender
      case None => recs[n] == recs0[n]
      case Some(entries) =>
        Kept(recs0[n], recs[n], Keys(entries)) && HoldsRegistered(recs[n], appenders, Reconfigured(Keys(entries), before))) &&
    (forall n :: n in recs && n !in recs0 && LeftAlone(config.root, config.logger, n) ==> recs[n] == [])
  }

  /**
   * A logger the root and logger sections leave alone keeps what the
   * appender section left it in `mid`: the whole of `configureLogging`
   * leaves it its result.
   */
  lemma LeftAloneKept(recs0: map<string, AppenderRecord>, levels0: map<string, int>, mid: map<string, AppenderRecord>,
                      recs: map<string, AppenderRecord>, levels: map<string, int>,
                      appenders: map<string, Appender>, before: set<string>, config: LoggingConfig)
    requires recs0.Keys == levels0.Keys == mid.Keys
    requires config.appender.None? ==> mid == recs0
    requires config.appender.Some? ==>
      KeptAll(recs0, mid, Keys(config.appender.value)) && Propagated(mid, appenders, Reconfigured(Keys(config.appender.value), before))
    requires forall n :: n in mid && LeftAlone(config.root, config.logger, n) ==>
      n in recs && recs[n] == mid[n] && n in levels && levels[n] == levels0[n]
    requires forall n :: n in recs && n !in mid && LeftAlone(config.root, config.logger, n) ==> recs[n] == []
    ensures LeftAloneResult(recs0, levels0, recs, levels, appenders, before, config)
  {
  }

  /** One of the first `i` entries of the logger section configures the root logger. */
  predicate NamesRoot(section: Option<LoggerSection>, i: nat) {
    section.Some? && exists j :: 0 <= j < i && j < |section.value| && Canonical(section.value[j].0) == ""
  }

  /**
   * What the first `i` entries of the logger section leave, from the records
   * `recs0` and levels `levels0` before it: each logger they name follows the
   * last of them naming it, a root that followed `root` before the section
   * still does unless one of them names it, every other logger keeps its
   * record and its level, and every other logger they created has no
   * appenders.
   */
  predicate LoggersSoFar(recs0: map<string, AppenderRecord>, levels0: map<string, int>,
                         recs: map<string, AppenderRecord>, levels: map<string, int>, ls: LoggerSection, i: nat,
                         known: set<string>, root: Option<LoggerConfig>, rootApplied: bool)
    requires i <= |ls|
  {
    SectionApplied(recs, levels, ls, i, known) &&
    (rootApplied && root.Some? && !NamesRoot(Some(ls), i) ==> Applied(recs, levels, "", root.value, known)) &&
    UnnamedKept(recs0, levels0, recs, levels, ls, i)
  }

  /**
   * Every logger none of the first `i` entries names keeps its record and
   * its level from `recs0` and `levels0`, or, when created since, has no
   * appenders.
   */
  predicate UnnamedKept(recs0: map<string, AppenderRecord>, levels0: map<string, int>,
                        recs: map<string, AppenderRecord>, levels: map<string, int>, ls: LoggerSection, i: nat)
    requires i <= |ls|
  {
    (forall n :: n in recs0 && Unnamed(ls, i, n) ==> n in recs && recs[n] == recs0[n]) &&
    (forall n :: n in levels0 && Unnamed(ls, i, n) ==> n in levels && levels[n] == levels0[n]) &&
    (forall n :: n in recs && n !in recs0 && Unnamed(ls, i, n) ==> recs[n] == [])
  }

  /** Changing only the logger of entry `i`, and creating others without appenders, keeps the unnamed loggers. */
  lemma UnnamedKeptStep(recs0: map<string, AppenderRecord>, levels0: map<string, int>,
                        recs: map<string, AppenderRecord>, levels: map<string, int>,
                        recs2: map<string, AppenderRecord>, levels2: map<string, int>, ls: LoggerSection, i: nat)
    requires i < |ls| && UnnamedKept(recs0, levels0, recs, levels, ls, i)
    requires OthersKept(recs, levels, recs2, levels2, Canonical(ls[i].0))
    requires forall n :: n in recs2 && n !in recs && n != Canonical(ls[i].0) ==> recs2[n] == []
    ensures UnnamedKept(recs0, levels0, recs2, levels2, ls, i + 1)
  {
    forall n | Unnamed(ls, i + 1, n)
      ensures Unnamed(ls, i, n) && n != Canonical(ls[i].0)
    {
    }
  }

  /**
   * Applying entry `i` to its logger, changing no other logger and creating
   * others only without appenders, extends what the entries before it left.
   */
  lemma LoggersStep(recs0: map<string, AppenderRecord>, levels0: map<string, int>,
                    recs: map<string, AppenderRecord>, levels: map<string, int>,
                    recs2: map<string, AppenderRecord>, levels2: map<string, int>,
                    ls: LoggerSection, i: nat, known: set<string>, root: Option<LoggerConfig>, rootApplied: bool)
    requires i < |ls| && LoggersSoFar(recs0, levels0, recs, levels, ls, i, known, root, rootApplied)
    requires OthersKept(recs, levels, recs2, levels2, Canonical(ls[i].0))
    requires Applied(recs2, levels2, Canonical(ls[i].0), ls[i].1, known)
    requires forall n :: n in recs2 && n !in recs && n != Canonical(ls[i].0) ==> recs2[n] == []
    ensures LoggersSoFar(recs0, levels0, recs2, levels2, ls, i + 1, known, root, rootApplied)
  {
    var key := Canonical(ls[i].0);
    SectionStep(recs, levels, recs2, levels2, ls, i, known);
    if rootApplied && root.Some? && !NamesRoot(Some(ls), i + 1) {
      assert key != "";
      AppliedKept(recs, levels, recs2, levels2, key, "", root.value, known);
    }
    UnnamedKeptStep(recs0, levels0, recs, levels, recs2, levels2, ls, i);
  }

  /**
   * The tree of registered loggers: every logger is registered under its own
   * name and links to the registered logger of its parent name; the root has
   * no parent and 'root' is never a key.
   */
  ghost predicate Tree(m: map<string, Logger>) {
    "root" !in m &&
    (forall n :: n in m ==> m[n].name == n && m[n].Linked() && (n == "" ==> m[n].parent == null)) &&
    forall n {:trigger ParentKey(n)} :: n in m && n != "" ==> ParentKey(n) in m && m[n].parent == m[ParentKey(n)]
  }

  /** The tree, and every registered logger has a well-formed appender record. */
  ghost predicate WellFormed(m: map<string, Logger>)
    reads m.Values`appender
  {
    Tree(m) && forall n :: n in m ==> m[n].Valid()
  }

  /**
   * What the first `i` legal entries of a section leave: every logger keeps
   * its names, the registry holds the planned instances, and every holder of
   * a name configured before holds the registry's instance.
   */
  ghost predicate SoFar(recs0: map<string, AppenderRecord>, recs: map<string, AppenderRecord>,
                        appenders0: map<string, Appender>, appenders: map<string, Appender>,
                        names: seq<string>, vs: seq<Verdict>, i: nat)
    requires |names| == |vs| && i <= |vs|
  {
    KeptAll(recs0, recs, names[..i]) &&
    Configured(appenders, appenders0, PlanUpTo(names, vs, i)) &&
    AllDistinct(recs) && appenders0.Keys <= appenders.Keys &&
    Propagated(recs, appenders, Reconfigured(names[..i], appenders0.Keys))
  }

  /** A legal entry `i`, installed as the section installs it, extends what the entries before it left. */
  lemma SoFarStep(recs0: map<string, AppenderRecord>, recs: map<string, AppenderRecord>,
                  recs2: map<string, AppenderRecord>, appenders0: map<string, Appender>,
                  before: map<string, Appender>, names: seq<string>, vs: seq<Verdict>, i: nat, a: Appender)
    requires |names| == |vs| && i < |vs| && SoFar(recs0, recs, appenders0, before, names, vs, i)
    requires vs[i].Legal? && Matches(a, vs[i].bp)
    requires recs2 == if names[i] in before then ReplaceAll(recs, names[i], a) else recs
    ensures SoFar(recs0, recs2, appenders0, before[names[i] := a], names, vs, i + 1)
  {
    var name := names[i];
    assert names[..i + 1] == names[..i] + [name];
    assert KeptAll(recs, recs2, [name]);
    KeptAllStep(recs0, recs, recs2, names[..i], name);
    ConfiguredStep(before, appenders0, PlanUpTo(names, vs, i), name, a, vs[i].bp);
    PropagatedEntry(recs, recs2, before, appenders0.Keys, names, i, a);
  }

  /** Before the first entry nothing has changed. */
  lemma SoFarStart(recs: map<string, AppenderRecord>, appenders: map<string, Appender>, names: seq<string>, vs: seq<Verdict>)
    requires |names| == |vs| && AllDistinct(recs)
    ensures SoFar(recs, recs, appenders, appenders, names, vs, 0)
  {
    assert names[..0] == [];
    assert KeptAll(recs, recs, names[..0]);
  }

  /**
   * Stopped after `i` entries: every logger still keeps its names, a logger
   * holding none of the first `i` names is untouched, the registry holds the
   * plan of those entries and every holder of one of them that was
   * configured before holds the registry's instance.
   */
  lemma SoFarStopped(recs0: map<string, AppenderRecord>, recs: map<string, AppenderRecord>,
                     appenders0: map<string, Appender>, appenders: map<string, Appender>,
                     names: seq<string>, vs: seq<Verdict>, i: nat)
    requires |names| == |vs| && i <= |vs| && SoFar(recs0, recs, appenders0, appenders, names, vs, i)
    ensures KeptAll(recs0, recs, names)
    ensures KeptAll(recs0, recs, names[..i])
    ensures Configured(appenders, appenders0, PlanUpTo(names, vs, i))
    ensures Propagated(recs, appenders, Reconfigured(names[..i], appenders0.Keys))
  {
    KeptAllMore(recs0, recs, names[..i], names);
  }

  /** After every entry, the whole section's plan is installed and propagated. */
  lemma SoFarDone(recs0: map<string, AppenderRecord>, recs: map<string, AppenderRecord>,
                  appenders0: map<string, Appender>, appenders: map<string, Appender>,
                  names: seq<string>, vs: seq<Verdict>)
    requires |names| == |vs| && SoFar(recs0, recs, appenders0, appenders, names, vs, |names|)
    ensures KeptAll(recs0, recs, names)
    ensures Configured(appenders, appenders0, PlanUpTo(names, vs, |names|))
    ensures Propagated(recs, appenders, Reconfigured(names, appenders0.Keys))
  {
    assert names[..|names|] == names;
  }

  /** Registered loggers are distinct objects, since each carries its own name. */
  lemma TreeInjective(m: map<string, Logger>, k: string)
    requires Tree(m) && k in m
    ensures forall n :: n in m && n != k ==> m[n] != m[k]
  {
  }

  /** Registering a new logger linked to its registered parent keeps the registry well formed. */
  lemma Register(m: map<string, Logger>, key: string, l: Logger)
    requires Tree(m) && key !in m && key != "root"
    requires l.name == key && l.Linked()
    requires key == "" ==> l.parent == null
    requires key != "" ==> ParentKey(key) in m && l.parent == m[ParentKey(key)]
    ensures Tree(m[key := l])
  {
    var m2 := m[key := l];
    forall n | n in m2
      ensures m2[n].name == n && m2[n].Linked()
      ensures n == "" ==> m2[n].parent == null
      ensures n != "" ==> ParentKey(n) in m2 && m2[n].parent == m2[ParentKey(n)]
    {
      if n == key {
        assert m2[n] == l;
      } else {
        assert m2[n] == m[n];
        if n != "" {
          var p := ParentKey(n);
          assert p in m;
          assert p != key;
          assert m2[p] == m[p];
        }
      }
    }
  }

  /**
   * The property loop of `configureLogging`: each present entry other than
   * 'class' and 'level' is set on the instance, in entry order.
   */
  method CollectProps(entries: seq<(string, Value)>) returns (props: seq<(string, Value)>)
    ensures props == CopyProps(entries)
  {
    props := [];
    for i := 0 to |entries|
      invariant props == CopyProps(entries[..i])
    {
      var (key, value) := entries[i];
      if key != "class" && key != "level" && IsPresent(value) {
        props := Put(props, key, value);
      }
      assert entries[..i + 1][..i] == entries[..i];
    }
    assert entries[..|entries|] == entries;
  }

  /** The two registries. */
  class Registry {
    /** `LoggerRegistry`. */
    var loggers: map<string, Logger>
    /** `AppenderRegistry`. */
    var appenders: map<string, Appender>

    /** The registries are well formed. */
    ghost predicate Valid()
      reads this`loggers, loggers.Values`appender
    {
      WellFormed(loggers)
    }

    /** The appender record of every registered logger, by logger name. */
    ghost function Records(): (r: map<string, AppenderRecord>)
      reads this`loggers, loggers.Values`appender
      ensures r.Keys == loggers.Keys
    {
      map n | n in loggers :: loggers[n].appender
    }

    /** The level of every registered logger, by logger name. */
    ghost function Levels(): (r: map<string, int>)
      reads this`loggers, loggers.Values`level
      ensures r.Keys == loggers.Keys
    {
      map n | n in loggers :: loggers[n].level
    }

    /** A well-formed registry has records with distinct keys. */
    lemma RecordsDistinct()
      requires Valid()
      ensures AllDistinct(Records())
    {
    }

    /** A tree of loggers whose records have distinct keys is well formed. */
    lemma DistinctRecordsValid()
      requires Tree(loggers) && AllDistinct(Records())
      ensures Valid()
    {
      forall n | n in loggers
        ensures loggers[n].Valid()
      {
        assert Records()[n] == loggers[n].appender;
      }
    }

    /** Empty registries, before the module's start-up code runs. */
    constructor()
      ensures loggers == map[] && appenders == map[] && Valid()
    {
      loggers := map[];
      appenders := map[];
    }

    /**
     * The registries after the module's start-up code: `useLog('bit.log',
     * 'INFO')`, then `configureLogging` with the appender `CONSOLE` of the
     * console class `console` and the root at 'INFO' with that appender.  The
     * configuration succeeds, `CONSOLE` is the only appender, the root
     * follows its section and the module's own logger is registered.
     */
    constructor Started(console: Callable)
      requires console.hasPrototype && console.constructError.None?
      ensures Valid()
      ensures "bit.log" in loggers && "" in loggers
      ensures appenders.Keys == {"CONSOLE"}
      ensures Matches(appenders["CONSOLE"], Blueprint(Fn(console), None, [("Class", Fn(console))]))
      ensures Applied(Records(), Levels(), "", StartupRoot, appenders.Keys)
      ensures ToLogLevel(StartupRoot.level) == Some(INFO)
    {
      loggers := map[];
      appenders := map[];
      new;
      var log := UseLog("bit.log", Some(Named("INFO")));
      StartupSection(console);
      StartupLevel();
      ConfigureStartup(StartupHeap(console), Blueprint(Fn(console), None, [("Class", Fn(console))]));
    }

    /**
     * The `configureLogging` call of the start-up code, on registries without
     * appenders: `heap` holds the configuration object of `CONSOLE`, whose
     * class builds instances of blueprint `bp`.
     */
    method ConfigureStartup(heap: Heap, bp: Blueprint)
      requires Valid() && appenders == map[]
      requires Closed(heap) && EntriesIn(heap, StartupAppenders) && ConfigsPresent(StartupAppenders)
      requires FirstIllegal(heap, StartupAppenders).None? && Blueprints(heap, StartupAppenders) == map["CONSOLE" := bp]
      modifies this, loggers.Values
      ensures Valid()
      ensures forall n :: n in old(loggers) ==> n in loggers
      ensures appenders.Keys == {"CONSOLE"} && Matches(appenders["CONSOLE"], bp)
      ensures Applied(Records(), Levels(), "", StartupRoot, appenders.Keys)
    {
      var r := ConfigureLogging(LoggingConfig(Some(StartupAppenders), Some(StartupRoot), None), heap);
      assert !NamesRoot(None, 0);
      ConfiguredFromEmpty(appenders, map["CONSOLE" := bp]);
    }

    /**
     * The registered logger of `key`, created with every missing logger above
     * it; each new logger is linked to its parent and takes its parent's level
     * (the root: ERROR).  Existing loggers are not touched.
     */
    method Obtain(key: string) returns (logger: Logger)
      requires Valid() && key != "root"
      modifies this
      ensures Valid() && appenders == old(appenders)
      ensures key in loggers && logger == loggers[key]
      ensures forall n :: n in old(loggers) ==> n in loggers && loggers[n] == old(loggers[n])
      ensures forall n :: n in loggers && n !in old(loggers) ==>
        OnPath(n, key) && fresh(loggers[n]) && loggers[n].appender == [] &&
        (n == "" ==> loggers[n].level == ERROR) &&
        (n != "" ==> loggers[n].parent != null && loggers[n].level == loggers[n].parent.level)
      ensures key in old(loggers) ==> loggers == old(loggers)
      decreases |key|
    {
      if key in loggers {
        logger := loggers[key];
      } else if key == "" {
        logger := new Logger("", null, None);
        Register(loggers, key, logger);
        loggers := loggers[key := logger];
      } else {
        var parentKey := ParentKey(key);
        var parent := Obtain(parentKey);
        forall n | n in loggers && n !in old(loggers)
          ensures n != key
        {
          OnPathShorter(n, parentKey);
        }
        logger := new Logger(key, parent, None);
        Register(loggers, key, logger);
        loggers := loggers[key := logger];
        forall n | n in loggers && n !in old(loggers)
          ensures OnPath(n, key)
        {
          if n != key {
            assert OnPath(n, parentKey);
          }
        }
      }
    }

    /**
     * `useLog(name, level)`: the registered logger of the name ('root' names
     * the root logger), created with every missing logger above it; with a
     * level, that logger's level is set and no other logger changes.
     */
    method UseLog(name: string, level: Option<LogLevel>) returns (logger: Logger)
      requires Valid()
      modifies this, loggers.Values
      ensures Valid() && appenders == old(appenders)
      ensures Canonical(name) in loggers && logger == loggers[Canonical(name)]
      ensures forall n :: n in old(loggers) ==> n in loggers && loggers[n] == old(loggers[n])
      ensures forall n :: n in loggers && n !in old(loggers) ==> OnPath(n, Canonical(name)) && fresh(loggers[n])
      ensures Canonical(name) in old(loggers) ==> loggers == old(loggers)
      ensures forall n :: n in loggers ==> loggers[n].appender == if n in old(loggers) then old(loggers[n].appender) else []
      ensures ToLogLevel(level).Some? ==> logger.level == ToLogLevel(level).value
      ensures ToLogLevel(level).None? && Canonical(name) in old(loggers) ==> logger.level == old(logger.level)
      ensures forall n :: n in old(loggers) && n != Canonical(name) ==> loggers[n].level == old(loggers[n].level)
      ensures forall n :: n in loggers && n !in old(loggers) && !(n == Canonical(name) && ToLogLevel(level).Some?) ==>
        (n == "" ==> loggers[n].level == ERROR) &&
        (n != "" ==> loggers[n].parent != null && loggers[n].level == loggers[n].parent.level)
    {
      var key := Canonical(name);
      logger := Obtain(key);
      forall n | n in loggers && n !in old(loggers) && n != ""
        ensures loggers[n].parent != logger
      {
        OnPathShorter(n, key);
        assert ParentKey(n) in loggers && loggers[n].parent == loggers[ParentKey(n)];
        assert loggers[ParentKey(n)].name == ParentKey(n) != key;
      }
      var lv := ToLogLevel(level);
      if lv.Some? {
        TreeInjective(loggers, key);
        logger.level := lv.value;
      }
    }

    /**
     * `useLog` as written: `name in LoggerRegistry` is tested for 'root' but
     * the root is stored under ''.  So `useLog('root')` registers a fresh root
     * logger without appenders in place of the existing one and returns
     * `LoggerRegistry['root']`, which is undefined (null here); with a level
     * the assignment to it throws (`thrown`) for any level given.  A missing
     * logger 'root.x' walks up through `useLog('root')`: the root is replaced
     * by a fresh one and 'root.x' is created without a parent, at level ERROR
     * unless a level is given.  A registered name gets the level when one is
     * given and changes nothing else.
     */
    method UseLogAsWritten(name: string, level: Option<LogLevel>) returns (logger: Logger?, thrown: bool)
      requires forall n :: n in loggers ==> loggers[n].Linked()
      modifies this, loggers.Values
      ensures forall n :: n in loggers ==> loggers[n].Linked()
      ensures appenders == old(appenders)
      ensures name in old(loggers) ==> loggers == old(loggers) && logger == loggers[name] && !thrown
      ensures name != "root" ==> name in loggers && logger == loggers[name] && !thrown
      ensures name == "root" && name !in old(loggers) ==>
        logger == null && thrown == level.Some? && "" in loggers && fresh(loggers[""]) && loggers[""].appender == []
      ensures logger != null && ToLogLevel(level).Some? ==> logger.level == ToLogLevel(level).value
      ensures "root" !in old(loggers) ==> "root" !in loggers
      ensures "root" !in old(loggers) && name !in old(loggers) && name != "" && name != "root" && ParentName(name) == "root" ==>
        logger != null && logger.parent == null && (ToLogLevel(level).None? ==> logger.level == ERROR) &&
        "" in loggers && fresh(loggers[""]) && loggers[""].appender == []
      ensures "root" !in old(loggers) ==>
        forall n :: n in loggers && n !in old(loggers) && ParentName(n) == "root" && n != "root" ==> loggers[n].parent == null
      decreases |name|
    {
      if name !in loggers {
        if name == "" || name == "root" {
          var root := new Logger("", null, None);
          loggers := loggers["" := root];
        } else {
          var parentName := ParentName(name);
          var parent, _ := UseLogAsWritten(parentName, None);
          var created := new Logger(name, parent, None);
          loggers := loggers[name := created];
        }
      }
      var lv := ToLogLevel(level);
      if name in loggers {
        logger := loggers[name];
        thrown := false;
        if lv.Some? {
          logger.level := lv.value;
        }
      } else {
        logger := null;
        thrown := level.Some?;
      }
    }

    /**
     * `configureAppender(logger, list)`: adds each listed configured appender
     * the logger lacks, then deletes every key that is not listed; without a
     * list it deletes every key.  The warnings for listed names that are not
     * configured are returned in list order.
     */
    method ConfigureAppender(logger: Logger, names: Option<seq<string>>) returns (warnings: seq<string>)
      requires logger.Valid()
      modifies logger`appender
      ensures logger.appender == Reconciled(old(logger.appender), names, appenders) && logger.Valid()
      ensures logger.level == old(logger.level)
      ensures warnings == if names.Some? then NotConfiguredWarnings(names.value, appenders.Keys, LoggerLabel(logger.name)) else []
    {
      if names.Some? {
        warnings := AddConfigured(logger, names.value);
        DeleteUnlisted(logger, names.value);
      } else {
        warnings := [];
        DeleteAll(logger);
      }
      ReconciledFacts(old(logger.appender), names, appenders);
    }

    /** The first loop of `configureAppender`: add the listed configured appenders the logger lacks. */
    method AddConfigured(logger: Logger, list: seq<string>) returns (warnings: seq<string>)
      requires logger.Valid()
      modifies logger`appender
      ensures logger.appender == AddListed(old(logger.appender), list, appenders) && logger.Valid()
      ensures logger.level == old(logger.level)
      ensures warnings == NotConfiguredWarnings(list, appenders.Keys, LoggerLabel(logger.name))
    {
      warnings := [];
      var who := LoggerLabel(logger.name);
      for i := 0 to |list|
        invariant logger.appender == AddListed(old(logger.appender), list[..i], appenders) && logger.Valid()
        invariant logger.level == old(logger.level)
        invariant warnings == NotConfiguredWarnings(list[..i], appenders.Keys, who)
      {
        var n := list[i];
        if n in appenders {
          if n !in Keys(logger.appender) {
            var _ := logger.AddAppender(n, appenders[n], true);
          }
        } else {
          warnings := warnings + [NotConfiguredWarning(n, who)];
        }
        assert list[..i + 1][..i] == list[..i];
      }
      assert list[..|list|] == list;
    }

    /** The second loop of `configureAppender`: delete every key that is not listed. */
    method DeleteUnlisted(logger: Logger, list: seq<string>)
      modifies logger`appender
      ensures logger.appender == RemoveAll(old(logger.appender), Unlisted(Keys(old(logger.appender)), list))
      ensures logger.level == old(logger.level)
    {
      var keys := Keys(logger.appender);
      for j := 0 to |keys|
        invariant logger.appender == RemoveAll(old(logger.appender), Unlisted(keys[..j], list))
        invariant logger.level == old(logger.level)
      {
        if keys[j] !in list {
          logger.appender := Remove(logger.appender, keys[j]);
        }
        assert keys[..j + 1][..j] == keys[..j];
      }
      assert keys[..|keys|] == keys;
    }

    /** `configureAppender(logger, undefined)`: delete every key. */
    method DeleteAll(logger: Logger)
      modifies logger`appender
      ensures logger.appender == RemoveAll(old(logger.appender), Keys(old(logger.appender)))
      ensures logger.level == old(logger.level)
    {
      var keys := Keys(logger.appender);
      for j := 0 to |keys|
        invariant logger.appender == RemoveAll(old(logger.appender), keys[..j])
        invariant logger.level == old(logger.level)
      {
        logger.appender := Remove(logger.appender, keys[j]);
        assert keys[..j + 1][..j] == keys[..j];
      }
      assert keys[..|keys|] == keys;
    }

    /** A logger holding an appender called `name` gets `instance` in its place. */
    static method ReplaceInLogger(logger: Logger, name: string, instance: Appender)
      requires logger.Valid()
      modifies logger`appender
      ensures logger.Valid() && logger.appender == ReplaceIn(old(logger.appender), name, instance)
    {
      if name in Keys(logger.appender) {
        var _ := logger.AddAppender(name, instance, true);
      }
    }

    /** Every registered logger holding an appender called `name` gets `instance` in its place. */
    method ReplaceEverywhere(name: string, instance: Appender)
      requires Valid()
      modifies loggers.Values`appender
      ensures Valid() && Records() == ReplaceAll(old(Records()), name, instance)
    {
      ghost var init := Records();
      var todo := loggers.Keys;
      while todo != {}
        invariant todo <= loggers.Keys
        invariant forall n :: n in loggers ==> loggers[n].Valid()
        invariant forall n :: n in loggers ==>
          loggers[n].appender == if n in todo then init[n] else ReplaceIn(init[n], name, instance)
        decreases todo
      {
        var k :| k in todo;
        var logger := loggers[k];
        TreeInjective(loggers, k);
        ReplaceInLogger(logger, name, instance);
        todo := todo - {k};
      }
      ReplaceAllPointwise(init, Records(), name, instance);
    }

    /**
     * The instance one entry of the appender section builds: an object of the
     * configured class with the configured level and every other present
     * property except 'class' and 'level'.  An illegal configuration gives
     * its error instead.
     */
    method BuildAppender(cfg: Value, heap: Heap) returns (r: Result<Appender, ConfigError>)
      requires ValueIn(heap, cfg)
      ensures r.Failure? <==> EntryError(heap, cfg).Some?
      ensures r.Failure? ==> r.error == EntryError(heap, cfg).value
      ensures r.Success? ==> Matches(r.value, BlueprintOf(heap, cfg))
      ensures r.Failure? ==> Judge(heap, cfg) == Illegal(r.error)
      ensures r.Success? ==> Judge(heap, cfg) == Legal(BlueprintOf(heap, cfg))
    {
      if !IsAppenderConfig(heap, cfg, "Class") {
        return Failure(NotAnAppender);
      }
      var cls := Get(heap, cfg, "Class").f;
      if cls.constructError.Some? {
        return Failure(ConstructorThrew(cls.constructError.value));
      }
      var level: Option<int> := None;
      var configured := Get(heap, cfg, "level");
      if IsPresent(configured) {
        level := ConfigLevel(configured);
      }
      var props := CollectProps(OwnEntries(heap, cfg));
      var instance := Appender(cls, level, props);
      r := Success(instance);
    }

    /**
     * One entry of the appender section of `configureLogging`: the instance
     * built from the configuration; a logger holding an appender of a name
     * that is already configured gets the new instance, and the registry maps
     * the name to it.  An illegal configuration changes nothing and gives its
     * error.
     */
    method ConfigureAppenderEntry(name: string, cfg: Value, heap: Heap) returns (r: Result<Appender, ConfigError>)
      requires Valid() && ValueIn(heap, cfg)
      modifies this`appenders, loggers.Values`appender
      ensures Valid() && loggers == old(loggers)
      ensures r.Failure? ==> Judge(heap, cfg) == Illegal(r.error) && appenders == old(appenders)
      ensures r.Success? ==> Judge(heap, cfg).Legal? && Matches(r.value, Judge(heap, cfg).bp) &&
                             appenders == old(appenders)[name := r.value]
      ensures r.Failure? ==> Records() == old(Records())
      ensures r.Success? ==> Records() == if name in old(appenders) then ReplaceAll(old(Records()), name, r.value)
                                          else old(Records())
    {
      ghost var recs := Records();
      r := BuildAppender(cfg, heap);
      assert unchanged(this) && unchanged(loggers.Values);
      if r.Failure? {
        return;
      }
      assert Records() == recs;
      Install(name, r.value);
    }

    /**
     * Registers a built instance under `name`: when the name is already
     * configured, every logger holding it gets the new instance first.
     */
    method Install(name: string, instance: Appender)
      requires Valid()
      modifies this`appenders, loggers.Values`appender
      ensures Valid() && loggers == old(loggers) && appenders == old(appenders)[name := instance]
      ensures Records() == if name in old(appenders) then ReplaceAll(old(Records()), name, instance) else old(Records())
    {
      if name in appenders {
        ReplaceEverywhere(name, instance);
      }
      ghost var recs := Records();
      label before:
      appenders := appenders[name := instance];
      assert unchanged@before(loggers.Values);
      assert Records() == recs;
    }

    /** Entry `i` of the appender section, with what the entries before it left. */
    method ConfigureNth(entries: seq<(string, Value)>, heap: Heap, i: nat,
                        ghost recs0: map<string, AppenderRecord>, ghost appenders0: map<string, Appender>)
      returns (r: Result<Appender, ConfigError>)
      requires Tree(loggers) && EntriesIn(heap, entries) && i < |entries|
      requires SoFar(recs0, Records(), appenders0, appenders, Keys(entries), Verdicts(heap, entries), i)
      modifies this`appenders, loggers.Values`appender
      ensures loggers == old(loggers)
      ensures r.Failure? ==> FirstIllegalFrom(Verdicts(heap, entries), i) == Some(i)
      ensures r.Failure? ==> SoFar(recs0, Records(), appenders0, appenders, Keys(entries), Verdicts(heap, entries), i)
      ensures r.Success? ==> FirstIllegalFrom(Verdicts(heap, entries), i) == FirstIllegalFrom(Verdicts(heap, entries), i + 1)
      ensures r.Success? ==> SoFar(recs0, Records(), appenders0, appenders, Keys(entries), Verdicts(heap, entries), i + 1)
    {
      DistinctRecordsValid();
      ghost var recs := Records();
      ghost var before := appenders;
      VerdictAt(heap, entries, i);
      r := ConfigureAppenderEntry(entries[i].0, entries[i].1, heap);
      if r.Success? {
        SoFarStep(recs0, recs, Records(), appenders0, before, Keys(entries), Verdicts(heap, entries), i, r.value);
      }
    }

    /**
     * The entries in order from the first, until the first illegal one:
     * what the entries before the stop install extends what there was.
     */
    method ConfigureEntries(entries: seq<(string, Value)>, heap: Heap,
                            ghost recs0: map<string, AppenderRecord>, ghost appenders0: map<string, Appender>)
      returns (failed: Option<nat>)
      requires Tree(loggers) && EntriesIn(heap, entries)
      requires SoFar(recs0, Records(), appenders0, appenders, Keys(entries), Verdicts(heap, entries), 0)
      modifies this`appenders, loggers.Values`appender
      ensures loggers == old(loggers)
      ensures failed == FirstIllegalFrom(Verdicts(heap, entries), 0)
      ensures failed.Some? ==> failed.value < |entries|
      ensures SoFar(recs0, Records(), appenders0, appenders, Keys(entries), Verdicts(heap, entries),
                    if failed.Some? then failed.value else |entries|)
    {
      ghost var vs := Verdicts(heap, entries);
      var i := 0;
      while i < |entries|
        invariant 0 <= i <= |entries|
        invariant loggers == old(loggers)
        invariant FirstIllegalFrom(vs, 0) == FirstIllegalFrom(vs, i)
        invariant SoFar(recs0, Records(), appenders0, appenders, Keys(entries), vs, i)
      {
        var r := ConfigureNth(entries, heap, i, recs0, appenders0);
        if r.Failure? {
          return Some(i);
        }
        i := i + 1;
      }
      return None;
    }

    /**
     * The appender section of `configureLogging`: the entries in order; the
     * first illegal one stops the section with its error.  Afterwards the
     * registry holds every configured name, each with the instance built from
     * the last entry of that name, and the loggers hold the same names as
     * before.
     */
    method ConfigureAppenderSection(entries: seq<(string, Value)>, heap: Heap) returns (failed: Option<nat>)
      requires Valid() && EntriesIn(heap, entries)
      modifies this`appenders, loggers.Values`appender
      ensures Valid() && loggers == old(loggers)
      ensures failed == FirstIllegal(heap, entries)
      ensures KeptAll(old(Records()), Records(), Keys(entries))
      ensures failed.None? ==> Configured(appenders, old(appenders), Blueprints(heap, entries))
      ensures failed.None? ==> Propagated(Records(), appenders, Reconfigured(Keys(entries), old(appenders).Keys))
      ensures failed.Some? ==> failed.value < |entries|
      ensures failed.Some? ==> Configured(appenders, old(appenders), PlanUpTo(Keys(entries), Verdicts(heap, entries), failed.value))
      ensures failed.Some? ==> KeptAll(old(Records()), Records(), Keys(entries)[..failed.value])
      ensures failed.Some? ==> Propagated(Records(), appenders, Reconfigured(Keys(entries)[..failed.value], old(appenders).Keys))
      ensures forall n :: n in loggers ==> loggers[n].level == old(loggers[n].level)
      ensures failed.Some? ==> SoFar(old(Records()), Records(), old(appenders), appenders, Keys(entries), Verdicts(heap, entries), failed.value)
    {
      ghost var names := Keys(entries);
      ghost var vs := Verdicts(heap, entries);
      ghost var recs0 := Records();
      RecordsDistinct();
      SoFarStart(recs0, appenders, names, vs);
      failed := ConfigureEntries(entries, heap, recs0, appenders);
      DistinctRecordsValid();
      if failed.Some? {
        SoFarStopped(recs0, Records(), old(appenders), appenders, names, vs, failed.value);
      } else {
        SoFarDone(recs0, Records(), old(appenders), appenders, names, vs);
      }
    }

    /**
     * `configureAppender` on the registered logger of `key`: its record
     * follows the list and no other logger changes.
     */
    method ConfigureRegistered(key: string, names: Option<seq<string>>) returns (warnings: seq<string>)
      requires Valid() && key in loggers
      modifies loggers.Values`appender
      ensures Valid()
      ensures warnings == if names.Some? then NotConfiguredWarnings(names.value, appenders.Keys, LoggerLabel(key)) else []
      ensures Records() == old(Records())[key := Reconciled(old(Records())[key], names, appenders)]
      ensures Levels() == old(Levels())
    {
      ghost var recs, levels := Records(), Levels();
      var logger := loggers[key];
      TreeInjective(loggers, key);
      warnings := ConfigureAppender(logger, names);
      assert Levels() == levels;
      assert Records() == recs[key := Reconciled(recs[key], names, appenders)];
    }

    /**
     * One logger configuration (the root section, or an entry of the logger
     * section): `useLog(name, level)`, then `configureAppender` with the list.
     * The logger follows the configuration and every other logger keeps its
     * appenders and its level.
     */
    method ApplyLoggerConfig(name: string, lc: LoggerConfig) returns (warnings: seq<string>)
      requires Valid()
      modifies this, loggers.Values
      ensures Valid() && appenders == old(appenders)
      ensures forall n :: n in old(loggers) ==> n in loggers && loggers[n] == old(loggers[n])
      ensures forall n :: n in loggers && n !in old(loggers) ==> fresh(loggers[n])
      ensures Applied(Records(), Levels(), Canonical(name), lc, appenders.Keys)
      ensures OthersKept(old(Records()), old(Levels()), Records(), Levels(), Canonical(name))
      ensures forall n :: n in loggers && n !in old(loggers) && n != Canonical(name) ==> Records()[n] == []
    {
      ghost var recs0, levels0 := Records(), Levels();
      var logger := UseLog(name, lc.level);
      var key := Canonical(name);
      ghost var recs1, levels1 := Records(), Levels();
      assert OthersKept(recs0, levels0, recs1, levels1, key);
      assert key in recs1 && key in levels1 && Distinct(Keys(recs1[key]));
      assert ToLogLevel(lc.level).Some? ==> levels1[key] == ToLogLevel(lc.level).value;
      ReconciledApplied(recs0, levels0, recs1, levels1, key, lc, appenders);
      warnings := ConfigureRegistered(key, lc.appender);
    }

    /** Entry `i` of the logger section, applied after the entries before it. */
    method ApplyEntry(ls: LoggerSection, i: nat, root: Option<LoggerConfig>, ghost rootApplied: bool,
                      ghost recs0: map<string, AppenderRecord>, ghost levels0: map<string, int>)
      returns (warnings: seq<string>)
      requires Valid() && i < |ls|
      requires LoggersSoFar(recs0, levels0, Records(), Levels(), ls, i, appenders.Keys, root, rootApplied)
      modifies this, loggers.Values
      ensures Valid() && appenders == old(appenders)
      ensures forall n :: n in old(loggers) ==> n in loggers && loggers[n] == old(loggers[n])
      ensures forall n :: n in loggers && n !in old(loggers) ==> fresh(loggers[n])
      ensures LoggersSoFar(recs0, levels0, Records(), Levels(), ls, i + 1, appenders.Keys, root, rootApplied)
    {
      ghost var recs, levels := Records(), Levels();
      warnings := ApplyLoggerConfig(ls[i].0, ls[i].1);
      LoggersStep(recs0, levels0, recs, levels, Records(), Levels(), ls, i, appenders.Keys, root, rootApplied);
    }

    /**
     * The logger section of `configureLogging`: each entry in turn is applied
     * to its logger.  Afterwards every logger an entry names follows the last
     * entry naming it, and a root that followed `root` still does unless an
     * entry names it.
     */
    method ConfigureLoggerSection(ls: LoggerSection, root: Option<LoggerConfig>) returns (warnings: seq<string>)
      requires Valid()
      modifies this, loggers.Values
      ensures Valid() && appenders == old(appenders)
      ensures forall n :: n in old(loggers) ==> n in loggers && loggers[n] == old(loggers[n])
      ensures forall n :: n in loggers && n !in old(loggers) ==> fresh(loggers[n])
      ensures SectionApplied(Records(), Levels(), ls, |ls|, appenders.Keys)
      ensures root.Some? && Applied(old(Records()), old(Levels()), "", root.value, appenders.Keys) && !NamesRoot(Some(ls), |ls|) ==>
        Applied(Records(), Levels(), "", root.value, appenders.Keys)
      ensures forall n :: n in old(loggers) && Unnamed(ls, |ls|, n) ==>
        Records()[n] == old(Records())[n] && Levels()[n] == old(Levels())[n]
      ensures forall n :: n in loggers && n !in old(loggers) && Unnamed(ls, |ls|, n) ==> Records()[n] == []
    {
      warnings := [];
      ghost var recs0, levels0 := Records(), Levels();
      ghost var rootApplied := root.Some? && Applied(Records(), Levels(), "", root.value, appenders.Keys);
      for i := 0 to |ls|
        invariant Valid() && appenders == old(appenders)
        invariant forall n :: n in old(loggers) ==> n in loggers && loggers[n] == old(loggers[n])
        invariant forall n :: n in loggers && n !in old(loggers) ==> fresh(loggers[n])
        invariant LoggersSoFar(recs0, levels0, Records(), Levels(), ls, i, appenders.Keys, root, rootApplied)
      {
        var w := ApplyEntry(ls, i, root, rootApplied, recs0, levels0);
        warnings := warnings + w;
      }
    }

    /**
     * The root section (the logger ''), then the logger section, with their
     * warnings in order.  The appender registry does not change.
     */
    method ConfigureLoggers(root: Option<LoggerConfig>, section: Option<LoggerSection>) returns (warnings: seq<string>)
      requires Valid()
      modifies this, loggers.Values
      ensures Valid() && appenders == old(appenders)
      ensures forall n :: n in old(loggers) ==> n in loggers && loggers[n] == old(loggers[n])
      ensures section.Some? ==> SectionApplied(Records(), Levels(), section.value, |section.value|, appenders.Keys)
      ensures root.Some? && !NamesRoot(section, |section.GetOr([])|) ==> Applied(Records(), Levels(), "", root.value, appenders.Keys)
      ensures forall n :: n in old(loggers) && LeftAlone(root, section, n) ==>
        Records()[n] == old(Records())[n] && Levels()[n] == old(Levels())[n]
      ensures forall n :: n in loggers && n !in old(loggers) && LeftAlone(root, section, n) ==> Records()[n] == []
    {
      warnings := [];
      if root.Some? {
        warnings := ApplyLoggerConfig("", root.value);
      }
      if section.Some? {
        var w := ConfigureLoggerSection(section.value, root);
        warnings := warnings + w;
      }
    }

    /**
     * `configureLogging(config)`: the appender section, then the root
     * section (the logger ''), then each entry of the logger section.  An
     * illegal appender configuration stops everything with its message; the
     * entries before it stay configured and no logger section is applied.
     * Otherwise the warnings of every `configureAppender` are returned in
     * order, the registry holds the configured appenders, every logger named
     * by an entry follows the last entry naming it, and the root follows the
     * root section unless an entry names it again.
     */
    method ConfigureLogging(config: LoggingConfig, heap: Heap) returns (r: Result<seq<string>, string>)
      requires Valid() && Closed(heap)
      requires config.appender.Some? ==> EntriesIn(heap, config.appender.value) && ConfigsPresent(config.appender.value)
      modifies this, loggers.Values
      ensures Valid()
      ensures forall n :: n in old(loggers) ==> n in loggers && loggers[n] == old(loggers[n])
      ensures r.Failure? <==> config.appender.Some? && FirstIllegal(heap, config.appender.value).Some?
      ensures r.Failure? ==>
        var entries := config.appender.value;
        var i := FirstIllegal(heap, entries).value;
        i < |entries| && EntryError(heap, entries[i].1).Some? &&
        r.error == ErrorMessage(heap, entries[i].1, EntryError(heap, entries[i].1).value) &&
        loggers == old(loggers) && KeptAll(old(Records()), Records(), Keys(entries)) &&
        Configured(appenders, old(appenders), PlanUpTo(Keys(entries), Verdicts(heap, entries), i)) &&
        SoFar(old(Records()), Records(), old(appenders), appenders, Keys(entries), Verdicts(heap, entries), i)
      ensures r.Success? && config.appender.Some? ==> Configured(appenders, old(appenders), Blueprints(heap, config.appender.value))
      ensures r.Success? && config.appender.None? ==> appenders == old(appenders)
      ensures r.Success? && config.logger.Some? ==>
        SectionApplied(Records(), Levels(), config.logger.value, |config.logger.value|, appenders.Keys)
      ensures r.Success? && config.root.Some? && !NamesRoot(config.logger, |config.logger.GetOr([])|) ==>
        Applied(Records(), Levels(), "", config.root.value, appenders.Keys)
      ensures r.Success? ==> LeftAloneResult(old(Records()), old(Levels()), Records(), Levels(), appenders, old(appenders).Keys, config)
    {
      if config.appender.Some? {
        var entries := config.appender.value;
        var failed := ConfigureAppenderSection(entries, heap);
        if failed.Some? {
          var i := failed.value;
          FirstIllegalIsFirst(heap, entries);
          var e := EntryError(heap, entries[i].1).value;
          return Failure(ErrorMessage(heap, entries[i].1, e));
        }
      }
      ghost var recs, levels := Records(), Levels();
      var warnings := ConfigureLoggers(config.root, config.logger);
      LeftAloneKept(old(Records()), old(Levels()), recs, Records(), Levels(), appenders, old(appenders).Keys, config);
      return Success(warnings);
    }
  }
}
