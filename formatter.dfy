/**
 * `formatAny`, `formatArrayLike`, `formatObject` and `getAllEntries` of
 * lib/utils.ts.  The functions `FmtAny`, `FmtArrayLike`, `FmtObject`,
 * `FmtElements` and `FmtEntries` specify the rendering: each threads the
 * tracker state through the traversal and returns the text with the state
 * after it.  The methods of the same names without the `Fmt` prefix do what
 * the source does, with a `CircularTracker` they mutate and loops over the
 * elements, and are proved to compute exactly the specified text and state.
 *
 * Every descent into a container first tracks it, and a tracked container is
 * never entered again, so the set of untracked heap ids shrinks strictly on
 * each descent: that is the termination measure, and it is why cyclic values
 * render finitely.
 */
module Formatter {
  import opened Wrappers
  import opened Text
  import opened Ansi
  import opened Values
  import opened Definitions
  import opened Utils
  import opened Tracking

  // ------------------------------------------------------------- measure

  /** The heap ids the tracker has not entered yet. */
  function Untracked(heap: Heap, st: Tracker): set<Id> {
    set id | id in heap && id !in st.cache
  }

  lemma UntrackedShrinks(heap: Heap, st: Tracker, st2: Tracker)
    requires Grows(st, st2)
    ensures Untracked(heap, st2) <= Untracked(heap, st)
  {
    forall x | x in st.cache
      ensures x in st2.cache
    {
      var i :| 0 <= i < |st.cache| && st.cache[i] == x;
      assert st2.cache[..|st.cache|][i] == x;
    }
  }

  lemma UntrackedAfterAdd(heap: Heap, st: Tracker, id: Id)
    requires id in heap && id !in st.cache
    ensures Untracked(heap, AddTracked(st, id)) < Untracked(heap, st)
  {
    assert id in Untracked(heap, st);
    assert id !in Untracked(heap, AddTracked(st, id));
  }

  /** `st` only tracks heap ids, each once, and only tracked ids are marked circular. */
  predicate Sound(heap: Heap, st: Tracker) {
    (forall i :: 0 <= i < |st.cache| ==> st.cache[i] in heap) &&
    (forall i, j :: 0 <= i < j < |st.cache| ==> st.cache[i] != st.cache[j]) &&
    (forall id :: id in st.circular ==> id in st.cache)
  }

  lemma SoundAfterAdd(heap: Heap, st: Tracker, id: Id)
    requires id in heap && id !in st.cache
    ensures Sound(heap, st) ==> Sound(heap, AddTracked(st, id))
  {
  }

  predicate ItemsIn(heap: Heap, items: seq<Value>) {
    forall i :: 0 <= i < |items| ==> ValueIn(heap, items[i])
  }

  predicate EntriesIn(heap: Heap, entries: seq<(string, Value)>) {
    forall i :: 0 <= i < |entries| ==> ValueIn(heap, entries[i].1)
  }

  lemma ItemsPrefix(heap: Heap, items: seq<Value>, i: nat)
    requires ItemsIn(heap, items) && i <= |items|
    ensures ItemsIn(heap, items[..i])
  {
    forall j | 0 <= j < i
      ensures ValueIn(heap, items[..i][j])
    {
      assert items[..i][j] == items[j];
    }
  }

  lemma EntriesPrefix(heap: Heap, entries: seq<(string, Value)>, i: nat)
    requires EntriesIn(heap, entries) && i <= |entries|
    ensures EntriesIn(heap, entries[..i])
  {
    forall j | 0 <= j < i
      ensures ValueIn(heap, entries[..i][j].1)
    {
      assert entries[..i][j] == entries[j];
    }
  }

  lemma ItemsTailSnoc(heap: Heap, items: seq<Value>, v: Value)
    requires ItemsIn(heap, items) && |items| > 0 && ValueIn(heap, v)
    ensures ItemsIn(heap, items[1..]) && ItemsIn(heap, items[1..] + [v])
  {
    forall i | 0 <= i < |items[1..] + [v]|
      ensures ValueIn(heap, (items[1..] + [v])[i])
    {
      if i < |items| - 1 {
        assert (items[1..] + [v])[i] == items[i + 1];
      }
    }
  }

  lemma EntriesTailSnoc(heap: Heap, entries: seq<(string, Value)>, e: (string, Value))
    requires EntriesIn(heap, entries) && |entries| > 0 && ValueIn(heap, e.1)
    ensures EntriesIn(heap, entries[1..]) && EntriesIn(heap, entries[1..] + [e])
  {
    forall i | 0 <= i < |entries[1..] + [e]|
      ensures ValueIn(heap, (entries[1..] + [e])[i].1)
    {
      if i < |entries| - 1 {
        assert (entries[1..] + [e])[i] == entries[i + 1];
      }
    }
  }

  // ---------------------------------------------------------- leaf texts

  /** The primitives a top-level call renders bare. */
  predicate IsBare(v: Value) {
    v.Undefined? || v.Null? || v.Bool? || v.Num? || v.BigInt? || v.Str?
  }

  function BoolText(b: bool): string {
    if b then "true" else "false"
  }

  /** `${value}` for a bare primitive: a string is its own text, a bigint has no 'n'. */
  function BareText(v: Value): string
    requires IsBare(v)
  {
    match v
    case Undefined => "undefined"
    case Null => "null"
    case Bool(b) => BoolText(b)
    case Num(n) => IntToString(n)
    case BigInt(n) => IntToString(n)
    case Str(s) => s
  }

  /** A primitive below the top level, or a symbol anywhere: strings are quoted, each kind has its colour. */
  function PrimitiveText(v: Value, colored: bool): string
    requires !v.Fn? && !v.Ref?
  {
    match v
    case Undefined => if colored then Paint(DarkGray, "undefined") else "undefined"
    case Null => if colored then Paint(Bold, "null") else "null"
    case Symbol(d) =>
      var text := d.GetOr("undefined");
      if colored then Paint(Magenta, "Symbol(") + text + Paint(Magenta, ")") else "Symbol(" + text + ")"
    case BigInt(n) => if colored then Paint(Cyan, IntToString(n)) else IntToString(n)
    case Num(n) => if colored then Paint(DarkCyan, IntToString(n)) else IntToString(n)
    case Bool(b) => if colored then Paint(DarkYellow, BoolText(b)) else BoolText(b)
    case Str(s) => if colored then Paint(DarkGreen, "'" + s + "'") else "'" + s + "'"
  }

  /**
   * A function that is not a class: `[Function <first line, at most 100
   * characters>]`, with '...' when the source has further lines or a longer
   * first line.
   */
  function FunctionText(f: Callable, colored: bool): (r: string)
    ensures StartsWith(r, "[") && EndsWith(r, "]")
    ensures !colored ==> StartsWith(r, "[Function ") && |r| <= 114
  {
    var first := FirstLine(f.source);
    var more := '\n' in f.source || |first| > 100;
    (if colored then "[" + Paint(Blue, "Function") else "[Function") + " " +
    Prefix(first, 100) + (if more then "..." else "") + "]"
  }

  /** The text standing in for a container met again: `[Circular refN]`. */
  function CircularText(n: nat, colored: bool): string {
    if colored then "[" + Paint(Cyan, "Circular") + " " + Paint(Blue, "ref" + NatToString(n)) + "]"
    else "[Circular ref" + NatToString(n) + "]"
  }

  /** `<refN>` in front of a container that was met again while it was formatted, '' otherwise. */
  function RefMark(st: Tracker, id: Id): string {
    if id in st.circular then "<ref" + NatToString(Position(st.cache, id)) + ">" else ""
  }

  /** The indent of nesting depth `depth`: two spaces per level. */
  function Indent(depth: nat): string {
    Spaces(depth * 2)
  }

  /**
   * The pretty layout: the mark (always painted blue), the opening bracket,
   * one element per line at depth `inner + 1`, the closing bracket at depth
   * `inner`.
   */
  function PrettyBlock(mark: string, open: string, close: string, results: seq<string>, inner: nat): string {
    (if mark == "" then "" else Paint(Blue, mark)) + open + "\n" +
    Indent(inner + 1) + Join(results, ",\n" + Indent(inner + 1)) + "\n" + Indent(inner) + close
  }

  /** The closing layout of `formatArrayLike`. */
  function ArrayLikeText(n: Node, mark: string, results: seq<string>, pretty: bool, inner: nat): string
    requires n.ArrayNode? || n.SetNode?
  {
    if pretty then PrettyBlock(mark, "[", "]", results, inner)
    else if n.SetNode? then mark + "Set(" + NatToString(|n.members|) + ") { " + Join(results, ", ") + " }"
    else mark + "[ " + Join(results, ", ") + " ]"
  }

  /** The closing layout of `formatObject`. */
  function ObjectText(n: Node, mark: string, results: seq<string>, pretty: bool, inner: nat): string
    requires n.MapNode? || n.ObjectNode?
  {
    if pretty then PrettyBlock(mark, "{", "}", results, inner)
    else if n.MapNode? then mark + "Map(" + NatToString(|n.entries|) + ") { " + Join(results, ", ") + " }"
    else mark + "{ " + Join(results, ", ") + " }"
  }

  // ------------------------------------------------------- specification

  /**
   * `formatAny(v, pretty, colored, inner, ct)` with the tracker in state
   * `st`: the text and the tracker's state afterwards.  A container must not
   * be tracked yet (`add` would throw; neither caller lets that happen).
   */
  function FmtAny(heap: Heap, v: Value, pretty: bool, colored: bool, inner: nat, st: Tracker): (r: (string, Tracker))
    requires Closed(heap) && ValueIn(heap, v) && (v.Ref? ==> v.id !in st.cache)
    ensures Grows(st, r.1)
    ensures !v.Ref? ==> r.1 == st
    ensures v.Ref? ==> |r.1.cache| > |st.cache| && r.1.cache[|st.cache|] == v.id
    ensures Sound(heap, st) ==> Sound(heap, r.1)
    decreases Untracked(heap, st), 2, 0
  {
    if inner == 0 && IsBare(v) then (BareText(v), st)
    else
      match v
      case Fn(f) =>
        var text := if IsClass(f) then (if colored then Paint(DarkMagenta, ClassHierarchy(v)) else ClassHierarchy(v))
                    else FunctionText(f, colored);
        (text, st)
      case Ref(id) =>
        if heap[id].ArrayNode? then FmtArrayLike(heap, id, pretty, colored, inner, st)
        else FmtObject(heap, id, pretty, colored, inner, st)
      case _ => (PrimitiveText(v, colored), st)
  }

  /** `formatObject`: a Set goes to `formatArrayLike`; otherwise the entries of `getAllEntries`. */
  function FmtObject(heap: Heap, id: Id, pretty: bool, colored: bool, inner: nat, st: Tracker): (r: (string, Tracker))
    requires Closed(heap) && id in heap && !heap[id].ArrayNode? && id !in st.cache
    ensures Grows(st, r.1)
    ensures |r.1.cache| > |st.cache| && r.1.cache[|st.cache|] == id
    ensures Sound(heap, st) ==> Sound(heap, r.1)
    decreases Untracked(heap, st), 1, 0
  {
    if heap[id].SetNode? then FmtArrayLike(heap, id, pretty, colored, inner, st)
    else
      var n := heap[id];
      var st1 := AddTracked(st, id);
      AddTrackedPositions(st, id);
      UntrackedAfterAdd(heap, st, id);
      AllEntriesIn(heap, n);
      SoundAfterAdd(heap, st, id);
      var (results, st2) := FmtEntries(heap, AllEntries(n), n.MapNode?, pretty, colored, inner, st1);
      GrowsTransitive(st, st1, st2);
      (ObjectText(n, RefMark(st2, id), results, pretty, inner), st2)
  }

  /** `formatArrayLike` on an array or a Set. */
  function FmtArrayLike(heap: Heap, id: Id, pretty: bool, colored: bool, inner: nat, st: Tracker): (r: (string, Tracker))
    requires Closed(heap) && id in heap && (heap[id].ArrayNode? || heap[id].SetNode?) && id !in st.cache
    ensures Grows(st, r.1)
    ensures |r.1.cache| > |st.cache| && r.1.cache[|st.cache|] == id
    ensures Sound(heap, st) ==> Sound(heap, r.1)
    decreases Untracked(heap, st), 0, 0
  {
    var n := heap[id];
    var items := if n.ArrayNode? then n.items else n.members;
    var st1 := AddTracked(st, id);
    AddTrackedPositions(st, id);
    UntrackedAfterAdd(heap, st, id);
    SoundAfterAdd(heap, st, id);
    var (results, st2) := FmtElements(heap, items, pretty, colored, inner, st1);
    GrowsTransitive(st, st1, st2);
    (ArrayLikeText(n, RefMark(st2, id), results, pretty, inner), st2)
  }

  /**
   * One element of `formatArrayLike`: an element already tracked is marked
   * circular and stands as `[Circular refN]`; any other is formatted one
   * level deeper.
   */
  function ElementStep(heap: Heap, v: Value, pretty: bool, colored: bool, inner: nat, st: Tracker): (r: (string, Tracker))
    requires Closed(heap) && ValueIn(heap, v)
    ensures Grows(st, r.1)
    ensures Sound(heap, st) ==> Sound(heap, r.1)
    decreases Untracked(heap, st), 2, 1
  {
    if v.Ref? && v.id in st.cache then (CircularText(Position(st.cache, v.id), colored), MarkCircular(st, v.id))
    else FmtAny(heap, v, pretty, colored, inner + 1, st)
  }

  /** The loop of `formatArrayLike`: the elements in order, the tracker threaded through. */
  function FmtElements(heap: Heap, items: seq<Value>, pretty: bool, colored: bool, inner: nat, st: Tracker): (r: (seq<string>, Tracker))
    requires Closed(heap) && ItemsIn(heap, items)
    ensures Grows(st, r.1) && |r.0| == |items|
    ensures Sound(heap, st) ==> Sound(heap, r.1)
    decreases Untracked(heap, st), 3, |items|
  {
    if |items| == 0 then ([], st)
    else
      var (text, st1) := ElementStep(heap, items[0], pretty, colored, inner, st);
      UntrackedShrinks(heap, st, st1);
      var (rest, st2) := FmtElements(heap, items[1..], pretty, colored, inner, st1);
      GrowsTransitive(st, st1, st2);
      ([text] + rest, st2)
  }

  /** One entry of `formatObject` after the value's text: `key: text`, or `'key' => text` in a Map. */
  function EntryText(key: string, isMap: bool, text: string): string {
    if isMap then "'" + key + "' => " + text else key + ": " + text
  }

  /**
   * One entry of `formatObject`: an entry whose value is tracked already is
   * `key: [Circular refN]` (in a Map too); the others render their value one
   * level deeper.
   */
  function EntryStep(heap: Heap, key: string, v: Value, isMap: bool, pretty: bool, colored: bool, inner: nat,
                     st: Tracker): (r: (string, Tracker))
    requires Closed(heap) && ValueIn(heap, v)
    ensures Grows(st, r.1)
    ensures Sound(heap, st) ==> Sound(heap, r.1)
    decreases Untracked(heap, st), 2, 1
  {
    if v.Ref? && v.id in st.cache then (key + ": " + CircularText(Position(st.cache, v.id), colored), MarkCircular(st, v.id))
    else
      var (t, st1) := FmtAny(heap, v, pretty, colored, inner + 1, st);
      (EntryText(key, isMap, t), st1)
  }

  /** The loop of `formatObject`: the entries in order, the tracker threaded through. */
  function FmtEntries(heap: Heap, entries: seq<(string, Value)>, isMap: bool, pretty: bool, colored: bool, inner: nat,
                      st: Tracker): (r: (seq<string>, Tracker))
    requires Closed(heap) && EntriesIn(heap, entries)
    ensures Grows(st, r.1) && |r.0| == |entries|
    ensures Sound(heap, st) ==> Sound(heap, r.1)
    decreases Untracked(heap, st), 3, |entries|
  {
    if |entries| == 0 then ([], st)
    else
      var (text, st1) := EntryStep(heap, entries[0].0, entries[0].1, isMap, pretty, colored, inner, st);
      UntrackedShrinks(heap, st, st1);
      var (rest, st2) := FmtEntries(heap, entries[1..], isMap, pretty, colored, inner, st1);
      GrowsTransitive(st, st1, st2);
      ([text] + rest, st2)
  }

  /** Formatting `[v] + rest` is one step for `v`, then the rest from the state that step leaves. */
  lemma ElementsCons(heap: Heap, v: Value, rest: seq<Value>, pretty: bool, colored: bool, inner: nat, st: Tracker,
                     text: string, st1: Tracker, texts: seq<string>, st2: Tracker)
    requires Closed(heap) && ValueIn(heap, v) && ItemsIn(heap, rest)
    requires ElementStep(heap, v, pretty, colored, inner, st) == (text, st1)
    requires FmtElements(heap, rest, pretty, colored, inner, st1) == (texts, st2)
    ensures ItemsIn(heap, [v] + rest)
    ensures FmtElements(heap, [v] + rest, pretty, colored, inner, st) == ([text] + texts, st2)
  {
    assert ([v] + rest)[0] == v;
    assert ([v] + rest)[1..] == rest;
    assert ItemsIn(heap, [v] + rest) by {
      forall i | 0 <= i < |[v] + rest|
        ensures ValueIn(heap, ([v] + rest)[i])
      {
        if i > 0 {
          assert ([v] + rest)[i] == rest[i - 1];
        }
      }
    }
  }

  /** Formatting one more element continues from the state the elements before it left. */
  lemma {:induction false} ElementsSnoc(heap: Heap, items: seq<Value>, v: Value, pretty: bool, colored: bool, inner: nat,
                                        st: Tracker)
    requires Closed(heap) && ItemsIn(heap, items) && ValueIn(heap, v)
    ensures var before := FmtElements(heap, items, pretty, colored, inner, st);
            var last := ElementStep(heap, v, pretty, colored, inner, before.1);
            FmtElements(heap, items + [v], pretty, colored, inner, st) == (before.0 + [last.0], last.1)
    decreases |items|
  {
    if |items| == 0 {
      assert items + [v] == [v] + [];
      var last := ElementStep(heap, v, pretty, colored, inner, st);
      assert FmtElements(heap, [], pretty, colored, inner, last.1) == ([], last.1);
      ElementsCons(heap, v, [], pretty, colored, inner, st, last.0, last.1, [], last.1);
      assert FmtElements(heap, items, pretty, colored, inner, st) == ([], st);
      assert [last.0] + [] == [] + [last.0];
    } else {
      var tail := items[1..];
      assert items == [items[0]] + tail;
      assert items + [v] == [items[0]] + (tail + [v]);
      ItemsTailSnoc(heap, items, v);
      var first := ElementStep(heap, items[0], pretty, colored, inner, st);
      ElementsSnoc(heap, tail, v, pretty, colored, inner, first.1);
      var rest := FmtElements(heap, tail, pretty, colored, inner, first.1);
      var last := ElementStep(heap, v, pretty, colored, inner, rest.1);
      ElementsCons(heap, items[0], tail, pretty, colored, inner, st, first.0, first.1, rest.0, rest.1);
      assert FmtElements(heap, tail + [v], pretty, colored, inner, first.1) == (rest.0 + [last.0], last.1);
      ElementsCons(heap, items[0], tail + [v], pretty, colored, inner, st, first.0, first.1, rest.0 + [last.0], last.1);
      assert FmtElements(heap, items + [v], pretty, colored, inner, st) == ([first.0] + (rest.0 + [last.0]), last.1);
      assert [first.0] + (rest.0 + [last.0]) == ([first.0] + rest.0) + [last.0];
    }
  }

  /** `FmtEntries` on a non-empty list: the first entry's step, then the rest from the state it left. */
  lemma EntriesCons(heap: Heap, e: (string, Value), entries: seq<(string, Value)>, isMap: bool, pretty: bool,
                    colored: bool, inner: nat, st: Tracker)
    requires Closed(heap) && ValueIn(heap, e.1) && EntriesIn(heap, entries)
    ensures EntriesIn(heap, [e] + entries)
    ensures var first := EntryStep(heap, e.0, e.1, isMap, pretty, colored, inner, st);
            var rest := FmtEntries(heap, entries, isMap, pretty, colored, inner, first.1);
            FmtEntries(heap, [e] + entries, isMap, pretty, colored, inner, st) == ([first.0] + rest.0, rest.1)
  {
    assert ([e] + entries)[0] == e;
    assert ([e] + entries)[1..] == entries;
    assert EntriesIn(heap, [e] + entries) by {
      forall i | 0 <= i < |[e] + entries|
        ensures ValueIn(heap, ([e] + entries)[i].1)
      {
        if i > 0 {
          assert ([e] + entries)[i] == entries[i - 1];
        }
      }
    }
  }

  /** Formatting one more entry continues from the state the entries before it left. */
  lemma {:induction false} EntriesSnoc(heap: Heap, entries: seq<(string, Value)>, key: string, v: Value, isMap: bool,
                                       pretty: bool, colored: bool, inner: nat, st: Tracker)
    requires Closed(heap) && EntriesIn(heap, entries) && ValueIn(heap, v)
    ensures var before := FmtEntries(heap, entries, isMap, pretty, colored, inner, st);
            var last := EntryStep(heap, key, v, isMap, pretty, colored, inner, before.1);
            FmtEntries(heap, entries + [(key, v)], isMap, pretty, colored, inner, st) == (before.0 + [last.0], last.1)
    decreases |entries|
  {
    if |entries| == 0 {
      assert entries + [(key, v)] == [(key, v)] + [];
      EntriesCons(heap, (key, v), [], isMap, pretty, colored, inner, st);
      var last := EntryStep(heap, key, v, isMap, pretty, colored, inner, st);
      assert FmtEntries(heap, [], isMap, pretty, colored, inner, last.1) == ([], last.1);
      assert FmtEntries(heap, entries, isMap, pretty, colored, inner, st) == ([], st);
      assert [last.0] + [] == [] + [last.0];
    } else {
      var tail := entries[1..];
      assert entries == [entries[0]] + tail;
      assert entries + [(key, v)] == [entries[0]] + (tail + [(key, v)]);
      EntriesTailSnoc(heap, entries, (key, v));
      var first := EntryStep(heap, entries[0].0, entries[0].1, isMap, pretty, colored, inner, st);
      EntriesSnoc(heap, tail, key, v, isMap, pretty, colored, inner, first.1);
      var rest := FmtEntries(heap, tail, isMap, pretty, colored, inner, first.1);
      var last := EntryStep(heap, key, v, isMap, pretty, colored, inner, rest.1);
      EntriesCons(heap, entries[0], tail, isMap, pretty, colored, inner, st);
      assert FmtEntries(heap, tail + [(key, v)], isMap, pretty, colored, inner, first.1) == (rest.0 + [last.0], last.1);
      EntriesCons(heap, entries[0], tail + [(key, v)], isMap, pretty, colored, inner, st);
      assert FmtEntries(heap, entries + [(key, v)], isMap, pretty, colored, inner, st) ==
             ([first.0] + (rest.0 + [last.0]), last.1);
      assert [first.0] + (rest.0 + [last.0]) == ([first.0] + rest.0) + [last.0];
    }
  }

  /** `formatAny(v, pretty, colored)` with its default depth 0 and a new tracker, as the appenders call it. */
  function FormatValue(heap: Heap, v: Value, pretty: bool, colored: bool): (r: string)
    requires Closed(heap) && ValueIn(heap, v)
    ensures IsBare(v) ==> r == BareText(v)
  {
    FmtAny(heap, v, pretty, colored, 0, NoneTracked).0
  }

  // ------------------------------------------------------------- methods

  /** `getAllEntries(obj)`: a Map's entries, or the while loop over the prototype chain. */
  method GetAllEntries(n: Node) returns (entries: seq<(string, Value)>)
    requires n.MapNode? || n.ObjectNode?
    ensures entries == AllEntries(n)
  {
    if n.MapNode? {
      return n.entries;
    }
    entries := [];
    var k := 0;
    while k < |n.levels|
      invariant 0 <= k <= |n.levels|
      invariant entries == ChainEntries(n.levels[..k])
    {
      var level := n.levels[k];
      var j := 0;
      while j < |level|
        invariant 0 <= j <= |level|
        invariant entries == ChainEntries(n.levels[..k]) + LevelEntries(level[..j])
      {
        assert level[..j + 1][..j] == level[..j];
        entries := entries + [(level[j].0, Resolve(level[j].1))];
        j := j + 1;
      }
      assert level[..j] == level;
      assert n.levels[..k + 1][..k] == n.levels[..k];
      k := k + 1;
    }
    assert n.levels[..k] == n.levels;
  }

  /** `formatAny`. */
  method FormatAny(heap: Heap, v: Value, pretty: bool, colored: bool, inner: nat, ct: CircularTracker) returns (s: string)
    requires Closed(heap) && ValueIn(heap, v) && (v.Ref? ==> v.id !in ct.cache)
    modifies ct
    ensures (s, ct.State()) == FmtAny(heap, v, pretty, colored, inner, old(ct.State()))
    decreases Untracked(heap, ct.State()), 2
  {
    if inner == 0 && IsBare(v) {
      return BareText(v);
    }
    if v.Fn? {
      if IsClass(v.f) {
        var hierarchy := GetClassHierarchy(v);
        s := if colored then Paint(DarkMagenta, hierarchy) else hierarchy;
      } else {
        s := FunctionText(v.f, colored);
      }
    } else if v.Ref? {
      if heap[v.id].ArrayNode? {
        s := FormatArrayLike(heap, v.id, pretty, colored, inner, ct);
      } else {
        s := FormatObject(heap, v.id, pretty, colored, inner, ct);
      }
    } else {
      s := PrimitiveText(v, colored);
    }
  }

  /** `formatObject`. */
  method FormatObject(heap: Heap, id: Id, pretty: bool, colored: bool, inner: nat, ct: CircularTracker) returns (s: string)
    requires Closed(heap) && id in heap && !heap[id].ArrayNode? && id !in ct.cache
    modifies ct
    ensures (s, ct.State()) == FmtObject(heap, id, pretty, colored, inner, old(ct.State()))
    decreases Untracked(heap, ct.State()), 1
  {
    var n := heap[id];
    if n.SetNode? {
      s := FormatArrayLike(heap, id, pretty, colored, inner, ct);
      return;
    }
    ghost var st0 := ct.State();
    var error := ct.Add(id);
    ghost var st1 := ct.State();
    assert st1 == AddTracked(st0, id);
    AddTrackedPositions(st0, id);
    UntrackedAfterAdd(heap, st0, id);
    var entries := GetAllEntries(n);
    AllEntriesIn(heap, n);
    var results := FormatEntries(heap, entries, n.MapNode?, pretty, colored, inner, ct);
    var ref := "";
    if ct.IsCircular(id) {
      ref := "<ref" + NatToString(ct.IndexOf(id)) + ">";
    }
    s := ObjectText(n, ref, results, pretty, inner);
  }

  /** `formatArrayLike`. */
  method FormatArrayLike(heap: Heap, id: Id, pretty: bool, colored: bool, inner: nat, ct: CircularTracker) returns (s: string)
    requires Closed(heap) && id in heap && (heap[id].ArrayNode? || heap[id].SetNode?) && id !in ct.cache
    modifies ct
    ensures (s, ct.State()) == FmtArrayLike(heap, id, pretty, colored, inner, old(ct.State()))
    decreases Untracked(heap, ct.State()), 0
  {
    var n := heap[id];
    ghost var st0 := ct.State();
    var error := ct.Add(id);
    ghost var st1 := ct.State();
    assert st1 == AddTracked(st0, id);
    AddTrackedPositions(st0, id);
    UntrackedAfterAdd(heap, st0, id);
    var items := if n.ArrayNode? then n.items else n.members;
    assert NodeIn(heap, n);
    var results := FormatItems(heap, items, pretty, colored, inner, ct);
    var ref := "";
    if ct.IsCircular(id) {
      ref := "<ref" + NatToString(ct.IndexOf(id)) + ">";
    }
    s := ArrayLikeText(n, ref, results, pretty, inner);
  }

  /** The loop of `formatArrayLike` over the elements. */
  method FormatItems(heap: Heap, items: seq<Value>, pretty: bool, colored: bool, inner: nat, ct: CircularTracker)
    returns (results: seq<string>)
    requires Closed(heap) && ItemsIn(heap, items)
    modifies ct
    ensures (results, ct.State()) == FmtElements(heap, items, pretty, colored, inner, old(ct.State()))
    decreases Untracked(heap, ct.State()), 5
  {
    ghost var st1 := ct.State();
    results := [];
    var i := 0;
    ItemsPrefix(heap, items, 0);
    while i < |items|
      invariant 0 <= i <= |items|
      invariant (results, ct.State()) == FmtElements(heap, items[..i], pretty, colored, inner, st1)
    {
      results := FormatItemsStep(heap, items, i, pretty, colored, inner, ct, st1, results);
      i := i + 1;
    }
    assert items[..i] == items;
  }

  /** One turn of the loop of `formatArrayLike`: element `i` formatted after the elements before it. */
  method FormatItemsStep(heap: Heap, items: seq<Value>, i: nat, pretty: bool, colored: bool, inner: nat, ct: CircularTracker,
                         ghost st1: Tracker, results: seq<string>) returns (results2: seq<string>)
    requires Closed(heap) && ItemsIn(heap, items) && i < |items|
    requires (results, ct.State()) == FmtElements(heap, items[..i], pretty, colored, inner, st1)
    modifies ct
    ensures (results2, ct.State()) == FmtElements(heap, items[..i + 1], pretty, colored, inner, st1)
    decreases Untracked(heap, ct.State()), 4
  {
    var elem := items[i];
    ItemsPrefix(heap, items, i);
    assert items[..i + 1] == items[..i] + [elem];
    ElementsSnoc(heap, items[..i], elem, pretty, colored, inner, st1);
    UntrackedShrinks(heap, st1, ct.State());
    var text := FormatElement(heap, elem, pretty, colored, inner, ct);
    results2 := results + [text];
  }

  /** The loop of `formatObject` over the entries. */
  method FormatEntries(heap: Heap, entries: seq<(string, Value)>, isMap: bool, pretty: bool, colored: bool, inner: nat,
                       ct: CircularTracker) returns (results: seq<string>)
    requires Closed(heap) && EntriesIn(heap, entries)
    modifies ct
    ensures (results, ct.State()) == FmtEntries(heap, entries, isMap, pretty, colored, inner, old(ct.State()))
    decreases Untracked(heap, ct.State()), 5
  {
    ghost var st1 := ct.State();
    results := [];
    var i := 0;
    EntriesPrefix(heap, entries, 0);
    while i < |entries|
      invariant 0 <= i <= |entries|
      invariant (results, ct.State()) == FmtEntries(heap, entries[..i], isMap, pretty, colored, inner, st1)
    {
      results := FormatEntriesStep(heap, entries, i, isMap, pretty, colored, inner, ct, st1, results);
      i := i + 1;
    }
    assert entries[..i] == entries;
  }

  /** One turn of the loop of `formatObject`: entry `i` formatted after the entries before it. */
  method FormatEntriesStep(heap: Heap, entries: seq<(string, Value)>, i: nat, isMap: bool, pretty: bool, colored: bool,
                           inner: nat, ct: CircularTracker, ghost st1: Tracker, results: seq<string>)
    returns (results2: seq<string>)
    requires Closed(heap) && EntriesIn(heap, entries) && i < |entries|
    requires (results, ct.State()) == FmtEntries(heap, entries[..i], isMap, pretty, colored, inner, st1)
    modifies ct
    ensures (results2, ct.State()) == FmtEntries(heap, entries[..i + 1], isMap, pretty, colored, inner, st1)
    decreases Untracked(heap, ct.State()), 4
  {
    var (key, elem) := entries[i];
    EntriesPrefix(heap, entries, i);
    assert entries[..i + 1] == entries[..i] + [(key, elem)];
    EntriesSnoc(heap, entries[..i], key, elem, isMap, pretty, colored, inner, st1);
    UntrackedShrinks(heap, st1, ct.State());
    var text := FormatEntry(heap, key, elem, isMap, pretty, colored, inner, ct);
    results2 := results + [text];
  }

  /** The body of the loop of `formatArrayLike` for one element. */
  method FormatElement(heap: Heap, elem: Value, pretty: bool, colored: bool, inner: nat, ct: CircularTracker) returns (text: string)
    requires Closed(heap) && ValueIn(heap, elem)
    modifies ct
    ensures (text, ct.State()) == ElementStep(heap, elem, pretty, colored, inner, old(ct.State()))
    decreases Untracked(heap, ct.State()), 3
  {
    if elem.Ref? && ct.Has(elem.id) {
      ct.SetAsCircular(elem.id);
      var ref := ct.IndexOf(elem.id);
      text := CircularText(ref, colored);
    } else {
      text := FormatAny(heap, elem, pretty, colored, inner + 1, ct);
    }
  }

  /** The body of the loop of `formatObject` for one entry. */
  method FormatEntry(heap: Heap, key: string, elem: Value, isMap: bool, pretty: bool, colored: bool, inner: nat,
                     ct: CircularTracker) returns (text: string)
    requires Closed(heap) && ValueIn(heap, elem)
    modifies ct
    ensures (text, ct.State()) == EntryStep(heap, key, elem, isMap, pretty, colored, inner, old(ct.State()))
    decreases Untracked(heap, ct.State()), 3
  {
    if elem.Ref? && ct.Has(elem.id) {
      ct.SetAsCircular(elem.id);
      var ref := ct.IndexOf(elem.id);
      text := key + ": " + CircularText(ref, colored);
    } else {
      var t := FormatAny(heap, elem, pretty, colored, inner + 1, ct);
      text := EntryText(key, isMap, t);
    }
  }
}
