/**
 * Properties of the value formatter of lib/utils.ts: how functions are
 * shown, the pretty layout, and the rendering of cycles and of shared
 * references on small heaps.
 */
module FormatterFacts {
  import opened Wrappers
  import opened Text
  import opened Ansi
  import opened Values
  import opened Tracking
  import opened Formatter

  // ------------------------------------------------------------- functions

  /**
   * `shown` is what a function's text shows of its source: the longest
   * prefix without a line break, cut at 100 characters.
   */
  predicate ShownLine(source: string, shown: string) {
    StartsWith(source, shown) && '\n' !in shown && |shown| <= 100 &&
    (|shown| < 100 && |shown| < |source| ==> source[|shown|] == '\n')
  }

  /** The shown part is exactly `Prefix(FirstLine(source), 100)`. */
  lemma {:induction false} ShownLineIsCutFirstLine(source: string, shown: string)
    requires ShownLine(source, shown)
    ensures shown == Prefix(FirstLine(source), 100)
    ensures ('\n' in source || |FirstLine(source)| > 100) <==> |shown| < |source|
  {
    var first := FirstLine(source);
    var m := if |first| < 100 then |first| else 100;
    assert shown == source[..m];
    assert Prefix(first, 100) == first[..m] == source[..m];
    if '\n' in source {
      var k :| 0 <= k < |source| && source[k] == '\n';
    }
    if |shown| < |source| && |first| <= 100 {
      assert |shown| == |first|;
      assert source[|first|] == '\n';
    }
  }

  /**
   * A function that is not a class renders as `[Function <shown>]`, with
   * '...' before the bracket exactly when the source goes on after the
   * shown part (a further line, or a first line over 100 characters).
   */
  lemma FunctionTextShape(f: Callable, colored: bool, shown: string)
    requires ShownLine(f.source, shown)
    ensures FunctionText(f, colored) ==
            (if colored then "[" + Paint(Blue, "Function") else "[Function") + " " + shown +
            (if |shown| < |f.source| then "..." else "") + "]"
  {
    ShownLineIsCutFirstLine(f.source, shown);
  }

  // ---------------------------------------------------------- pretty layout

  /** Every text of `results`, indented by `depth` levels. */
  function IndentAll(results: seq<string>, depth: nat): (r: seq<string>)
    ensures |r| == |results|
    ensures forall i :: 0 <= i < |results| ==> r[i] == Indent(depth) + results[i]
  {
    seq(|results|, i requires 0 <= i < |results| => Indent(depth) + results[i])
  }

  /** Joining with "separator + indent" after one indent is joining the indented texts. */
  lemma {:induction false} JoinIndented(results: seq<string>, sep: string, pad: string)
    requires |results| > 0
    ensures pad + Join(results, sep + pad) ==
            Join(seq(|results|, i requires 0 <= i < |results| => pad + results[i]), sep)
    decreases |results|
  {
    var padded := seq(|results|, i requires 0 <= i < |results| => pad + results[i]);
    if |results| > 1 {
      var tail := seq(|results| - 1, i requires 0 <= i < |results| - 1 => pad + results[1..][i]);
      JoinIndented(results[1..], sep, pad);
      assert padded[1..] == tail;
      calc {
        pad + Join(results, sep + pad);
        pad + (results[0] + (sep + pad) + Join(results[1..], sep + pad));
        (pad + results[0]) + sep + (pad + Join(results[1..], sep + pad));
        padded[0] + sep + Join(padded[1..], sep);
        Join(padded, sep);
      }
    }
  }

  /**
   * The pretty layout of a non-empty container: the opening bracket, then
   * each element on a line of its own at depth `inner + 1`, separated by
   * commas, then the closing bracket on a line at depth `inner`.
   */
  lemma PrettyLayout(mark: string, open: string, close: string, results: seq<string>, inner: nat)
    requires |results| > 0
    ensures PrettyBlock(mark, open, close, results, inner) ==
            (if mark == "" then "" else Paint(Blue, mark)) + open + "\n" +
            Join(IndentAll(results, inner + 1), ",\n") + "\n" + Indent(inner) + close
  {
    JoinIndented(results, ",\n", Indent(inner + 1));
    assert IndentAll(results, inner + 1) ==
           seq(|results|, i requires 0 <= i < |results| => Indent(inner + 1) + results[i]);
  }

  /** Each indent level is two spaces. */
  lemma IndentWidth(depth: nat)
    ensures |Indent(depth)| == 2 * depth
    ensures forall i :: 0 <= i < |Indent(depth)| ==> Indent(depth)[i] == ' '
  {
  }

  // ----------------------------------------------------------------- cycles

  /** The array of the cycle test: `[1, 'Test', true, <itself>]`, stored at id 1. */
  function CyclicHeap(): Heap {
    map[1 := ArrayNode([Num(1), Str("Test"), Bool(true), Ref(1)])]
  }

  lemma CyclicHeapClosed()
    ensures Closed(CyclicHeap())
  {
    var heap := CyclicHeap();
    forall id | id in heap
      ensures NodeIn(heap, heap[id])
    {
      assert id == 1;
    }
  }

  /** An element formatted already stands for its position in the tracker and gets marked. */
  lemma CircularStep(heap: Heap, id: Id, pretty: bool, colored: bool, inner: nat, st: Tracker)
    requires Closed(heap) && id in heap && id in st.cache
    ensures ElementStep(heap, Ref(id), pretty, colored, inner, st) ==
            (CircularText(Position(st.cache, id), colored), MarkCircular(st, id))
  {
    assert ValueIn(heap, Ref(id));
  }

  /** A primitive element is its nested text and leaves the tracker alone. */
  lemma PrimitiveStep(heap: Heap, v: Value, pretty: bool, colored: bool, inner: nat, st: Tracker)
    requires Closed(heap) && !v.Ref? && !v.Fn?
    ensures ElementStep(heap, v, pretty, colored, inner, st) == (PrimitiveText(v, colored), st)
  {
  }

  /** A reference to an array that is not tracked yet is formatted by `formatArrayLike`. */
  lemma ArrayReference(heap: Heap, id: Id, pretty: bool, colored: bool, inner: nat, st: Tracker,
                       results: seq<string>, st2: Tracker)
    requires Closed(heap) && id in heap && heap[id].ArrayNode? && id !in st.cache
    requires ItemsIn(heap, heap[id].items)
    requires FmtElements(heap, heap[id].items, pretty, colored, inner, AddTracked(st, id)) == (results, st2)
    ensures FmtAny(heap, Ref(id), pretty, colored, inner, st) ==
            (ArrayLikeText(heap[id], RefMark(st2, id), results, pretty, inner), st2)
  {
    assert FmtAny(heap, Ref(id), pretty, colored, inner, st) == FmtArrayLike(heap, id, pretty, colored, inner, st);
  }

  /** The last element of the cyclic array is the back-reference to the array. */
  lemma CyclicLast()
    ensures Closed(CyclicHeap())
    ensures FmtElements(CyclicHeap(), [Ref(1)], false, false, 0, Tracker([1], {})) ==
            (["[Circular ref1]"], Tracker([1], {1}))
  {
    CyclicHeapClosed();
    var heap := CyclicHeap();
    var st := Tracker([1], {});
    var done := Tracker([1], {1});
    CircularStep(heap, 1, false, false, 0, st);
    assert Position([1], 1) == 1;
    assert CircularText(1, false) == "[Circular ref1]";
    assert MarkCircular(st, 1) == done;
    assert FmtElements(heap, [], false, false, 0, done) == ([], done);
    ElementsCons(heap, Ref(1), [], false, false, 0, st, "[Circular ref1]", done, [], done);
    assert [Ref(1)] + [] == [Ref(1)];
    assert ["[Circular ref1]"] + [] == ["[Circular ref1]"];
  }

  lemma CyclicLastTwo()
    ensures Closed(CyclicHeap())
    ensures FmtElements(CyclicHeap(), [Bool(true), Ref(1)], false, false, 0, Tracker([1], {})) ==
            (["true", "[Circular ref1]"], Tracker([1], {1}))
  {
    CyclicLast();
    var heap := CyclicHeap();
    var st := Tracker([1], {});
    PrimitiveStep(heap, Bool(true), false, false, 0, st);
    assert PrimitiveText(Bool(true), false) == "true";
    ElementsCons(heap, Bool(true), [Ref(1)], false, false, 0, st, "true", st, ["[Circular ref1]"], Tracker([1], {1}));
    assert [Bool(true)] + [Ref(1)] == [Bool(true), Ref(1)];
    assert ["true"] + ["[Circular ref1]"] == ["true", "[Circular ref1]"];
  }

  lemma CyclicLastThree()
    ensures Closed(CyclicHeap())
    ensures FmtElements(CyclicHeap(), [Str("Test"), Bool(true), Ref(1)], false, false, 0, Tracker([1], {})) ==
            (["'Test'", "true", "[Circular ref1]"], Tracker([1], {1}))
  {
    CyclicLastTwo();
    var heap := CyclicHeap();
    var st := Tracker([1], {});
    PrimitiveStep(heap, Str("Test"), false, false, 0, st);
    assert PrimitiveText(Str("Test"), false) == "'Test'";
    ElementsCons(heap, Str("Test"), [Bool(true), Ref(1)], false, false, 0, st, "'Test'", st,
                 ["true", "[Circular ref1]"], Tracker([1], {1}));
    assert [Str("Test")] + [Bool(true), Ref(1)] == [Str("Test"), Bool(true), Ref(1)];
    assert ["'Test'"] + ["true", "[Circular ref1]"] == ["'Test'", "true", "[Circular ref1]"];
  }

  /** The elements of the cyclic array after it was entered: three primitives, then the back-reference. */
  lemma CyclicElements()
    ensures Closed(CyclicHeap())
    ensures ItemsIn(CyclicHeap(), [Num(1), Str("Test"), Bool(true), Ref(1)])
    ensures FmtElements(CyclicHeap(), [Num(1), Str("Test"), Bool(true), Ref(1)], false, false, 0, Tracker([1], {})) ==
            (["1", "'Test'", "true", "[Circular ref1]"], Tracker([1], {1}))
  {
    CyclicLastThree();
    var heap := CyclicHeap();
    var st := Tracker([1], {});
    PrimitiveStep(heap, Num(1), false, false, 0, st);
    assert PrimitiveText(Num(1), false) == "1";
    ElementsCons(heap, Num(1), [Str("Test"), Bool(true), Ref(1)], false, false, 0, st, "1", st,
                 ["'Test'", "true", "[Circular ref1]"], Tracker([1], {1}));
    assert [Num(1)] + [Str("Test"), Bool(true), Ref(1)] == [Num(1), Str("Test"), Bool(true), Ref(1)];
    assert ["1"] + ["'Test'", "true", "[Circular ref1]"] == ["1", "'Test'", "true", "[Circular ref1]"];
  }

  lemma CyclicJoinText()
    ensures "1" + ", " + ("'Test'" + ", " + ("true" + ", " + "[Circular ref1]")) == "1, 'Test', true, [Circular ref1]"
  {
  }

  lemma CyclicJoin()
    ensures Join(["1", "'Test'", "true", "[Circular ref1]"], ", ") == "1, 'Test', true, [Circular ref1]"
  {
    var parts := ["1", "'Test'", "true", "[Circular ref1]"];
    assert parts[1..][1..][1..] == ["[Circular ref1]"];
    assert Join(parts[1..][1..], ", ") == "true" + ", " + "[Circular ref1]";
    assert Join(parts[1..], ", ") == "'Test'" + ", " + ("true" + ", " + "[Circular ref1]");
    assert Join(parts, ", ") == "1" + ", " + ("'Test'" + ", " + ("true" + ", " + "[Circular ref1]"));
    CyclicJoinText();
  }

  lemma CyclicMark()
    ensures RefMark(Tracker([1], {1}), 1) == "<ref1>"
  {
    assert Position([1], 1) == 1;
    assert NatToString(1) == "1";
  }

  lemma CyclicArrayText()
    ensures "<ref1>" + "[ " + "1, 'Test', true, [Circular ref1]" + " ]" == "<ref1>[ 1, 'Test', true, [Circular ref1] ]"
  {
  }

  /** The texts the cyclic example is assembled from. */
  lemma CyclicTexts()
    ensures RefMark(Tracker([1], {1}), 1) == "<ref1>"
    ensures ArrayLikeText(ArrayNode([Num(1), Str("Test"), Bool(true), Ref(1)]), "<ref1>",
                          ["1", "'Test'", "true", "[Circular ref1]"], false, 0) ==
            "<ref1>[ 1, 'Test', true, [Circular ref1] ]"
  {
    CyclicMark();
    CyclicJoin();
    assert ArrayLikeText(ArrayNode([Num(1), Str("Test"), Bool(true), Ref(1)]), "<ref1>",
                         ["1", "'Test'", "true", "[Circular ref1]"], false, 0) ==
           "<ref1>" + "[ " + "1, 'Test', true, [Circular ref1]" + " ]";
    CyclicArrayText();
  }

  /**
   * An array holding itself renders its back-reference as `[Circular ref1]`
   * and is itself marked `<ref1>`.
   */
  lemma CyclicArrayExample()
    ensures Closed(CyclicHeap())
    ensures FormatValue(CyclicHeap(), Ref(1), false, false) == "<ref1>[ 1, 'Test', true, [Circular ref1] ]"
  {
    CyclicElements();
    var heap := CyclicHeap();
    var results := ["1", "'Test'", "true", "[Circular ref1]"];
    var done := Tracker([1], {1});
    assert AddTracked(NoneTracked, 1) == Tracker([1], {});
    ArrayReference(heap, 1, false, false, 0, NoneTracked, results, done);
    CyclicTexts();
    assert ArrayLikeText(heap[1], "<ref1>", results, false, 0) == "<ref1>[ 1, 'Test', true, [Circular ref1] ]";
  }

  /** Two references to one empty array, neither of them cyclic. */
  function SharedHeap(): Heap {
    map[1 := ArrayNode([Ref(2), Ref(2)]), 2 := ArrayNode([])]
  }

  lemma SharedHeapClosed()
    ensures Closed(SharedHeap())
  {
    var heap := SharedHeap();
    forall id | id in heap
      ensures NodeIn(heap, heap[id])
    {
      assert id == 1 || id == 2;
    }
  }

  /** The first reference enters the empty array, which renders `[  ]`. */
  lemma SharedFirstVisit()
    ensures Closed(SharedHeap())
    ensures ElementStep(SharedHeap(), Ref(2), false, false, 0, Tracker([1], {})) == ("[  ]", Tracker([1, 2], {}))
  {
    SharedHeapClosed();
    var heap := SharedHeap();
    var st1 := Tracker([1], {});
    var st2 := Tracker([1, 2], {});
    assert AddTracked(st1, 2) == st2;
    assert FmtElements(heap, [], false, false, 1, st2) == ([], st2);
    assert RefMark(st2, 2) == "";
    assert ArrayLikeText(heap[2], "", [], false, 1) == "[  ]";
    assert FmtArrayLike(heap, 2, false, false, 1, st1) == ("[  ]", st2);
  }

  /** The second reference finds the array tracked already. */
  lemma SharedSecondVisit()
    ensures Closed(SharedHeap())
    ensures FmtElements(SharedHeap(), [Ref(2)], false, false, 0, Tracker([1, 2], {})) ==
            (["[Circular ref2]"], Tracker([1, 2], {2}))
  {
    SharedHeapClosed();
    var heap := SharedHeap();
    var st2 := Tracker([1, 2], {});
    var done := Tracker([1, 2], {2});
    assert Position([1, 2], 2) == 2;
    assert CircularText(2, false) == "[Circular ref2]";
    assert MarkCircular(st2, 2) == done;
    CircularStep(heap, 2, false, false, 0, st2);
    assert FmtElements(heap, [], false, false, 0, done) == ([], done);
    ElementsCons(heap, Ref(2), [], false, false, 0, st2, "[Circular ref2]", done, [], done);
    assert [Ref(2)] + [] == [Ref(2)];
    assert ["[Circular ref2]"] + [] == ["[Circular ref2]"];
  }

  /**
   * The tracker never forgets: the second of two references to the same
   * array is rendered `[Circular ref2]` although the graph has no cycle;
   * the shared array is marked circular in the final state.
   */
  lemma SharedReferenceShownAsCircular()
    ensures Closed(SharedHeap())
    ensures FmtAny(SharedHeap(), Ref(1), false, false, 0, NoneTracked) ==
            ("[ [  ], [Circular ref2] ]", Tracker([1, 2], {2}))
  {
    SharedFirstVisit();
    SharedSecondVisit();
    var heap := SharedHeap();
    var st1 := Tracker([1], {});
    var done := Tracker([1, 2], {2});
    ElementsCons(heap, Ref(2), [Ref(2)], false, false, 0, st1, "[  ]", Tracker([1, 2], {}), ["[Circular ref2]"], done);
    assert [Ref(2)] + [Ref(2)] == [Ref(2), Ref(2)];
    assert ["[  ]"] + ["[Circular ref2]"] == ["[  ]", "[Circular ref2]"];
    assert AddTracked(NoneTracked, 1) == st1;
    ArrayReference(heap, 1, false, false, 0, NoneTracked, ["[  ]", "[Circular ref2]"], done);
    SharedTexts();
  }

  lemma SharedArrayText()
    ensures "" + "[ " + ("[  ]" + ", " + "[Circular ref2]") + " ]" == "[ [  ], [Circular ref2] ]"
  {
  }

  /** The texts the shared-reference example is assembled from. */
  lemma SharedTexts()
    ensures RefMark(Tracker([1, 2], {2}), 1) == ""
    ensures ArrayLikeText(ArrayNode([Ref(2), Ref(2)]), "", ["[  ]", "[Circular ref2]"], false, 0) ==
            "[ [  ], [Circular ref2] ]"
  {
    var parts := ["[  ]", "[Circular ref2]"];
    assert parts[1..] == ["[Circular ref2]"];
    assert Join(parts, ", ") == "[  ]" + ", " + "[Circular ref2]";
    assert ArrayLikeText(ArrayNode([Ref(2), Ref(2)]), "", parts, false, 0) ==
           "" + "[ " + ("[  ]" + ", " + "[Circular ref2]") + " ]";
    SharedArrayText();
  }

  // ------------------------------------------------------- object cycles

  /**
   * A reference to an object or a Map that is not tracked yet is formatted
   * by `formatObject`: it is tracked before its entries, and it carries the
   * mark `<refN>` exactly when an entry below it met it again.
   */
  lemma ObjectReference(heap: Heap, id: Id, pretty: bool, colored: bool, inner: nat, st: Tracker,
                        results: seq<string>, st2: Tracker)
    requires Closed(heap) && id in heap && (heap[id].ObjectNode? || heap[id].MapNode?) && id !in st.cache
    requires EntriesIn(heap, AllEntries(heap[id]))
    requires FmtEntries(heap, AllEntries(heap[id]), heap[id].MapNode?, pretty, colored, inner, AddTracked(st, id)) ==
             (results, st2)
    ensures FmtAny(heap, Ref(id), pretty, colored, inner, st) ==
            (ObjectText(heap[id], RefMark(st2, id), results, pretty, inner), st2)
    ensures |st2.cache| > |st.cache| && st2.cache[|st.cache|] == id
    ensures RefMark(st2, id) != "" <==> id in st2.circular
  {
    ObjectDispatch(heap, id, pretty, colored, inner, st);
    assert Grows(AddTracked(st, id), st2);
  }

  /** `formatAny` hands an object or a Map to `formatObject`, which goes straight to its entries. */
  lemma ObjectDispatch(heap: Heap, id: Id, pretty: bool, colored: bool, inner: nat, st: Tracker)
    requires Closed(heap) && id in heap && (heap[id].ObjectNode? || heap[id].MapNode?) && id !in st.cache
    ensures EntriesIn(heap, AllEntries(heap[id]))
    ensures var (results, st2) := FmtEntries(heap, AllEntries(heap[id]), heap[id].MapNode?, pretty, colored, inner,
                                             AddTracked(st, id));
            FmtAny(heap, Ref(id), pretty, colored, inner, st) ==
            (ObjectText(heap[id], RefMark(st2, id), results, pretty, inner), st2)
  {
    AllEntriesIn(heap, heap[id]);
    assert FmtAny(heap, Ref(id), pretty, colored, inner, st) == FmtObject(heap, id, pretty, colored, inner, st);
  }

  /**
   * An entry whose value is tracked already stands as `key: [Circular refN]`,
   * in a Map as in an object, and marks that value circular.
   */
  lemma CircularEntryStep(heap: Heap, key: string, id: Id, isMap: bool, pretty: bool, colored: bool, inner: nat,
                          st: Tracker)
    requires Closed(heap) && id in heap && id in st.cache
    ensures EntryStep(heap, key, Ref(id), isMap, pretty, colored, inner, st) ==
            (key + ": " + CircularText(Position(st.cache, id), colored), MarkCircular(st, id))
  {
    assert ValueIn(heap, Ref(id));
  }

  /** An object with one own data property and no prototype before `Object.prototype`. */
  function OneProperty(key: string, v: Value): Node {
    ObjectNode([[(key, DataProperty(v))]])
  }

  lemma OnePropertyEntries(key: string, v: Value)
    ensures AllEntries(OneProperty(key, v)) == [(key, v)]
  {
    var level := [(key, DataProperty(v))];
    var levels := [level];
    assert level[..0] == [];
    assert LevelEntries(level) == [] + [(key, v)];
    assert levels[..0] == [];
    assert ChainEntries(levels) == ChainEntries([]) + LevelEntries(level);
  }

  /**
   * A one-property object renders as `{ key: text }` behind its mark, where
   * the entry's step from the tracker that holds the object gave `text`.
   */
  lemma OnePropertyObject(heap: Heap, id: Id, key: string, v: Value, colored: bool, inner: nat, st: Tracker,
                          text: string, st2: Tracker)
    requires Closed(heap) && id in heap && heap[id] == OneProperty(key, v) && id !in st.cache && ValueIn(heap, v)
    requires EntryStep(heap, key, v, false, false, colored, inner, AddTracked(st, id)) == (text, st2)
    ensures FmtAny(heap, Ref(id), false, colored, inner, st) == (RefMark(st2, id) + "{ " + text + " }", st2)
  {
    OnePropertyEntries(key, v);
    var entries := [(key, v)];
    assert EntriesIn(heap, entries);
    EntriesCons(heap, (key, v), [], false, false, colored, inner, AddTracked(st, id));
    assert FmtEntries(heap, [], false, false, colored, inner, st2) == ([], st2);
    assert [(key, v)] + [] == entries;
    assert [text] + [] == [text];
    assert FmtEntries(heap, entries, false, false, colored, inner, AddTracked(st, id)) == ([text], st2);
    ObjectReference(heap, id, false, colored, inner, st, [text], st2);
    assert Join([text], ", ") == text;
  }

  /**
   * The object cycle of the tests: `parent = { prop: { child } }` with
   * `child = { otherProp: { parent } }`, stored at ids 1 to 4.
   */
  function ObjectCycleHeap(): Heap {
    map[1 := OneProperty("prop", Ref(2)), 2 := OneProperty("child", Ref(3)),
        3 := OneProperty("otherProp", Ref(4)), 4 := OneProperty("parent", Ref(1))]
  }

  lemma ObjectCycleHeapClosed()
    ensures Closed(ObjectCycleHeap())
  {
    var heap := ObjectCycleHeap();
    forall id | id in heap
      ensures NodeIn(heap, heap[id])
    {
      assert id == 1 || id == 2 || id == 3 || id == 4;
    }
  }

  /** The entry of `id` whose value `back` is tracked already, after `id` was added to the tracker. */
  lemma BackReferenceEntry(heap: Heap, id: Id, key: string, back: Id, inner: nat, st: Tracker)
    requires Closed(heap) && back in heap && back in st.cache && id !in st.cache
    ensures EntryStep(heap, key, Ref(back), false, false, false, inner, AddTracked(st, id)) ==
            (key + ": " + CircularText(Position(st.cache, back), false), MarkCircular(AddTracked(st, id), back))
  {
    AddTrackedPositions(st, id);
    CircularEntryStep(heap, key, back, false, false, false, inner, AddTracked(st, id));
  }

  /**
   * A one-property object whose value is tracked already renders as
   * `{ key: [Circular refN] }` and marks that value circular.
   */
  lemma BackReferenceObject(heap: Heap, id: Id, key: string, back: Id, inner: nat, st: Tracker)
    requires Closed(heap) && id in heap && heap[id] == OneProperty(key, Ref(back)) && id !in st.cache
    requires back in heap && back in st.cache && back != id && id !in st.circular
    ensures FmtAny(heap, Ref(id), false, false, inner, st) ==
            ("{ " + key + ": " + CircularText(Position(st.cache, back), false) + " }",
             MarkCircular(AddTracked(st, id), back))
  {
    BackReferenceEntry(heap, id, key, back, inner, st);
    var done := MarkCircular(AddTracked(st, id), back);
    var text := CircularText(Position(st.cache, back), false);
    OnePropertyObject(heap, id, key, Ref(back), false, inner, st, key + ": " + text, done);
    assert RefMark(done, id) == "";
    NoMarkText(key, text);
  }

  /**
   * A one-property object whose value is an object not tracked yet renders
   * as `{ key: text }`, `text` being that object's rendering one level deeper.
   */
  lemma NestedObject(heap: Heap, id: Id, key: string, next: Id, inner: nat, st: Tracker, text: string, done: Tracker)
    requires Closed(heap) && id in heap && heap[id] == OneProperty(key, Ref(next)) && id !in st.cache
    requires next in heap && next !in AddTracked(st, id).cache && id !in done.circular
    requires FmtAny(heap, Ref(next), false, false, inner + 1, AddTracked(st, id)) == (text, done)
    ensures FmtAny(heap, Ref(id), false, false, inner, st) == ("{ " + key + ": " + text + " }", done)
  {
    assert EntryStep(heap, key, Ref(next), false, false, false, inner, AddTracked(st, id)) == (key + ": " + text, done);
    OnePropertyObject(heap, id, key, Ref(next), false, inner, st, key + ": " + text, done);
    assert RefMark(done, id) == "";
    NoMarkText(key, text);
  }

  lemma NoMarkText(key: string, text: string)
    ensures "" + "{ " + (key + ": " + text) + " }" == "{ " + key + ": " + text + " }"
  {
  }

  /** The trackers of the ring after entering its first three objects. */
  lemma RingTrackers(a: Id, b: Id, c: Id, d: Id)
    requires a != b && a != c && a != d && b != c && b != d && c != d
    ensures var s3 := AddTracked(AddTracked(AddTracked(NoneTracked, a), b), c);
            s3.cache == [a, b, c] && s3.circular == {} && Position(s3.cache, a) == 1 &&
            Position(MarkCircular(AddTracked(s3, d), a).cache, a) == 1
  {
  }

  /**
   * Inside the ring: `b`, entered after `a`, renders the nested objects down
   * to the entry of `d` that meets `a` again; afterwards all four are
   * tracked and `a` alone is marked.
   */
  lemma RingInside(heap: Heap, a: Id, b: Id, c: Id, d: Id, kb: string, kc: string, kd: string)
    requires Closed(heap) && a in heap && b in heap && c in heap && d in heap
    requires a != b && a != c && a != d && b != c && b != d && c != d
    requires heap[b] == OneProperty(kb, Ref(c)) && heap[c] == OneProperty(kc, Ref(d)) && heap[d] == OneProperty(kd, Ref(a))
    ensures FmtAny(heap, Ref(b), false, false, 1, AddTracked(NoneTracked, a)) ==
            ("{ " + kb + ": " + ("{ " + kc + ": " + ("{ " + kd + ": " + CircularText(1, false) + " }") + " }") + " }",
             MarkCircular(AddTracked(AddTracked(AddTracked(AddTracked(NoneTracked, a), b), c), d), a))
  {
    var s1 := AddTracked(NoneTracked, a);
    var s2 := AddTracked(s1, b);
    var s3 := AddTracked(s2, c);
    RingTrackers(a, b, c, d);
    var done := MarkCircular(AddTracked(s3, d), a);
    BackReferenceObject(heap, d, kd, a, 3, s3);
    var t4 := "{ " + kd + ": " + CircularText(1, false) + " }";
    NestedObject(heap, c, kc, d, 2, s2, t4, done);
    NestedObject(heap, b, kb, c, 1, s1, "{ " + kc + ": " + t4 + " }", done);
  }

  /**
   * Four one-property objects in a ring, `a` to `b` to `c` to `d` and back
   * to `a`: each is entered in turn, the innermost entry meets `a` again,
   * and only `a` carries a mark.
   */
  lemma RingOfFour(heap: Heap, a: Id, b: Id, c: Id, d: Id, ka: string, kb: string, kc: string, kd: string)
    requires Closed(heap) && a in heap && b in heap && c in heap && d in heap
    requires a != b && a != c && a != d && b != c && b != d && c != d
    requires heap[a] == OneProperty(ka, Ref(b)) && heap[b] == OneProperty(kb, Ref(c))
    requires heap[c] == OneProperty(kc, Ref(d)) && heap[d] == OneProperty(kd, Ref(a))
    ensures FormatValue(heap, Ref(a), false, false) ==
            "<ref1>" + "{ " + ka + ": " + ("{ " + kb + ": " + ("{ " + kc + ": " + ("{ " + kd + ": " +
            CircularText(1, false) + " }") + " }") + " }") + " }"
  {
    RingInside(heap, a, b, c, d, kb, kc, kd);
    RingTrackers(a, b, c, d);
    var s1 := AddTracked(NoneTracked, a);
    var done := MarkCircular(AddTracked(AddTracked(AddTracked(s1, b), c), d), a);
    var t2 := "{ " + kb + ": " + ("{ " + kc + ": " + ("{ " + kd + ": " + CircularText(1, false) + " }") + " }") + " }";
    assert EntryStep(heap, ka, Ref(b), false, false, false, 0, s1) == (ka + ": " + t2, done);
    OnePropertyObject(heap, a, ka, Ref(b), false, 0, NoneTracked, ka + ": " + t2, done);
    assert RefMark(done, a) == "<ref1>" by {
      assert NatToString(1) == "1";
    }
  }

  /**
   * An object reachable from itself through nested objects renders the
   * back-reference as `[Circular ref1]` and is itself marked `<ref1>`: the
   * text `<ref1>{ prop: { child: { otherProp: { parent: [Circular ref1] } } } }`,
   * written here piece by piece.
   */
  lemma ObjectCycleExample()
    ensures Closed(ObjectCycleHeap())
    ensures FormatValue(ObjectCycleHeap(), Ref(1), false, false) ==
            "<ref1>" + "{ prop: " + ("{ child: " + ("{ otherProp: " + ("{ parent: " + "[Circular ref1]" + " }") + " }") + " }") + " }"
  {
    ObjectCycleHeapClosed();
    var heap := ObjectCycleHeap();
    RingOfFour(heap, 1, 2, 3, 4, "prop", "child", "otherProp", "parent");
    ObjectCycleKeys();
  }

  lemma ObjectCycleKeys()
    ensures "{ " + "prop" + ": " == "{ prop: " && "{ " + "child" + ": " == "{ child: "
    ensures "{ " + "otherProp" + ": " == "{ otherProp: " && "{ " + "parent" + ": " == "{ parent: "
    ensures CircularText(1, false) == "[Circular ref1]"
  {
    assert NatToString(1) == "1";
  }

  /** A primitive at the top level is rendered bare, below it a string is quoted. */
  lemma PrimitiveRendering(heap: Heap, s: string, inner: nat, pretty: bool, st: Tracker)
    requires Closed(heap)
    ensures FmtAny(heap, Str(s), pretty, false, 0, st) == (s, st)
    ensures FmtAny(heap, Str(s), pretty, true, 0, st) == (s, st)
    ensures inner > 0 ==> FmtAny(heap, Str(s), pretty, false, inner, st) == ("'" + s + "'", st)
    ensures inner > 0 ==> FmtAny(heap, Null, pretty, false, inner, st) == ("null", st)
    ensures FmtAny(heap, Symbol(Some(s)), pretty, false, 0, st) == ("Symbol(" + s + ")", st)
  {
  }
}
