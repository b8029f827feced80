/**
 * The `CircularTracker` of lib/utils.ts: an insertion-ordered set of the
 * containers the formatter has entered, and the set of those it has met
 * again.  `Tracker` is the tracker's state as a value, used by the formatter's
 * specification; `CircularTracker` is the object the formatter mutates.
 */
module Tracking {
  import opened Wrappers
  import opened Values

  /** The two sets of the tracker; `cache` keeps insertion order (JavaScript sets iterate in it). */
  datatype Tracker = Tracker(cache: seq<Id>, circular: set<Id>)

  /** The state of a new tracker. */
  const NoneTracked: Tracker := Tracker([], {})

  /** `[...cache].indexOf(id) + 1`: the 1-based position of the first occurrence, 0 when absent. */
  function Position(s: seq<Id>, id: Id): (r: nat)
    ensures r == 0 <==> id !in s
    ensures r > 0 ==> r <= |s| && s[r - 1] == id && id !in s[..r - 1]
    decreases |s|
  {
    if |s| == 0 then 0
    else if s[0] == id then 1
    else
      var k := Position(s[1..], id);
      assert k > 0 ==> s[1..][..k - 1] == s[..k][1..];
      if k == 0 then 0 else k + 1
  }

  /** The state after `add(id)` of an untracked id. */
  function AddTracked(st: Tracker, id: Id): Tracker {
    st.(cache := st.cache + [id])
  }

  /** The state after `setAsCircular(id)`. */
  function MarkCircular(st: Tracker, id: Id): Tracker {
    st.(circular := st.circular + {id})
  }

  /** `st2` is `st` with ids possibly added to either set; the tracker never forgets. */
  predicate Grows(st: Tracker, st2: Tracker) {
    |st.cache| <= |st2.cache| && st2.cache[..|st.cache|] == st.cache && st.circular <= st2.circular
  }

  lemma GrowsTransitive(a: Tracker, b: Tracker, c: Tracker)
    requires Grows(a, b) && Grows(b, c)
    ensures Grows(a, c)
  {
    assert c.cache[..|a.cache|] == c.cache[..|b.cache|][..|a.cache|];
  }

  /** What is tracked stays tracked, at the same position. */
  lemma {:induction false} GrowsKeepsPositions(st: Tracker, st2: Tracker, id: Id)
    requires Grows(st, st2) && id in st.cache
    ensures id in st2.cache && Position(st2.cache, id) == Position(st.cache, id)
  {
    var k := Position(st.cache, id);
    assert st2.cache[..k - 1] == st.cache[..k - 1];
    assert st2.cache[k - 1] == st.cache[k - 1];
  }

  /**
   * Adding an untracked id puts it last, at position |cache| + 1, and leaves
   * the position of every object tracked before unchanged.
   */
  lemma AddTrackedPositions(st: Tracker, id: Id)
    requires id !in st.cache
    ensures Grows(st, AddTracked(st, id))
    ensures Position(AddTracked(st, id).cache, id) == |st.cache| + 1
    ensures forall x :: x in st.cache ==> Position(AddTracked(st, id).cache, x) == Position(st.cache, x)
  {
    var st2 := AddTracked(st, id);
    assert st2.cache[..|st.cache|] == st.cache;
    forall x | x in st.cache
      ensures Position(st2.cache, x) == Position(st.cache, x)
    {
      GrowsKeepsPositions(st, st2, x);
    }
  }

  /** Marking is idempotent, and marks nothing but the given id. */
  lemma MarkCircularIdempotent(st: Tracker, id: Id)
    ensures MarkCircular(MarkCircular(st, id), id) == MarkCircular(st, id)
    ensures id in MarkCircular(st, id).circular && MarkCircular(st, id).cache == st.cache
    ensures forall x :: x != id ==> (x in MarkCircular(st, id).circular <==> x in st.circular)
  {
  }

  /** The tracker object. */
  class CircularTracker {
    var cache: seq<Id>
    var circular: set<Id>

    constructor()
      ensures cache == [] && circular == {}
    {
      cache := [];
      circular := {};
    }

    /** The current state as a value. */
    function State(): Tracker
      reads this
    {
      Tracker(cache, circular)
    }

    /**
     * `add(obj)`: tracks `obj` after all tracked objects; an object tracked
     * already is refused with the error `add` throws, changing nothing.
     */
    method Add(obj: Id) returns (error: Option<string>)
      modifies this
      ensures obj in old(cache) ==> error == Some("object must not be added twice") && cache == old(cache)
      ensures obj !in old(cache) ==> error == None && cache == old(cache) + [obj]
      ensures circular == old(circular)
    {
      if obj in cache {
        return Some("object must not be added twice");
      }
      cache := cache + [obj];
      error := None;
    }

    /** `has(obj)`: whether `obj` is tracked, that is, whether `indexOf` gives it a position. */
    function Has(obj: Id): (r: bool)
      reads this
      ensures r <==> IndexOf(obj) > 0
      ensures r ==> cache[IndexOf(obj) - 1] == obj
    {
      obj in cache
    }

    /** `indexOf(obj)`: the 1-based insertion position of a tracked object, 0 for an untracked one. */
    function IndexOf(obj: Id): (r: nat)
      reads this
      ensures r == 0 <==> obj !in cache
      ensures r > 0 ==> r <= |cache| && cache[r - 1] == obj && obj !in cache[..r - 1]
    {
      Position(cache, obj)
    }

    /** `isCircular(obj)`: whether `obj` is marked, so that marking it again changes nothing. */
    function IsCircular(obj: Id): (r: bool)
      reads this
      ensures r <==> MarkCircular(State(), obj) == State()
    {
      obj in circular
    }

    /** `setAsCircular(obj)`: adds `obj` to the circular set if it is not there yet. */
    method SetAsCircular(obj: Id)
      modifies this
      ensures circular == old(circular) + {obj}
      ensures cache == old(cache)
    {
      if obj !in circular {
        circular := circular + {obj};
      }
    }
  }
}
