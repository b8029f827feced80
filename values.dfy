/**
 * The JavaScript values a log call can carry, as the formatter and the
 * configuration code observe them.  Objects live in a heap (a finite map from
 * ids to nodes), so shared and cyclic references are references to the same id.
 * What reflection would report about a function (its source text, its name,
 * its base class) is recorded as data.
 */
module Values {
  import opened Wrappers

  type Id = nat

  /**
   * A function or class.  `source` is its string form (`${f}`), `name` its
   * `name` property, `base` the constructor of its prototype's prototype
   * (None once that is `Object` or absent), `hasPrototype` whether
   * `f.prototype` is an object, `callResult` the string a call `f()` yields, and
   * `constructError` the string form of what `new f()` throws, if it throws.
   */
  datatype Callable = Callable(
    name: string,
    source: string,
    hasPrototype: bool,
    base: Option<Callable>,
    callResult: string,
    constructError: Option<string>)

  /** A JavaScript value; numbers are integers here. */
  datatype Value =
    | Undefined
    | Null
    | Bool(b: bool)
    | Num(n: int)
    | BigInt(big: int)
    | Str(s: string)
    | Symbol(description: Option<string>)
    | Fn(f: Callable)
    | Ref(id: Id)

  /** The getter of an accessor property: it returns a value or throws. */
  datatype Getter = Returns(value: Value) | Throws

  /**
   * What `Object.getOwnPropertyDescriptor` yields for a property name:
   * a data property, an accessor (with or without a getter), or nothing
   * usable (no descriptor, or the lookup throws).
   */
  datatype Descriptor = DataProperty(value: Value) | Accessor(getter: Option<Getter>) | Inaccessible

  /**
   * A heap object.  `ObjectNode.levels` lists, for the object itself and for
   * each prototype before `Object.prototype`, the own property names with
   * their descriptors, in `Object.getOwnPropertyNames` order.
   */
  datatype Node =
    | ArrayNode(items: seq<Value>)
    | SetNode(members: seq<Value>)
    | MapNode(entries: seq<(string, Value)>)
    | ObjectNode(levels: seq<seq<(string, Descriptor)>>)

  type Heap = map<Id, Node>

  predicate ValueIn(heap: Heap, v: Value) {
    v.Ref? ==> v.id in heap
  }

  predicate DescriptorIn(heap: Heap, d: Descriptor) {
    match d
    case DataProperty(v) => ValueIn(heap, v)
    case Accessor(g) => g.Some? && g.value.Returns? ==> ValueIn(heap, g.value.value)
    case Inaccessible => true
  }

  predicate NodeIn(heap: Heap, n: Node) {
    match n
    case ArrayNode(items) => forall i :: 0 <= i < |items| ==> ValueIn(heap, items[i])
    case SetNode(members) => forall i :: 0 <= i < |members| ==> ValueIn(heap, members[i])
    case MapNode(entries) => forall i :: 0 <= i < |entries| ==> ValueIn(heap, entries[i].1)
    case ObjectNode(levels) =>
      forall k, j :: 0 <= k < |levels| && 0 <= j < |levels[k]| ==> DescriptorIn(heap, levels[k][j].1)
  }

  /** Every reference stored in the heap points into the heap, as every JavaScript reference does. */
  predicate Closed(heap: Heap) {
    forall id :: id in heap ==> NodeIn(heap, heap[id])
  }

  /** The value `getAllEntries` reports for a property, with its fixed sentinel strings. */
  function Resolve(d: Descriptor): Value {
    match d
    case DataProperty(v) => v
    case Accessor(None) => Str("Property Descriptor has no get method!!!")
    case Accessor(Some(Returns(v))) => v
    case Accessor(Some(Throws)) => Str("Property inaccessible")
    case Inaccessible => Str("Property inaccessible")
  }

  /** The entries of one prototype level, in order. */
  function LevelEntries(level: seq<(string, Descriptor)>): (r: seq<(string, Value)>)
    ensures |r| == |level|
    ensures forall j :: 0 <= j < |level| ==> r[j] == (level[j].0, Resolve(level[j].1))
    decreases |level|
  {
    if |level| == 0 then []
    else LevelEntries(level[..|level| - 1]) + [(level[|level| - 1].0, Resolve(level[|level| - 1].1))]
  }

  /** The entries of every level, the object's own first, then each prototype's. */
  function ChainEntries(levels: seq<seq<(string, Descriptor)>>): seq<(string, Value)>
    decreases |levels|
  {
    if |levels| == 0 then []
    else ChainEntries(levels[..|levels| - 1]) + LevelEntries(levels[|levels| - 1])
  }

  /** `getAllEntries(obj)`: a Map's entries, or every property along the prototype chain. */
  function AllEntries(n: Node): seq<(string, Value)>
    requires n.MapNode? || n.ObjectNode?
  {
    if n.MapNode? then n.entries else ChainEntries(n.levels)
  }

  /** The chain's entries start with those of the object's own level. */
  lemma {:induction false} OwnFirst(levels: seq<seq<(string, Descriptor)>>)
    ensures |levels| > 0 ==>
      |levels[0]| <= |ChainEntries(levels)| && ChainEntries(levels)[..|levels[0]|] == LevelEntries(levels[0])
    decreases |levels|
  {
    if |levels| > 1 {
      var init := levels[..|levels| - 1];
      OwnFirst(init);
      assert init[0] == levels[0];
    } else if |levels| == 1 {
      assert levels[..0] == [];
      assert ChainEntries(levels) == [] + LevelEntries(levels[0]);
    }
  }

  /** Every value an object reports along its prototype chain lives in the heap. */
  lemma {:induction false} ChainEntriesIn(heap: Heap, levels: seq<seq<(string, Descriptor)>>)
    requires forall k, j :: 0 <= k < |levels| && 0 <= j < |levels[k]| ==> DescriptorIn(heap, levels[k][j].1)
    ensures forall i :: 0 <= i < |ChainEntries(levels)| ==> ValueIn(heap, ChainEntries(levels)[i].1)
    decreases |levels|
  {
    if |levels| > 0 {
      var init := levels[..|levels| - 1];
      assert forall k :: 0 <= k < |init| ==> init[k] == levels[k];
      ChainEntriesIn(heap, init);
      var last := levels[|levels| - 1];
      assert forall j :: 0 <= j < |last| ==> DescriptorIn(heap, last[j].1);
    }
  }

  /** The entries `getAllEntries` reports for a node of the heap hold values of the heap. */
  lemma AllEntriesIn(heap: Heap, n: Node)
    requires NodeIn(heap, n) && (n.MapNode? || n.ObjectNode?)
    ensures forall i :: 0 <= i < |AllEntries(n)| ==> ValueIn(heap, AllEntries(n)[i].1)
  {
    if n.ObjectNode? {
      ChainEntriesIn(heap, n.levels);
    }
  }

  /** The first entry named `key`, if any. */
  function FirstNamed(entries: seq<(string, Value)>, key: string): (r: Option<Value>)
    ensures r.None? <==> forall j :: 0 <= j < |entries| ==> entries[j].0 != key
    ensures r.Some? ==>
      exists i :: 0 <= i < |entries| && entries[i] == (key, r.value) && (forall j :: 0 <= j < i ==> entries[j].0 != key)
    decreases |entries|
  {
    if |entries| == 0 then None
    else if entries[0].0 == key then Some(entries[0].1)
    else FirstNamed(entries[1..], key)
  }

  /**
   * Reading property `key` of a present value: an own property shadows the
   * prototypes' ones; an absent property (and any property of a non-object)
   * reads as `undefined`.
   */
  function Get(heap: Heap, v: Value, key: string): (r: Value)
    requires ValueIn(heap, v)
    ensures r != Undefined ==> v.Ref? && heap[v.id].ObjectNode?
  {
    if v.Ref? && heap[v.id].ObjectNode? then FirstNamed(ChainEntries(heap[v.id].levels), key).GetOr(Undefined)
    else Undefined
  }

  /** A defined property read is the first entry of that key along the prototype chain. */
  lemma GetFindsFirst(heap: Heap, v: Value, key: string)
    requires ValueIn(heap, v) && Get(heap, v, key) != Undefined
    ensures exists i :: 0 <= i < |AllEntries(heap[v.id])| && AllEntries(heap[v.id])[i] == (key, Get(heap, v, key)) &&
                        (forall j :: 0 <= j < i ==> AllEntries(heap[v.id])[j].0 != key)
  {
    assert AllEntries(heap[v.id]) == ChainEntries(heap[v.id].levels);
  }

  /** The own enumerable entries (`Object.entries`) of a value: level 0 of an object. */
  function OwnEntries(heap: Heap, v: Value): (r: seq<(string, Value)>)
    requires ValueIn(heap, v)
    ensures r != [] ==> v.Ref? && heap[v.id].ObjectNode?
  {
    if v.Ref? && heap[v.id].ObjectNode? && |heap[v.id].levels| > 0 then LevelEntries(heap[v.id].levels[0])
    else []
  }

  /** An object's own entries are the first ones `getAllEntries` reports for it. */
  lemma OwnEntriesFirst(heap: Heap, v: Value)
    requires ValueIn(heap, v) && v.Ref? && heap[v.id].ObjectNode?
    ensures |OwnEntries(heap, v)| <= |AllEntries(heap[v.id])|
    ensures AllEntries(heap[v.id])[..|OwnEntries(heap, v)|] == OwnEntries(heap, v)
  {
    if |heap[v.id].levels| > 0 {
      OwnFirst(heap[v.id].levels);
    }
  }
}
