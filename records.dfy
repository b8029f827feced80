/**
 * A JavaScript record with string keys (`Record<string, T>`): its entries in
 * insertion order.  Assigning to an existing key keeps the key's place,
 * assigning to a new key appends it, and `delete` removes it; `Object.entries`
 * walks the entries in that order.
 */
module Records {
  import opened Wrappers

  /** The keys of the entries, in order. */
  function Keys<V>(r: seq<(string, V)>): (ks: seq<string>)
    ensures |ks| == |r| && forall i :: 0 <= i < |r| ==> ks[i] == r[i].0
  {
    if |r| == 0 then [] else [r[0].0] + Keys(r[1..])
  }

  /** Appending an entry appends its key. */
  lemma KeysSnoc<V>(r: seq<(string, V)>, e: (string, V))
    ensures Keys(r + [e]) == Keys(r) + [e.0]
  {
  }

  /** No key occurs twice. */
  predicate Distinct(ks: seq<string>) {
    forall i, j :: 0 <= i < j < |ks| ==> ks[i] != ks[j]
  }

  /** `record[k]`: the value at `k`, None when `k` is not a key. */
  function Lookup<V>(r: seq<(string, V)>, k: string): (v: Option<V>)
    ensures v.None? <==> k !in Keys(r)
    ensures v.Some? ==> exists i :: 0 <= i < |r| && r[i] == (k, v.value)
  {
    if |r| == 0 then None
    else if r[0].0 == k then Some(r[0].1)
    else
      var v := Lookup(r[1..], k);
      assert Keys(r) == [r[0].0] + Keys(r[1..]);
      assert v.Some? ==> exists i :: 0 <= i < |r[1..]| && r[1..][i] == (k, v.value);
      v
  }

  /** `record[k] = v`. */
  function Put<V>(r: seq<(string, V)>, k: string, v: V): (r2: seq<(string, V)>)
    ensures (k, v) in r2
    ensures forall i :: 0 <= i < |r2| ==> r2[i] in r || r2[i] == (k, v)
  {
    if |r| == 0 then [(k, v)]
    else if r[0].0 == k then [(k, v)] + r[1..]
    else [r[0]] + Put(r[1..], k, v)
  }

  /** `delete record[k]`. */
  function Remove<V>(r: seq<(string, V)>, k: string): (r2: seq<(string, V)>)
    ensures |r2| <= |r|
    ensures forall i :: 0 <= i < |r2| ==> r2[i] in r && r2[i].0 != k
  {
    if |r| == 0 then []
    else if r[0].0 == k then Remove(r[1..], k)
    else [r[0]] + Remove(r[1..], k)
  }

  /** `record[k] = v` keeps `k`'s place when it is a key and appends it otherwise; other keys stay put. */
  lemma {:induction false} PutKeys<V>(r: seq<(string, V)>, k: string, v: V)
    ensures k in Keys(r) ==> Keys(Put(r, k, v)) == Keys(r)
    ensures k !in Keys(r) ==> Keys(Put(r, k, v)) == Keys(r) + [k]
  {
    if |r| > 0 {
      assert Keys(r) == [r[0].0] + Keys(r[1..]);
      if r[0].0 == k {
        assert Keys(Put(r, k, v)) == [k] + Keys(r[1..]);
      } else {
        PutKeys(r[1..], k, v);
        assert Keys(Put(r, k, v)) == [r[0].0] + Keys(Put(r[1..], k, v));
      }
    }
  }

  /** Distinct keys stay distinct under `record[k] = v`. */
  lemma PutDistinct<V>(r: seq<(string, V)>, k: string, v: V)
    requires Distinct(Keys(r))
    ensures Distinct(Keys(Put(r, k, v)))
  {
    PutKeys(r, k, v);
    if k !in Keys(r) {
      var ks := Keys(r) + [k];
      assert forall i :: 0 <= i < |Keys(r)| ==> ks[i] == Keys(r)[i];
    }
  }

  /** After `record[k] = v` the record maps `k` to `v` and every other key as before. */
  lemma {:induction false} PutLookup<V>(r: seq<(string, V)>, k: string, v: V, k2: string)
    ensures Lookup(Put(r, k, v), k) == Some(v)
    ensures k2 != k ==> Lookup(Put(r, k, v), k2) == Lookup(r, k2)
  {
    if |r| > 0 && r[0].0 != k {
      PutLookup(r[1..], k, v, k2);
      assert Put(r, k, v) == [r[0]] + Put(r[1..], k, v);
      assert Put(r, k, v)[1..] == Put(r[1..], k, v);
    }
  }

  /** Every key other than `k` reads as before after `record[k] = v`. */
  lemma PutLookupOthers<V>(r: seq<(string, V)>, k: string, v: V)
    ensures Lookup(Put(r, k, v), k) == Some(v)
    ensures forall k2 :: k2 != k ==> Lookup(Put(r, k, v), k2) == Lookup(r, k2)
  {
    PutLookup(r, k, v, k);
    forall k2 | k2 != k
      ensures Lookup(Put(r, k, v), k2) == Lookup(r, k2)
    {
      PutLookup(r, k, v, k2);
    }
  }

  /** After `delete record[k]`, `k` reads as absent and every other key reads as before. */
  lemma {:induction false} RemoveLookup<V>(r: seq<(string, V)>, k: string)
    ensures Lookup(Remove(r, k), k) == None
    ensures forall k2 :: k2 != k ==> Lookup(Remove(r, k), k2) == Lookup(r, k2)
  {
    if |r| > 0 {
      RemoveLookup(r[1..], k);
      if r[0].0 != k {
        var rest := Remove(r[1..], k);
        assert Remove(r, k) == [r[0]] + rest;
        assert Remove(r, k)[1..] == rest;
      }
    }
  }

  /** A key that is not among distinct keys can go in front of them. */
  lemma ConsDistinct(k: string, ks: seq<string>)
    requires Distinct(ks) && k !in ks
    ensures Distinct([k] + ks)
  {
  }

  /** `delete record[k]` drops exactly the key `k`, keeps the keys distinct and changes nothing when `k` is not a key. */
  lemma {:induction false} RemoveKeys<V>(r: seq<(string, V)>, k: string)
    requires Distinct(Keys(r))
    ensures forall k2 :: k2 in Keys(Remove(r, k)) <==> k2 in Keys(r) && k2 != k
    ensures Distinct(Keys(Remove(r, k)))
    ensures k !in Keys(r) ==> Remove(r, k) == r
  {
    if |r| > 0 {
      assert Keys(r) == [r[0].0] + Keys(r[1..]);
      assert Distinct(Keys(r[1..]));
      RemoveKeys(r[1..], k);
      var rest := Remove(r[1..], k);
      if r[0].0 != k {
        assert Remove(r, k) == [r[0]] + rest;
        assert Keys(Remove(r, k)) == [r[0].0] + Keys(rest);
        assert r[0].0 !in Keys(rest) by {
          assert r[0].0 !in Keys(r[1..]);
        }
        ConsDistinct(r[0].0, Keys(rest));
      }
    }
  }

  /** After `delete record[k]`, `k` is gone and every other key is as before, in the same order. */
  lemma RemoveFacts<V>(r: seq<(string, V)>, k: string)
    requires Distinct(Keys(r))
    ensures Lookup(Remove(r, k), k) == None
    ensures forall k2 :: k2 != k ==> Lookup(Remove(r, k), k2) == Lookup(r, k2)
    ensures forall k2 :: k2 in Keys(Remove(r, k)) <==> k2 in Keys(r) && k2 != k
    ensures Distinct(Keys(Remove(r, k)))
    ensures k !in Keys(r) ==> Remove(r, k) == r
  {
    RemoveLookup(r, k);
    RemoveKeys(r, k);
  }

  /** Deleting the keys `ks` one after the other. */
  function RemoveAll<V>(r: seq<(string, V)>, ks: seq<string>): (r2: seq<(string, V)>)
    ensures forall i :: 0 <= i < |r2| ==> r2[i] in r && r2[i].0 !in ks
  {
    if |ks| == 0 then r else Remove(RemoveAll(r, ks[..|ks| - 1]), ks[|ks| - 1])
  }

  /** One more deletion keeps the facts of `RemoveAllFacts` for the longer list of keys. */
  lemma RemoveOneMore<V>(r: seq<(string, V)>, front: seq<string>, last: string, before: seq<(string, V)>)
    requires Distinct(Keys(before))
    requires forall k :: k in Keys(before) <==> k in Keys(r) && k !in front
    requires forall k :: k !in front ==> Lookup(before, k) == Lookup(r, k)
    ensures Distinct(Keys(Remove(before, last)))
    ensures forall k :: k in Keys(Remove(before, last)) <==> k in Keys(r) && k !in front + [last]
    ensures forall k :: k !in front + [last] ==> Lookup(Remove(before, last), k) == Lookup(r, k)
  {
    RemoveFacts(before, last);
    forall k
      ensures k in Keys(Remove(before, last)) <==> k in Keys(r) && k !in front + [last]
    {
      assert k in front + [last] <==> k in front || k == last;
    }
    forall k | k !in front + [last]
      ensures Lookup(Remove(before, last), k) == Lookup(r, k)
    {
      assert k !in front && k != last;
    }
  }

  /** After deleting `ks` exactly the other keys remain, each with its value. */
  lemma {:induction false} RemoveAllFacts<V>(r: seq<(string, V)>, ks: seq<string>)
    requires Distinct(Keys(r))
    ensures Distinct(Keys(RemoveAll(r, ks)))
    ensures forall k :: k in Keys(RemoveAll(r, ks)) <==> k in Keys(r) && k !in ks
    ensures forall k :: k !in ks ==> Lookup(RemoveAll(r, ks), k) == Lookup(r, k)
  {
    if |ks| > 0 {
      var front := ks[..|ks| - 1];
      var last := ks[|ks| - 1];
      RemoveAllFacts(r, front);
      assert ks == front + [last];
      RemoveOneMore(r, front, last, RemoveAll(r, front));
    }
  }

  /** The key of an entry of a record is one of its keys. */
  lemma MemberKey<V>(r: seq<(string, V)>, e: (string, V))
    requires e in r
    ensures e.0 in Keys(r)
  {
    var i :| 0 <= i < |r| && r[i] == e;
    assert Keys(r)[i] == e.0;
  }

  /** Deleting every key of a record leaves it empty. */
  lemma RemoveAllKeys<V>(r: seq<(string, V)>)
    ensures RemoveAll(r, Keys(r)) == []
  {
    var e := RemoveAll(r, Keys(r));
    if |e| > 0 {
      MemberKey(r, e[0]);
      assert false;
    }
  }
}
