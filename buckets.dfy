/**
 * The accumulator that groupByDate builds: a JavaScript object from a label to the
 * array of items filed under it. Object keys enumerate in insertion order (none of
 * the labels is an array index), so the object is modelled as the sequence of its
 * keys in that order together with a map from key to items.
 */
module OrderedBuckets {

  datatype Buckets<T> = Buckets(keys: seq<string>, entries: map<string, seq<T>>)

  predicate Distinct(s: seq<string>)
  {
    forall i, j :: 0 <= i < j < |s| ==> s[i] != s[j]
  }

  /** Keys listed once each, exactly the keys of the map, and every array non-empty. */
  predicate Valid<T>(b: Buckets<T>)
  {
    && Distinct(b.keys)
    && (forall k :: k in b.entries ==> k in b.keys)
    && (forall k :: k in b.keys ==> k in b.entries)
    && (forall k :: k in b.entries ==> b.entries[k] != [])
  }

  /** The object literal `{}`. */
  function Empty<T>(): (b: Buckets<T>)
    ensures Valid(b) && b.keys == [] && Size(b) == 0
  {
    Buckets([], map[])
  }

  /** `r[key] || []`: the array under a present key, otherwise a fresh empty array. */
  function Get<T>(b: Buckets<T>, key: string): (items: seq<T>)
    ensures key in b.entries ==> items == b.entries[key]
    ensures key !in b.entries ==> items == []
    ensures Valid(b) ==> (items == [] <==> key !in b.keys)
  {
    if key in b.entries then b.entries[key] else []
  }

  /**
   * `r[key] = [...(r[key] || []), x]`: the item goes at the end of its key's array,
   * and a key seen for the first time goes at the end of the key order.
   */
  function Append<T>(b: Buckets<T>, key: string, x: T): (b': Buckets<T>)
    ensures Valid(b) ==> Valid(b')
  {
    Buckets(if key in b.entries then b.keys else b.keys + [key], b.entries[key := Get(b, key) + [x]])
  }

  /** The number of items over all keys listed in `keys`. */
  function SumSizes<T>(keys: seq<string>, entries: map<string, seq<T>>): nat
    decreases |keys|
  {
    if keys == [] then 0
    else
      var k := keys[|keys| - 1];
      SumSizes(keys[..|keys| - 1], entries) + (if k in entries then |entries[k]| else 0)
  }

  function Size<T>(b: Buckets<T>): nat
  {
    SumSizes(b.keys, b.entries)
  }

  /** Appending stores exactly one more item. */
  lemma AppendSize<T>(b: Buckets<T>, key: string, x: T)
    requires Valid(b)
    ensures Size(Append(b, key, x)) == Size(b) + 1
  {
    if key in b.entries {
      SumSizesGrow(b.keys, b.entries, key, x);
    } else {
      var keys', entries' := b.keys + [key], b.entries[key := [x]];
      assert Get(b, key) + [x] == [x];
      assert Append(b, key, x) == Buckets(keys', entries');
      assert key !in b.keys;
      SumSizesUntouched(b.keys, b.entries, key, [x]);
      assert keys'[..|keys'| - 1] == b.keys;
      assert SumSizes(keys', entries') == SumSizes(b.keys, entries') + 1;
    }
  }

  lemma {:induction false} SumSizesUntouched<T>(keys: seq<string>, entries: map<string, seq<T>>, key: string, v: seq<T>)
    requires key !in keys
    ensures SumSizes(keys, entries[key := v]) == SumSizes(keys, entries)
    decreases |keys|
  {
    if keys != [] {
      SumSizesUntouched(keys[..|keys| - 1], entries, key, v);
    }
  }

  lemma {:induction false} SumSizesGrow<T>(keys: seq<string>, entries: map<string, seq<T>>, key: string, x: T)
    requires Distinct(keys) && key in keys && key in entries
    ensures SumSizes(keys, entries[key := entries[key] + [x]]) == SumSizes(keys, entries) + 1
    decreases |keys|
  {
    var init := keys[..|keys| - 1];
    if keys[|keys| - 1] == key {
      assert key !in init;
      SumSizesUntouched(init, entries, key, entries[key] + [x]);
    } else {
      assert key in init by {
        var i :| 0 <= i < |keys| && keys[i] == key;
        assert i < |keys| - 1 && init[i] == key;
      }
      SumSizesGrow(init, entries, key, x);
    }
  }

  /** Two items under two different keys, starting from `{}`. */
  lemma AppendTwoKeys<T>(k1: string, x1: T, k2: string, x2: T)
    requires k1 != k2
    ensures Append(Append(Empty(), k1, x1), k2, x2) == Buckets([k1, k2], map[k1 := [x1], k2 := [x2]])
  {
    var e: Buckets<T> := Empty();
    assert Get(e, k1) + [x1] == [x1];
    var e1 := Append(e, k1, x1);
    assert e1 == Buckets([k1], map[k1 := [x1]]);
    assert k2 !in e1.entries;
    assert Get(e1, k2) + [x2] == [x2];
    var e2 := Append(e1, k2, x2);
    assert e2.keys == [k1] + [k2] == [k1, k2];
    assert e2.entries == map[k1 := [x1]][k2 := [x2]];
  }
}
