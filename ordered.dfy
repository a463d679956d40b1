/** A dictionary that remembers the order in which its keys were first set,
    as a JavaScript `Map` does and as `Object.keys` lists string keys. */
module Ordered {

  import Js

  datatype OrderedMap<K(==), V> = OrderedMap(keys: seq<K>, values: map<K, V>) {

    /** Keys are listed once each, and exactly the keys that have values. */
    predicate Valid() {
      && (forall i, j :: 0 <= i < j < |keys| ==> keys[i] != keys[j])
      && values.Keys == set k | k in keys
    }

    /** `m.set(k, v)` / `obj[k] = v`: a new key goes last, an existing key
        keeps its place and gets the new value. */
    function Put(k: K, v: V): (r: OrderedMap<K, V>)
      requires Valid()
      ensures r.Valid()
      ensures r.values.Keys == values.Keys + {k}
      ensures k in r.values && r.values[k] == v
      ensures forall k' :: k' in values && k' != k ==> k' in r.values && r.values[k'] == values[k']
      ensures |r.keys| == |keys| + (if k in values then 0 else 1)
      ensures r.keys[..|keys|] == keys
    {
      OrderedMap(if k in values then keys else keys + [k], values[k := v])
    }

    /** The values in key order (`Object.keys(o).map(k => o[k])`, `m.forEach`). */
    function InOrder(): (r: seq<V>)
      requires Valid()
      ensures |r| == |keys|
      ensures forall i :: 0 <= i < |keys| ==> keys[i] in values && r[i] == values[keys[i]]
    {
      seq(|keys|, i requires 0 <= i < |keys| => values[keys[i]])
    }
  }

  function Empty<K(==), V>(): (r: OrderedMap<K, V>)
    ensures r.Valid() && r.keys == [] && r.values == map[]
  {
    OrderedMap([], map[])
  }

  /** Setting the entries of `pairs` one after the other. */
  function PutAll<K(==), V>(m: OrderedMap<K, V>, pairs: seq<(K, V)>): (r: OrderedMap<K, V>)
    requires m.Valid()
    ensures r.Valid()
    decreases |pairs|
  {
    if pairs == [] then m
    else
      var last := pairs[|pairs| - 1];
      PutAll(m, pairs[..|pairs| - 1]).Put(last.0, last.1)
  }

  lemma PutAllStep<K, V>(m: OrderedMap<K, V>, pairs: seq<(K, V)>, i: nat)
    requires m.Valid() && i < |pairs|
    ensures PutAll(m, pairs[..i + 1]) == PutAll(m, pairs[..i]).Put(pairs[i].0, pairs[i].1)
  {
    assert pairs[..i + 1][..i] == pairs[..i];
  }

  /** Index of the last pair whose key is `k`, if any. */
  function LastIndexOf<K(==), V>(pairs: seq<(K, V)>, k: K): (r: Js.Option<nat>)
    ensures r.Some? ==> r.value < |pairs| && pairs[r.value].0 == k
    ensures r.Some? ==> forall j :: r.value < j < |pairs| ==> pairs[j].0 != k
    ensures r.None? ==> forall j :: 0 <= j < |pairs| ==> pairs[j].0 != k
  {
    if pairs == [] then Js.None
    else if pairs[|pairs| - 1].0 == k then Js.Some(|pairs| - 1)
    else LastIndexOf(pairs[..|pairs| - 1], k)
  }

  /** After setting a run of entries, each key holds the value of its last
      entry in the run, and keys the run never names keep their old value. */
  lemma {:induction false} PutAllLastWins<K, V>(m: OrderedMap<K, V>, pairs: seq<(K, V)>, k: K)
    requires m.Valid()
    ensures LastIndexOf(pairs, k).Some? ==>
      k in PutAll(m, pairs).values && PutAll(m, pairs).values[k] == pairs[LastIndexOf(pairs, k).value].1
    ensures LastIndexOf(pairs, k).None? ==>
      (k in PutAll(m, pairs).values <==> k in m.values) &&
      (k in m.values ==> PutAll(m, pairs).values[k] == m.values[k])
    decreases |pairs|
  {
    if pairs != [] {
      PutAllLastWins(m, pairs[..|pairs| - 1], k);
    }
  }
}
