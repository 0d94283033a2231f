/**
 * An insertion-ordered dictionary: a JavaScript `Map`, or the own string keys
 * of a plain object, which enumerate in the order they were first added.
 */
module OrderedMaps {
  import opened Wrappers

  predicate Distinct<T(==)>(s: seq<T>) {
    forall i, j :: 0 <= i < j < |s| ==> s[i] != s[j]
  }

  /** `s` with the element at index `i` taken out. */
  function RemoveAt<T>(s: seq<T>, i: nat): seq<T>
    requires i < |s|
  {
    s[..i] + s[i + 1..]
  }

  /** Taking one element out of a list without repeats leaves exactly the others, still without repeats. */
  lemma RemoveAtMembers<T>(s: seq<T>, i: nat)
    requires i < |s| && Distinct(s)
    ensures Distinct(RemoveAt(s, i))
    ensures forall x :: x in RemoveAt(s, i) <==> x in s && x != s[i]
  {
    var r := RemoveAt(s, i);
    assert forall j :: 0 <= j < i ==> r[j] == s[j];
    assert forall j :: i <= j < |r| ==> r[j] == s[j + 1];
    forall x | x in s && x != s[i] ensures x in r {
      var j :| 0 <= j < |s| && s[j] == x;
      if j < i {
        assert r[j] == x;
      } else {
        assert r[j - 1] == x;
      }
    }
  }

  /** The index of `x` in `s`, which holds it. */
  function IndexOfKey<T(==)>(s: seq<T>, x: T): (i: nat)
    requires x in s
    ensures i < |s| && s[i] == x
    ensures forall j :: 0 <= j < i ==> s[j] != x
  {
    if s[0] == x then 0 else 1 + IndexOfKey(s[1..], x)
  }

  datatype OrderedMap<K(==, !new), V> = OrderedMap(keys: seq<K>, values: map<K, V>) {

    /** The key order lists every key exactly once. */
    predicate Valid() {
      Distinct(keys) && (forall k | k in values :: k in keys) && (forall k | k in keys :: k in values)
    }

    /** `map.get(k)`, or `object[k]` for an own property. */
    function Get(k: K): Option<V> {
      if k in values then Some(values[k]) else None
    }

    predicate Has(k: K) {
      k in values
    }

    function Size(): nat {
      |keys|
    }

    /**
     * `map.set(k, v)`, or `object[k] = v`: an existing key keeps its position,
     * a new key goes last.
     */
    function Set(k: K, v: V): (r: OrderedMap<K, V>)
      requires Valid()
      ensures r.Valid()
      ensures r.Get(k) == Some(v)
      ensures forall k' :: k' != k ==> r.Get(k') == Get(k')
      ensures r.keys == if k in keys then keys else keys + [k]
    {
      if k in values then OrderedMap(keys, values[k := v])
      else OrderedMap(keys + [k], values[k := v])
    }

    /** `map.delete(k)`, or `delete object[k]`: the other keys keep their order. */
    function Remove(k: K): (r: OrderedMap<K, V>)
      requires Valid()
      ensures r.Valid()
      ensures r.Get(k) == None
      ensures forall k' :: k' != k ==> r.Get(k') == Get(k')
      ensures k !in keys ==> r.keys == keys
      ensures k in keys ==> r.keys == RemoveAt(keys, IndexOfKey(keys, k))
    {
      if k in keys then
        var i := IndexOfKey(keys, k);
        var ks := RemoveAt(keys, i);
        RemoveAtMembers(keys, i);
        OrderedMap(ks, values - {k})
      else
        OrderedMap(keys, values - {k})
    }

    /** The `[key, value]` pairs in iteration order (`map.entries()`, `Object.entries`). */
    function Entries(): (es: seq<(K, V)>)
      requires Valid()
      ensures |es| == |keys|
      ensures forall i :: 0 <= i < |es| ==> es[i].0 == keys[i] && Get(keys[i]) == Some(es[i].1)
    {
      seq(|keys|, i requires 0 <= i < |keys| => (keys[i], values[keys[i]]))
    }

    /** The values in iteration order (`map.values()`). */
    function Values(): (vs: seq<V>)
      requires Valid()
      ensures |vs| == |keys|
      ensures forall i :: 0 <= i < |vs| ==> Get(keys[i]) == Some(vs[i])
    {
      seq(|keys|, i requires 0 <= i < |keys| => values[keys[i]])
    }
  }

  function Empty<K(==, !new), V>(): (m: OrderedMap<K, V>)
    ensures m.Valid() && m.keys == []
    ensures forall k :: m.Get(k) == None
  {
    OrderedMap([], map[])
  }

  /** Setting a key twice leaves what the second write stored, in the first write's place. */
  lemma SetOverwrites<K(!new), V>(m: OrderedMap<K, V>, k: K, v: V, w: V)
    requires m.Valid()
    ensures m.Set(k, v).Set(k, w) == m.Set(k, w)
  {
  }

  /** Two maps with the same key order that agree away from `k` are equal once `k` is set. */
  lemma SetAgreeing<K(!new), V>(a: OrderedMap<K, V>, b: OrderedMap<K, V>, k: K, v: V)
    requires a.Valid() && b.Valid() && a.keys == b.keys
    requires forall k' :: k' != k ==> a.Get(k') == b.Get(k')
    ensures a.Set(k, v) == b.Set(k, v)
  {
    var ra, rb := a.Set(k, v), b.Set(k, v);
    forall k' | k' in ra.values ensures k' in rb.values && ra.values[k'] == rb.values[k'] {
      assert ra.Get(k') == rb.Get(k');
    }
    assert ra.values == rb.values;
  }
}
