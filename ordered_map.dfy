/**
 * A JavaScript `Map`: a finite map that also remembers the order in which
 * its keys were first inserted. Iteration, `Array.from(m)` and
 * `m.values()` follow that order; `set` on a present key keeps the key's
 * place, `set` on a new key appends it, and `delete` drops it.
 */
module OrderedMaps {

  /** The representation: the keys in insertion order, and the key-value map. */
  datatype MapRep<K(==,!new), V> = MapRep(keys: seq<K>, values: map<K, V>) {

    /** The keys are listed once each, and exactly the keys of `values`. */
    ghost predicate Valid() {
      && (forall i, j :: 0 <= i < j < |keys| ==> keys[i] != keys[j])
      && (forall k :: k in values <==> k in keys)
    }

    /** `m.set(k, v)`. */
    function Set(k: K, v: V): (r: MapRep<K, V>)
      requires Valid()
      ensures r.Valid()
      ensures r.values == values[k := v]
      ensures k in values ==> r.keys == keys
      ensures k !in values ==> r.keys == keys + [k]
    {
      if k in values then MapRep(keys, values[k := v]) else MapRep(keys + [k], values[k := v])
    }

    /** `m.delete(k)`: the remaining keys keep their relative order. */
    function Delete(k: K): (r: MapRep<K, V>)
      requires Valid()
      ensures r.Valid()
      ensures r.values == values - {k}
      ensures r.keys == Without(keys, k)
      ensures |r.keys| == if k in values then |keys| - 1 else |keys|
    {
      MapRep(Without(keys, k), values - {k})
    }

    /** `Array.from(m)`: the entries in key order. */
    function Entries(): (r: seq<(K, V)>)
      requires Valid()
      ensures |r| == |keys|
      ensures forall i :: 0 <= i < |r| ==> r[i] == (keys[i], values[keys[i]])
    {
      seq(|keys|, i requires 0 <= i < |keys| => (keys[i], values[keys[i]]))
    }

    /** `Array.from(m.values())`: the values in key order. */
    function Values(): (r: seq<V>)
      requires Valid()
      ensures |r| == |keys|
      ensures forall i :: 0 <= i < |r| ==> r[i] == values[keys[i]]
    {
      seq(|keys|, i requires 0 <= i < |keys| => values[keys[i]])
    }
  }

  /** A JavaScript `Map`: every value of this type is a valid representation. */
  type OrderedMap<K(==,!new), V> = m: MapRep<K, V> | m.Valid() witness MapRep([], map[])

  /** `new Map()`. */
  function Empty<K(==,!new), V>(): (r: OrderedMap<K, V>)
    ensures r.keys == [] && r.values == map[]
  {
    MapRep([], map[])
  }

  /**
   * Going from `before` to `after`, only the place of key `k` can have
   * changed: a key that stays keeps its place, a new key comes last, and a
   * removed key leaves the others in their order.
   */
  ghost predicate PlaceKept<K(!new), V>(before: OrderedMap<K, V>, after: OrderedMap<K, V>, k: K)
  {
    && (k in before.values && k in after.values ==> after.keys == before.keys)
    && (k !in before.values && k in after.values ==> after.keys == before.keys + [k])
    && (k in before.values && k !in after.values ==> after.keys == Without(before.keys, k))
    && (k !in before.values && k !in after.values ==> after.keys == before.keys)
  }

  /** `s` with every occurrence of `k` removed, the rest in order. */
  function Without<K(==,!new)>(s: seq<K>, k: K): (r: seq<K>)
    ensures forall x :: x in r <==> x in s && x != k
    ensures k !in s ==> r == s
    ensures (forall i, j :: 0 <= i < j < |s| ==> s[i] != s[j]) ==>
              (forall i, j :: 0 <= i < j < |r| ==> r[i] != r[j]) && |r| == if k in s then |s| - 1 else |s|
  {
    if s == [] then []
    else if s[0] == k then Without(s[1..], k)
    else
      var rest := Without(s[1..], k);
      assert (forall i, j :: 0 <= i < j < |s| ==> s[i] != s[j]) ==> s[0] !in s[1..];
      [s[0]] + rest
  }
}
