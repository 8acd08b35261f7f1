/**
 * A Python `dict`: a map that remembers the order in which its keys were
 * first inserted. Assigning to an existing key keeps its position;
 * assigning to a new key appends it.
 */
module OrderedMaps {
  import opened Wrappers

  datatype OMap<K, V> = OMap(keys: seq<K>, values: map<K, V>) {

    /** Every key is listed exactly once, and the listed keys are the map's keys. */
    ghost predicate Valid() {
      && (forall i, j | 0 <= i < j < |keys| :: keys[i] != keys[j])
      && (forall k | k in values :: k in keys)
      && (forall k | k in keys :: k in values)
    }

    /** `d.get(k)`. */
    function Get(k: K): Option<V> {
      if k in values then Some(values[k]) else None
    }

    /** `d[k] = v`. */
    function Put(k: K, v: V): (r: OMap<K, V>)
      ensures r.values == values[k := v]
      ensures r.keys == if k in values then keys else keys + [k]
      ensures Valid() ==> r.Valid()
    {
      if k in values then OMap(keys, values[k := v]) else OMap(keys + [k], values[k := v])
    }

    /** `d.setdefault(k, v)`: binds `k` to `v` only when `k` is not yet a key. */
    function SetDefault(k: K, v: V): (r: OMap<K, V>)
      ensures k in values ==> r == this
      ensures k !in values ==> r == Put(k, v)
    {
      if k in values then this else Put(k, v)
    }

    /** `d.pop(k, None)`: drops `k` when present. */
    function Remove(k: K): (r: OMap<K, V>)
      ensures r.values == values - {k}
      ensures forall x | x in r.keys :: x in keys && x != k
      ensures forall x | x in keys && x != k :: x in r.keys
      ensures Valid() ==> r.Valid()
    {
      OMap(Without(keys, k), values - {k})
    }
  }

  function Empty<K, V>(): (r: OMap<K, V>)
    ensures r.Valid() && r.keys == [] && r.values == map[]
  {
    OMap([], map[])
  }

  /** The sequence without any occurrence of `k`, order kept. */
  function Without<K(==)>(s: seq<K>, k: K): (r: seq<K>)
    ensures forall x | x in r :: x in s && x != k
    ensures forall x | x in s && x != k :: x in r
    ensures (forall i, j | 0 <= i < j < |s| :: s[i] != s[j]) ==> (forall i, j | 0 <= i < j < |r| :: r[i] != r[j])
  {
    if |s| == 0 then []
    else if s[0] == k then Without(s[1..], k)
    else
      var rest := Without(s[1..], k);
      assert s[0] !in s[1..] ==> s[0] !in rest;
      [s[0]] + rest
  }
}
