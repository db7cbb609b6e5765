/** Insertion-ordered maps with the semantics of Python's `dict` (and of
    `OrderedDict`): iteration follows first insertion, assigning to an existing
    key keeps its position, and deleting a key removes it from the order.
    Both the row grouper's group table and the image cache are such maps. */
module OrderedMaps {

  datatype OrderedMap<K(!new), V> = OrderedMap(keys: seq<K>, values: map<K, V>) {

    /** The iteration order lists every key exactly once. */
    ghost predicate Valid() {
      && (forall i, j :: 0 <= i < j < |keys| ==> keys[i] != keys[j])
      && (forall k :: k in values <==> k in keys)
    }

    /** `len(d)` */
    function Size(): nat {
      |keys|
    }
  }

  function Empty<K(!new), V>(): (m: OrderedMap<K, V>)
    ensures m.Valid() && m.Size() == 0
  {
    OrderedMap([], map[])
  }

  /** `d[k] = v`: a new key goes to the end of the order, an existing key keeps
      its place and only its value changes. */
  function Put<K(!new), V>(m: OrderedMap<K, V>, k: K, v: V): (r: OrderedMap<K, V>)
    requires m.Valid()
    ensures r.Valid()
    ensures r.values == m.values[k := v]
    ensures k in m.values ==> r.keys == m.keys
    ensures k !in m.values ==> r.keys == m.keys + [k]
  {
    if k in m.values then OrderedMap(m.keys, m.values[k := v])
    else OrderedMap(m.keys + [k], m.values[k := v])
  }

  /** `del d[next(iter(d))]`: drops the earliest-inserted entry. */
  function RemoveFirst<K(!new), V>(m: OrderedMap<K, V>): (r: OrderedMap<K, V>)
    requires m.Valid() && m.Size() > 0
    ensures r.Valid()
    ensures r.keys == m.keys[1..]
    ensures r.values == m.values - {m.keys[0]}
  {
    OrderedMap(m.keys[1..], m.values - {m.keys[0]})
  }
}
