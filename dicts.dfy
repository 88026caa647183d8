/**
 * Python dictionaries as the engine uses them: an insertion-ordered list of
 * distinct keys together with the entries they map to. Iteration (`items()`,
 * `values()`) follows the key order; assignment to an existing key keeps its
 * position, assignment to a new key appends it.
 */
module PyDict {

  datatype Dict<K(==), V> = Dict(keys: seq<K>, entries: map<K, V>) {

    /** The keys are distinct and are exactly the keys of the entries. */
    ghost predicate Valid() {
      (forall i, j :: 0 <= i < j < |keys| ==> keys[i] != keys[j]) &&
      (forall k :: k in keys ==> k in entries) &&
      (forall k :: k in entries ==> k in keys)
    }

    /** `values()`, in key order. */
    function Values(): (vs: seq<V>)
      requires Valid()
      ensures |vs| == |keys|
      ensures forall i :: 0 <= i < |keys| ==> vs[i] == entries[keys[i]]
    {
      seq(|keys|, i requires 0 <= i < |keys| => entries[keys[i]])
    }

    /** `items()`, in key order. */
    function Items(): (kvs: seq<(K, V)>)
      requires Valid()
      ensures |kvs| == |keys|
      ensures forall i :: 0 <= i < |keys| ==> kvs[i] == (keys[i], entries[keys[i]])
    {
      seq(|keys|, i requires 0 <= i < |keys| => (keys[i], entries[keys[i]]))
    }

    /** `d[k] = v`: the entry is replaced or appended, every other entry stays. */
    function Put(k: K, v: V): (d: Dict<K, V>)
      requires Valid()
      ensures d.Valid()
      ensures d.entries == entries[k := v]
      ensures k in entries ==> d.keys == keys
      ensures k !in entries ==> d.keys == keys + [k]
    {
      if k in entries then Dict(keys, entries[k := v]) else Dict(keys + [k], entries[k := v])
    }
  }

  function Empty<K(==), V>(): (d: Dict<K, V>)
    ensures d.Valid() && d.keys == [] && d.entries == map[]
  {
    Dict([], map[])
  }
}
