/** A Python dict: a map that remembers the order in which its keys were first inserted. */
module OrderedDict {
  import opened Sequences

  datatype Dict<K(==), V> = Dict(keys: seq<K>, vals: map<K, V>) {

    ghost predicate Valid() {
      && Distinct(keys)
      && (forall k | k in keys :: k in vals)
      && (forall k | k in vals :: k in keys)
    }

    /** `d.get(k, default)` */
    function Get(k: K, default: V): V {
      if k in vals then vals[k] else default
    }

    /** `d[k] = v` */
    function Put(k: K, v: V): (d: Dict<K, V>)
      ensures Valid() ==> d.Valid()
      ensures d.vals == vals[k := v]
    {
      Dict(if k in vals then keys else keys + [k], vals[k := v])
    }

    /** `list(d.items())` */
    function Items(): (r: seq<(K, V)>)
      requires Valid()
      ensures |r| == |keys|
      ensures forall i :: 0 <= i < |r| ==> r[i] == (keys[i], vals[keys[i]])
    {
      seq(|keys|, i requires 0 <= i < |keys| => (keys[i], vals[keys[i]]))
    }
  }

  function Empty<K(==), V>(): (d: Dict<K, V>)
    ensures d.Valid() && d.keys == [] && d.vals == map[]
  {
    Dict([], map[])
  }
}
