/** Insertion-ordered maps from names to values, the shape of the keyword
    dictionaries and declaration sets of the factory library. */
module OrderedMaps {
  import opened Values

  /** `keys` lists the names of `m` in insertion order. */
  datatype OMap<T> = OMap(keys: seq<Name>, m: map<Name, T>) {

    ghost predicate Valid() {
      && Distinct(keys)
      && (forall k :: k in m <==> k in keys)
    }
  }

  function Empty<T>(): (o: OMap<T>)
    ensures o.Valid() && o.m == map[]
  {
    OMap([], map[])
  }

  /** Dictionary assignment: an existing name keeps its position, a new one
      goes to the end. */
  function Put<T>(o: OMap<T>, k: Name, v: T): (r: OMap<T>)
    requires o.Valid()
    ensures r.Valid()
    ensures r.m == o.m[k := v]
    ensures k in o.m ==> r.keys == o.keys
    ensures k !in o.m ==> r.keys == o.keys + [k]
  {
    if k in o.m then OMap(o.keys, o.m[k := v]) else OMap(o.keys + [k], o.m[k := v])
  }
}
