/** A Python dictionary from keys to integers, which remembers the order in
    which keys were first inserted. */
module OrderedDicts {

  datatype Dict<K(!new)> = Dict(keys: seq<K>, values: map<K, int>)
  {
    /** Keys are listed once each, and exactly the keys of the map are listed. */
    ghost predicate Valid()
    {
      (forall i, j :: 0 <= i < j < |keys| ==> keys[i] != keys[j]) &&
      (forall k :: k in values <==> k in keys)
    }

    /** `d[k] = v`: a new key goes to the end, an existing key keeps its place. */
    function Insert(k: K, v: int): (d: Dict<K>)
      requires Valid()
      ensures d.Valid()
      ensures d.values == values[k := v]
      ensures k in values ==> d.keys == keys
      ensures k !in values ==> d.keys == keys + [k]
    {
      Dict(if k in values then keys else keys + [k], values[k := v])
    }
  }

  function EmptyDict<K(!new)>(): (d: Dict<K>)
    ensures d.Valid() && d.keys == [] && d.values == map[]
  {
    Dict([], map[])
  }
}
