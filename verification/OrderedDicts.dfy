/** Python's insertion-ordered dict: the keys in order, and what each one maps to. */
module OrderedDicts {

  predicate Distinct<K(==)>(keys: seq<K>) {
    forall i, j :: 0 <= i < j < |keys| ==> keys[i] != keys[j]
  }

  function Without<K(==,!new)>(keys: seq<K>, key: K): (r: seq<K>)
    ensures forall k :: k in r <==> k in keys && k != key
    ensures Distinct(keys) ==> Distinct(r)
    ensures key !in keys ==> r == keys
    ensures Distinct(keys) && key in keys ==> |r| == |keys| - 1
  {
    if keys == [] then []
    else if keys[0] == key then Without(keys[1..], key)
    else
      var rest := Without(keys[1..], key);
      assert Distinct(keys) ==> keys[0] !in rest by {
        assert forall k :: k in rest ==> k in keys[1..];
      }
      [keys[0]] + rest
  }

  datatype Dict<K(==,!new), V> = Dict(keys: seq<K>, items: map<K, V>) {

    ghost predicate Valid() {
      && Distinct(keys)
      && (forall k :: k in keys <==> k in items.Keys)
    }

    /** d[key] = value: in place when the key is there, otherwise at the end. */
    function Set(key: K, value: V): (r: Dict<K, V>)
      requires Valid()
      ensures r.Valid() && r.items == items[key := value]
    {
      Dict(if key in items then keys else keys + [key], items[key := value])
    }

    /** d.pop(key, None). */
    function Pop(key: K): (r: Dict<K, V>)
      requires Valid()
      ensures r.Valid() && r.items == items - {key}
      ensures forall k :: k in r.keys <==> k in keys && k != key
    {
      Dict(Without(keys, key), items - {key})
    }

    /** OrderedDict.move_to_end(key). */
    function MoveToEnd(key: K): (r: Dict<K, V>)
      requires Valid() && key in items
      ensures r.Valid() && r.items == items
    {
      Dict(Without(keys, key) + [key], items)
    }

    /** tuple(d.values()). */
    function Values(): (r: seq<V>)
      requires Valid()
      ensures |r| == |keys|
      ensures forall i :: 0 <= i < |keys| ==> r[i] == items[keys[i]]
    {
      seq(|keys|, i requires 0 <= i < |keys| => items[keys[i]])
    }
  }

  function Empty<K(==,!new), V>(): (r: Dict<K, V>)
    ensures r.Valid()
  {
    Dict([], map[])
  }

  /** len(d) counts each key once. */
  lemma {:induction false} SizeOfKeys<K(!new)>(keys: seq<K>, domain: set<K>)
    requires Distinct(keys) && forall k :: k in keys <==> k in domain
    ensures |keys| == |domain|
  {
    if keys == [] {
      assert domain == {};
    } else {
      SizeOfKeys(keys[1..], domain - {keys[0]});
    }
  }
}
