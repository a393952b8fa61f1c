/** Looking up and replacing records in a stored list by a key. */
module Records {
  import opened Prelude

  /** The first position that holds `key`. */
  function Locate<K(==)>(keys: seq<K>, key: K): (r: Option<nat>)
    ensures r.None? <==> key !in keys
    ensures r.Some? ==> r.value < |keys| && keys[r.value] == key && key !in keys[..r.value]
  {
    if keys == [] then None
    else if keys[0] == key then Some(0)
    else
      var r := Locate(keys[1..], key);
      if r.None? then None else Some(r.value + 1)
  }

  ghost predicate Distinct<K>(keys: seq<K>) {
    forall i, j :: 0 <= i < j < |keys| ==> keys[i] != keys[j]
  }

  lemma LocateDistinct<K>(keys: seq<K>, i: nat)
    requires Distinct(keys) && i < |keys|
    ensures Locate(keys, keys[i]) == Some(i)
  {
  }

  /** `_upsert_inplace`: replace the first record with the key, or append. */
  function Upsert<T, K(==)>(records: seq<T>, keys: seq<K>, key: K, incoming: T): seq<T>
    requires |keys| == |records|
  {
    var at := Locate(keys, key);
    if at.Some? then records[at.value := incoming] else records + [incoming]
  }

  method UpsertInPlace<T, K(==)>(records: seq<T>, keys: seq<K>, key: K, incoming: T) returns (r: seq<T>)
    requires |keys| == |records|
    ensures r == Upsert(records, keys, key, incoming)
  {
    for index := 0 to |records|
      invariant key !in keys[..index]
    {
      if keys[index] == key {
        assert Locate(keys, key).value == index;
        return records[index := incoming];
      }
    }
    assert keys[..|records|] == keys;
    return records + [incoming];
  }
}
