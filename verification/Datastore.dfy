/** A key-value store whose keys are paths, as the state indices use it. */
module Datastore {

  /** A datastore key by its components. */
  type Key = seq<string>

  /** Where the state that an event brought is stored. */
  function DataKey(model: string, eventId: string): Key {
    ["data", model, eventId]
  }

  /** A query's prefix matches whole components, and only below it. */
  predicate Under(prefix: Key, key: Key) {
    |prefix| < |key| && key[..|prefix|] == prefix
  }

  function Entries<V>(store: map<Key, V>, prefix: Key): set<Key> {
    set k | k in store && Under(prefix, k)
  }

  function PutAll<V>(store: map<Key, V>, keys: seq<Key>, value: Key -> V): map<Key, V> {
    if keys == [] then store
    else PutAll(store, keys[..|keys| - 1], value)[keys[|keys| - 1] := value(keys[|keys| - 1])]
  }

  lemma {:induction false} PutAllPuts<V>(store: map<Key, V>, keys: seq<Key>, value: Key -> V, k: Key)
    ensures k in PutAll(store, keys, value) <==> k in store || k in keys
    ensures k in keys ==> PutAll(store, keys, value)[k] == value(k)
    ensures k in store && k !in keys ==> PutAll(store, keys, value)[k] == store[k]
  {
    if keys != [] {
      PutAllPuts(store, keys[..|keys| - 1], value, k);
      assert keys == keys[..|keys| - 1] + [keys[|keys| - 1]];
    }
  }
}
