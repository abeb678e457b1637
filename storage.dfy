/** The browser's LocalStorage, as both front-ends use it: a string-keyed map
    of stored values, read without change and written one key at a time. */
module Storage {
  import opened Outcomes

  class Store<V> {
    var entries: map<string, V>

    constructor Empty()
      ensures entries == map[]
    {
      entries := map[];
    }

    /** `LocalStorage::get`: the value under `key`, if there is one. */
    function Get(key: string): (r: Option<V>)
      reads this
      ensures r.Some? <==> key in entries
      ensures r.Some? ==> r.value == entries[key]
    {
      if key in entries then Some(entries[key]) else None
    }

    /** `LocalStorage::set`: `key` now holds `value`; every other key keeps
        what it held. */
    method Set(key: string, value: V)
      modifies this
      ensures entries == old(entries)[key := value]
      ensures Get(key) == Some(value)
      ensures forall k | k != key :: Get(k) == old(Get(k))
    {
      entries := entries[key := value];
    }
  }
}
