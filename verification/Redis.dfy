/** String keys with an optional expiry, as Redis keeps them: an entry whose deadline has
    passed is as good as absent although it may still be in the map.  Time is in
    milliseconds. */
module Redis {
  import opened Options

  datatype Entry<+V> = Entry(value: V, deadline: Option<nat>)

  predicate Live<K, V>(keys: map<K, Entry<V>>, k: K, now: nat) {
    k in keys && (keys[k].deadline.None? || now < keys[k].deadline.value)
  }

  function Get<K, V>(keys: map<K, Entry<V>>, k: K, now: nat): Option<V> {
    if Live(keys, k, now) then Some(keys[k].value) else None
  }

  /** The deadline of a key written at `now` with a TTL; a TTL of 0 means none was given. */
  function Deadline(now: nat, ttl: nat): Option<nat> {
    if ttl == 0 then None else Some(now + ttl)
  }

  function Set<K, V>(keys: map<K, Entry<V>>, k: K, v: V, now: nat, ttl: nat): map<K, Entry<V>> {
    keys[k := Entry(v, Deadline(now, ttl))]
  }

  function Del<K, V>(keys: map<K, Entry<V>>, k: K): map<K, Entry<V>> {
    keys - {k}
  }

  /** `COMPARE_AND_SET_SCRIPT` of src/storage/RedisTokenStore.ts. */
  function CompareAndSet<K, V(==)>(keys: map<K, Entry<V>>, k: K, expected: V, v: V, now: nat, ttl: nat)
    : (map<K, Entry<V>>, bool)
  {
    if Get(keys, k, now) == Some(expected) then (Set(keys, k, v, now, ttl), true) else (keys, false)
  }

  /** `SET key value PX ttl NX`. */
  function SetIfAbsent<K, V>(keys: map<K, Entry<V>>, k: K, v: V, now: nat, ttl: nat): (map<K, Entry<V>>, bool) {
    if Live(keys, k, now) then (keys, false) else (Set(keys, k, v, now, ttl), true)
  }

  /** The release script of src/utility/lockHelper.ts: only the owner's value is deleted. */
  function DelIfOwner<K, V(==)>(keys: map<K, Entry<V>>, k: K, v: V, now: nat): map<K, Entry<V>> {
    if Get(keys, k, now) == Some(v) then Del(keys, k) else keys
  }
}
