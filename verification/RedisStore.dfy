/**
 The three atomic commands on a leased Redis key: `SET … NX PX`, and the two scripts that renew or
 delete a key only while it still holds the caller's value.
 */
module RedisStore {
  import opened Wrappers

  datatype Entry = Entry(value: string, expiresAt: int)

  /** A key past its expiry is gone, whether or not it has been swept yet. */
  predicate Live<K>(store: map<K, Entry>, key: K, now: int) {
    key in store && now < store[key].expiresAt
  }

  predicate HeldBy<K>(store: map<K, Entry>, key: K, value: string, now: int) {
    Live(store, key, now) && store[key].value == value
  }

  function Get<K>(store: map<K, Entry>, key: K, now: int): Option<string> {
    if Live(store, key, now) then Some(store[key].value) else None
  }

  function SetIfFree<K>(store: map<K, Entry>, key: K, value: string, ttl: nat, now: int): map<K, Entry> {
    if Live(store, key, now) then store else store[key := Entry(value, now + ttl)]
  }

  function RenewIfHeld<K>(store: map<K, Entry>, key: K, value: string, ttl: nat, now: int): map<K, Entry> {
    if HeldBy(store, key, value, now) then store[key := Entry(value, now + ttl)] else store
  }

  function DeleteIfHeld<K>(store: map<K, Entry>, key: K, value: string, now: int): map<K, Entry> {
    if HeldBy(store, key, value, now) then store - {key} else store
  }
}
