// RedisService: the expiring key-value store, updated in place.
module RedisService {
  import opened Wrappers
  import opened Schema
  import opened Redis

  class RedisService<V(==)> {
    var store: Store<V>
    // What a blacklist entry holds; only its presence is ever looked at.
    const mark: V

    constructor (mark: V)
      ensures store == map[] && this.mark == mark
    {
      this.mark := mark;
      store := map[];
    }

    /** A value is answered until its expiry instant, and not from then on. */
    method Get(key: string, now: Millis) returns (r: Option<V>)
      ensures r == Redis.Get(store, key, now)
    {
      if key !in store { return None; }
      var entry := store[key];
      if entry.expiresAt.Some? && entry.expiresAt.value <= now { return None; }
      return Some(entry.value);
    }

    method Set(key: string, value: V, ttlSeconds: Option<nat>, now: Millis)
      modifies this
      ensures store == Redis.Set(old(store), key, value, ttlSeconds, now)
    {
      if ttlSeconds.Some? && ttlSeconds.value != 0 {
        store := store[key := Entry(value, Some(now + ttlSeconds.value * 1000))];
      } else {
        store := store[key := Entry(value, None)];
      }
    }

    method Del(keys: set<string>)
      modifies this
      ensures store.Keys == old(store).Keys - keys
      ensures forall k :: k in store ==> store[k] == old(store)[k]
    {
      if keys != {} { store := store - keys; }
    }

    method BlacklistToken(jti: string, ttlSeconds: nat, now: Millis)
      modifies this
      ensures store == SetEx(old(store), BlacklistKey(jti), mark, ttlSeconds, now)
    {
      store := store["bl:rt:" + jti := Entry(mark, Some(now + ttlSeconds * 1000))];
    }

    method IsBlacklisted(jti: string, now: Millis) returns (r: bool)
      ensures r == Redis.Get(store, BlacklistKey(jti), now).Some?
    {
      var entry := Get(BlacklistKey(jti), now);
      return entry.Some?;
    }
  }
}
