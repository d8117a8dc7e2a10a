// The key-value store behind RedisService: values with an optional expiry.
module Redis {
  import opened Wrappers
  import opened Tables
  import opened Schema

  // A key is readable strictly before its expiry instant.
  datatype Entry<+V> = Entry(value: V, expiresAt: Option<Millis>)

  type Store<V> = map<string, Entry<V>>

  predicate Alive<V>(e: Entry<V>, now: Millis) {
    e.expiresAt.None? || now < e.expiresAt.value
  }

  function Get<V>(store: Store<V>, key: string, now: Millis): Option<V> {
    if key in store && Alive(store[key], now) then Some(store[key].value) else None
  }

  /** RedisService.set: a missing or zero TTL sets no expiry. */
  function Set<V>(store: Store<V>, key: string, value: V, ttlSeconds: Option<nat>, now: Millis): Store<V> {
    if ttlSeconds.Some? && ttlSeconds.value > 0 then SetEx(store, key, value, ttlSeconds.value, now)
    else store[key := Entry(value, None)]
  }

  /** SET key value EX ttlSeconds */
  function SetEx<V>(store: Store<V>, key: string, value: V, ttlSeconds: nat, now: Millis): Store<V> {
    store[key := Entry(value, Some(now + ttlSeconds * 1000))]
  }

  function BlacklistKey(jti: string): string { "bl:rt:" + jti }

  function DashboardKey(org: OrgId): string { "dashboard:stats:" + org.uuid }

  function SalesKey(org: OrgId): string { "analytics:sales:" + org.uuid }

  lemma PrefixInjective(p: string, a: string, b: string)
    requires p + a == p + b
    ensures a == b
  {
    assert a == (p + a)[|p|..];
    assert b == (p + b)[|p|..];
  }

  /** No two orgs, and no two uses of the store, share a key. */
  lemma KeysNeverMeet(a: OrgId, b: OrgId, jti: string, jti': string)
    ensures DashboardKey(a) == DashboardKey(b) ==> a == b
    ensures SalesKey(a) == SalesKey(b) ==> a == b
    ensures BlacklistKey(jti) == BlacklistKey(jti') ==> jti == jti'
    ensures DashboardKey(a) != SalesKey(b)
    ensures DashboardKey(a) != BlacklistKey(jti)
    ensures SalesKey(a) != BlacklistKey(jti)
  {
    if DashboardKey(a) == DashboardKey(b) { PrefixInjective("dashboard:stats:", a.uuid, b.uuid); }
    if SalesKey(a) == SalesKey(b) { PrefixInjective("analytics:sales:", a.uuid, b.uuid); }
    if BlacklistKey(jti) == BlacklistKey(jti') { PrefixInjective("bl:rt:", jti, jti'); }
    assert DashboardKey(a)[0] == 'd' && SalesKey(b)[0] == 'a' && SalesKey(a)[0] == 'a' && BlacklistKey(jti)[0] == 'b';
  }

  /** A stored value is read back strictly before its expiry, for good where none is set; other keys keep theirs. */
  lemma SetThenGet<V>(store: Store<V>, key: string, value: V, ttlSeconds: Option<nat>, now: Millis, other: string,
                      later: Millis)
    ensures var ttl := ttlSeconds.GetOr(0);
            Get(Set(store, key, value, ttlSeconds, now), key, later)
            == if ttl == 0 || later < now + ttl * 1000 then Some(value) else None
    ensures other != key ==> Get(Set(store, key, value, ttlSeconds, now), other, later) == Get(store, other, later)
  {
  }
}
