/**
 * The response cache middleware (src/middleware/cache.js) and the in-memory
 * TTL store it writes to.
 *
 * The store is the process-wide `memory-cache` instance: a map from key to
 * (body, expiry time in ms) over an explicit clock `now`, plus the order in
 * which keys were first inserted, which is the order `keys()` reports.
 * The middleware itself either lets the request through (`next`), answers
 * from the store, or wraps `res.send` so that a later 2xx body is stored.
 */
module Cache {
  import opened Js

  /** One stored response: the body and the clock time (ms) until which it is served. */
  datatype Entry = Entry(body: JsValue, expiresAt: int)

  const KeyPrefix: string := "__cache__"

  /** The middleware's default TTL in seconds: `parseInt(CACHE_TTL) || 3600`, read once when the module loads. */
  function DefaultCacheTtl(loadEnv: map<string, string>): (ttl: int)
    ensures ttl != 0
    ensures EnvGet(loadEnv, "CACHE_TTL").None? ==> ttl == 3600
  {
    ParseIntOr(EnvGet(loadEnv, "CACHE_TTL"), 3600)
  }

  // ---------------------------------------------------------------------
  // The store, as values
  // ---------------------------------------------------------------------

  /** An entry is served while the clock has not passed its expiry time. */
  predicate Live(e: Entry, now: int) {
    now <= e.expiresAt
  }

  /** `cache.get(key)` at time `now`: the stored body, unless absent or expired. */
  function Lookup(entries: map<string, Entry>, key: string, now: int): Option<JsValue> {
    if key in entries && Live(entries[key], now) then Some(entries[key].body) else None
  }

  /** `cache.put(key, body, ttlMs)` at time `now`: inserts or replaces, restarting the expiry clock. */
  function PutEntry(entries: map<string, Entry>, key: string, body: JsValue, ttlMs: int, now: int): map<string, Entry> {
    entries[key := Entry(body, now + ttlMs)]
  }

  /** A stored body is served until its TTL has elapsed and not after; other keys are untouched. */
  lemma LookupAfterPut(entries: map<string, Entry>, key: string, body: JsValue, ttlMs: int, now: int, later: int, other: string)
    requires other != key
    ensures Lookup(PutEntry(entries, key, body, ttlMs, now), key, later) == (if later <= now + ttlMs then Some(body) else None)
    ensures Lookup(PutEntry(entries, key, body, ttlMs, now), other, later) == Lookup(entries, other, later)
  {
  }

  // ---------------------------------------------------------------------
  // The request side: bypass rule and key
  // ---------------------------------------------------------------------

  /**
   * What the middleware reads from the request: `req.originalUrl` (the empty
   * string when it is missing), `req.url`, and `req.query.skipCache` when it
   * is a single string.
   */
  datatype Request = Request(originalUrl: string, url: string, skipCache: Option<string>)

  /** Lines 15-18: the cache is skipped when disabled by `'false'`, or on request in development. */
  predicate Bypass(env: map<string, string>, req: Request) {
    || EnvGet(env, "CACHE_ENABLED") == Some("false")
    || (req.skipCache == Some("true") && EnvGet(env, "NODE_ENV") == Some("development"))
  }

  /** `req.originalUrl || req.url`. */
  function RequestUrl(req: Request): string {
    if req.originalUrl != "" then req.originalUrl else req.url
  }

  /** Line 24: the key is the prefix followed by the request URL. */
  function CacheKey(req: Request): string {
    KeyPrefix + RequestUrl(req)
  }

  /** Two requests share a cache entry exactly when their URLs are the same string. */
  lemma CacheKeyInjective(a: Request, b: Request)
    ensures CacheKey(a) == CacheKey(b) <==> RequestUrl(a) == RequestUrl(b)
  {
    if CacheKey(a) == CacheKey(b) {
      assert RequestUrl(a) == CacheKey(a)[|KeyPrefix|..];
      assert RequestUrl(b) == CacheKey(b)[|KeyPrefix|..];
    }
  }

  /**
   * Only the exact string `'false'` disables the cache, and `skipCache=true`
   * only bypasses it in development: every other configuration consults it.
   */
  lemma CacheConsultedUnlessSwitchedOff(env: map<string, string>, req: Request)
    requires EnvGet(env, "CACHE_ENABLED") != Some("false")
    requires EnvGet(env, "NODE_ENV") != Some("development") || req.skipCache != Some("true")
    ensures !Bypass(env, req)
  {
  }

  // ---------------------------------------------------------------------
  // The store, as the shared mutable object
  // ---------------------------------------------------------------------

  predicate DistinctStrings(s: seq<string>) {
    forall i, j :: 0 <= i < j < |s| ==> s[i] != s[j]
  }

  lemma {:induction false} DistinctCard(s: seq<string>)
    requires DistinctStrings(s)
    ensures |set x | x in s| == |s|
    decreases |s|
  {
    if s != [] {
      var t := s[..|s| - 1];
      assert DistinctStrings(t);
      DistinctCard(t);
      assert (set x | x in s) == (set x | x in t) + {s[|s| - 1]};
      assert s[|s| - 1] !in (set x | x in t);
    }
  }

  class ResponseCache {
    var entries: map<string, Entry>
    /** The stored keys, in the order they were first inserted. */
    var order: seq<string>

    ghost predicate Valid()
      reads this
    {
      && DistinctStrings(order)
      && (forall k :: k in entries <==> k in order)
    }

    constructor ()
      ensures Valid() && entries == map[] && order == []
    {
      entries := map[];
      order := [];
    }

    method Put(key: string, body: JsValue, ttlMs: int, now: int)
      requires Valid()
      modifies this
      ensures Valid()
      ensures entries == PutEntry(old(entries), key, body, ttlMs, now)
      ensures order == if key in old(entries) then old(order) else old(order) + [key]
    {
      if key !in entries {
        order := order + [key];
      }
      entries := PutEntry(entries, key, body, ttlMs, now);
    }

    method Clear()
      modifies this
      ensures Valid() && entries == map[] && order == []
    {
      entries := map[];
      order := [];
    }
  }

  datatype CacheStats = CacheStats(count: nat, keys: seq<string>)

  /** Lines 63-70: the number of stored entries and their keys; the store is only read. */
  method GetCacheStats(store: ResponseCache) returns (stats: CacheStats)
    requires store.Valid()
    ensures stats.count == |stats.keys| == |store.entries|
    ensures stats.keys == store.order
    ensures forall k :: k in stats.keys <==> k in store.entries
    ensures DistinctStrings(stats.keys)
  {
    DistinctCard(store.order);
    assert (set x | x in store.order) == store.entries.Keys;
    stats := CacheStats(|store.order|, store.order);
  }

  datatype ClearResult = ClearResult(success: bool, message: string)

  /** Lines 54-58: empties the store and reports success. */
  method ClearCache(store: ResponseCache) returns (r: ClearResult)
    modifies store
    ensures store.Valid() && store.entries == map[] && store.order == []
    ensures r == ClearResult(true, "Cache cleared successfully")
  {
    store.Clear();
    r := ClearResult(true, "Cache cleared successfully");
  }

  // ---------------------------------------------------------------------
  // The response object and the wrapped send
  // ---------------------------------------------------------------------

  /** What the replacement `res.send` closes over: the key and the TTL in seconds. */
  datatype SendHook = SendHook(key: string, ttlSeconds: int)

  class Response {
    var statusCode: int
    /** Set once the middleware has replaced `res.send` (line 36). */
    var hook: Option<SendHook>
    /** The bodies that reached Express's own `send`, in order. */
    var delivered: seq<JsValue>

    constructor (statusCode: int)
      ensures this.statusCode == statusCode && hook == None && delivered == []
    {
      this.statusCode := statusCode;
      hook := None;
      delivered := [];
    }

    /**
     * `res.send(body)`. When the middleware has wrapped it, a body sent with
     * a 2xx status is stored under the key for `ttlSeconds * 1000` ms first
     * (lines 38-41); either way the original send runs once with the same
     * body (line 44).
     */
    method Send(body: JsValue, store: ResponseCache, now: int)
      requires store.Valid()
      modifies this`delivered, store
      ensures store.Valid()
      ensures delivered == old(delivered) + [body]
      ensures hook.Some? && 200 <= statusCode < 300 ==>
        store.entries == PutEntry(old(store.entries), hook.value.key, body, hook.value.ttlSeconds * 1000, now) &&
        store.order == if hook.value.key in old(store.entries) then old(store.order) else old(store.order) + [hook.value.key]
      ensures !(hook.Some? && 200 <= statusCode < 300) ==>
        store.entries == old(store.entries) && store.order == old(store.order)
    {
      if hook.Some? && 200 <= statusCode && statusCode < 300 {
        store.Put(hook.value.key, body, hook.value.ttlSeconds * 1000, now);
      }
      delivered := delivered + [body];
    }
  }

  /**
   * The middleware returned by `cacheMiddleware(ttl)` (lines 13-48), run on
   * one request at time `now`. The result says whether `next()` was called.
   * The store is never written here: on a bypass nothing is touched, on a hit
   * the cached body is sent as it is, and on a miss only `res.send` is
   * wrapped. A stored body that is falsy counts as a miss.
   */
  method CacheMiddleware(ttl: int, env: map<string, string>, req: Request, res: Response, store: ResponseCache, now: int)
      returns (nextCalled: bool)
    requires store.Valid()
    requires res.hook.None?
    modifies res, store
    ensures store.Valid() && store.entries == old(store.entries) && store.order == old(store.order)
    ensures res.statusCode == old(res.statusCode)
    ensures Bypass(env, req) ==>
      nextCalled && res.hook.None? && res.delivered == old(res.delivered)
    ensures !Bypass(env, req) && CachedHit(old(store.entries), req, now) ==>
      !nextCalled && res.hook.None? &&
      res.delivered == old(res.delivered) + [Lookup(old(store.entries), CacheKey(req), now).value]
    ensures !Bypass(env, req) && !CachedHit(old(store.entries), req, now) ==>
      nextCalled && res.hook == Some(SendHook(CacheKey(req), ttl)) && res.delivered == old(res.delivered)
  {
    if Bypass(env, req) {
      return true;
    }
    var key := CacheKey(req);
    var cached := Lookup(store.entries, key, now);
    if cached.Some? && Truthy(cached.value) {
      res.Send(cached.value, store, now);
      return false;
    }
    res.hook := Some(SendHook(key, ttl));
    return true;
  }

  /**
   * A route mounted with `cache()` and no argument: the middleware runs with
   * the default TTL, which was read from `loadEnv`, the environment when this
   * module was loaded (lines 5 and 12). What the environment `env` holds now
   * decides the bypass but not the TTL that a miss stores with.
   */
  method CacheRoute(loadEnv: map<string, string>, env: map<string, string>, req: Request, res: Response,
                    store: ResponseCache, now: int) returns (nextCalled: bool)
    requires store.Valid()
    requires res.hook.None?
    modifies res, store
    ensures store.Valid() && store.entries == old(store.entries) && store.order == old(store.order)
    ensures res.statusCode == old(res.statusCode)
    ensures Bypass(env, req) ==> nextCalled && res.hook.None? && res.delivered == old(res.delivered)
    ensures !Bypass(env, req) && CachedHit(old(store.entries), req, now) ==>
      !nextCalled && res.hook.None? &&
      res.delivered == old(res.delivered) + [Lookup(old(store.entries), CacheKey(req), now).value]
    ensures !Bypass(env, req) && !CachedHit(old(store.entries), req, now) ==>
      nextCalled && res.hook == Some(SendHook(CacheKey(req), DefaultCacheTtl(loadEnv))) &&
      res.delivered == old(res.delivered)
  {
    nextCalled := CacheMiddleware(DefaultCacheTtl(loadEnv), env, req, res, store, now);
  }

  /** Line 27: the store holds a live, truthy body for the request's key. */
  predicate CachedHit(entries: map<string, Entry>, req: Request, now: int) {
    var cached := Lookup(entries, CacheKey(req), now);
    cached.Some? && Truthy(cached.value)
  }

  /**
   * A truthy 2xx body stored by the wrapped send answers the next request for
   * the same URL until `ttl` seconds have passed, and not after.
   */
  lemma StoredResponseServedUntilExpiry(entries: map<string, Entry>, req: Request, again: Request,
                                        body: JsValue, ttl: int, now: int, later: int)
    requires RequestUrl(again) == RequestUrl(req)
    requires Truthy(body)
    ensures CachedHit(PutEntry(entries, CacheKey(req), body, ttl * 1000, now), again, later) <==> later <= now + ttl * 1000
  {
    CacheKeyInjective(req, again);
  }
}
