/** The anime API caches: `animeDataCache` (listing pages, keyed "{category}-{page}") and
    `animeInfoCache` (detail pages, keyed by id). An entry is served while it is younger
    than five minutes, and an insert that takes a cache over its threshold evicts every
    entry older than five minutes. The clock is the `now` argument. */
module AnimeCache {

  import opened Wrappers
  import opened Text
  import opened Numbers

  /** `CACHE_DURATION`, in milliseconds. */
  const CacheDuration: int := 5 * 60 * 1000

  /** The sizes above which an insert triggers the eviction. */
  const DataCacheLimit: nat := 30
  const InfoCacheLimit: nat := 20

  datatype Entry<T> = Entry(data: T, timestamp: int)

  /** A cached entry is returned while `now - timestamp < CACHE_DURATION`. */
  predicate IsFresh<T>(e: Entry<T>, now: int) {
    now - e.timestamp < CacheDuration
  }

  /** The eviction loop deletes an entry when `now - timestamp > CACHE_DURATION`. */
  predicate IsExpired<T>(e: Entry<T>, now: int) {
    now - e.timestamp > CacheDuration
  }

  /** The cache after the eviction loop. */
  function Evicted<T>(m: map<string, Entry<T>>, now: int): map<string, Entry<T>> {
    map k | k in m && !IsExpired(m[k], now) :: m[k]
  }

  /** The eviction deletes exactly the expired entries and leaves the others as they were. */
  lemma EvictedEntries<T>(m: map<string, Entry<T>>, now: int)
    ensures Evicted(m, now).Keys <= m.Keys
    ensures forall k :: k in m ==> (k in Evicted(m, now) <==> !IsExpired(m[k], now))
    ensures forall k :: k in Evicted(m, now) ==> Evicted(m, now)[k] == m[k]
  {
  }

  /** What a lookup returns: the data of a fresh entry, else nothing. */
  function Served<T>(m: map<string, Entry<T>>, key: string, now: int): Option<T> {
    if key in m && IsFresh(m[key], now) then Some(m[key].data) else None
  }

  /** The cache after a lookup: a stale entry for the key is deleted. */
  function AfterLookup<T>(m: map<string, Entry<T>>, key: string, now: int): map<string, Entry<T>> {
    if key in m && !IsFresh(m[key], now) then m - {key} else m
  }

  /** The cache after `cache.set(key, {data, timestamp: now})` and the size check. */
  function Stored<T>(m: map<string, Entry<T>>, key: string, data: T, now: int, limit: nat): map<string, Entry<T>> {
    var m' := m[key := Entry(data, now)];
    if |m'| > limit then Evicted(m', now) else m'
  }

  /** An entry just stored is served at once and for the next five minutes, whatever the
      eviction did to the others; entries for other keys are kept or evicted, never changed. */
  lemma {:induction false} StoredServed<T>(m: map<string, Entry<T>>, key: string, data: T, now: int, limit: nat, later: int)
    requires now <= later < now + CacheDuration
    ensures Served(Stored(m, key, data, now, limit), key, later) == Some(data)
    ensures forall k :: k in Stored(m, key, data, now, limit) && k != key ==> k in m && Stored(m, key, data, now, limit)[k] == m[k]
  {
    var m' := m[key := Entry(data, now)];
    if |m'| > limit {
      assert !IsExpired(m'[key], now);
      assert key in Evicted(m', now);
    }
  }

  /** A lookup never serves an entry it leaves stale in the cache, and it changes nothing for
      other keys. */
  lemma LookupKeepsOthers<T>(m: map<string, Entry<T>>, key: string, now: int)
    ensures Served(m, key, now).Some? <==> key in m && IsFresh(m[key], now)
    ensures key in AfterLookup(m, key, now) ==> IsFresh(AfterLookup(m, key, now)[key], now)
    ensures forall k :: k != key ==> (k in AfterLookup(m, key, now) <==> k in m)
  {
  }

  /** A `Map` from keys to timestamped entries. */
  class TtlCache<T> {
    var entries: map<string, Entry<T>>

    constructor()
      ensures entries == map[]
    {
      entries := map[];
    }

    /** The cache check at the start of a fetch. */
    method Lookup(key: string, now: int) returns (r: Option<T>)
      modifies this
      ensures r == Served(old(entries), key, now)
      ensures entries == AfterLookup(old(entries), key, now)
    {
      r := None;
      if key in entries {
        var cached := entries[key];
        if now - cached.timestamp < CacheDuration {
          r := Some(cached.data);
        } else {
          entries := entries - {key};
        }
      }
    }

    /** The insert after a successful fetch, and the eviction loop when the cache has grown
        over `limit`. */
    method Store(key: string, data: T, now: int, limit: nat)
      modifies this
      ensures entries == Stored(old(entries), key, data, now, limit)
    {
      entries := entries[key := Entry(data, now)];
      if |entries| > limit {
        ghost var full := entries;
        var keys := entries.Keys;
        while keys != {}
          invariant keys <= full.Keys
          invariant entries == map k | k in full && (k in keys || !IsExpired(full[k], now)) :: full[k]
          decreases |keys|
        {
          var k :| k in keys;
          if now - entries[k].timestamp > CacheDuration {
            entries := entries - {k};
          }
          keys := keys - {k};
        }
      }
    }
  }

  /** `${category}-${page}` with the defaults 'top-airing' and 1. */
  function DataKey(category: Option<string>, page: Option<nat>): string {
    var c := if category.Some? then category.value else "top-airing";
    var p := if page.Some? then page.value else 1;
    c + "-" + NatToString(p)
  }

  /** Two listings share a cache entry only when they are the same category and page. */
  lemma DataKeyInjective(c1: string, p1: nat, c2: string, p2: nat)
    requires DataKey(Some(c1), Some(p1)) == DataKey(Some(c2), Some(p2))
    ensures c1 == c2 && p1 == p2
  {
    SeparatedDigits(c1, NatToString(p1), c2, NatToString(p2), '-');
    NatToStringInjective(p1, p2);
  }

  /** The listing `fetchAnimeData` returns. */
  datatype PageData<T> = PageData(totalPages: int, results: seq<T>)

  /** `fetchAnimeData(category, page)`: the cached listing while it is fresh; otherwise the
      scraped one (`fetched`), which is cached, or `{totalPages: 0, results: []}` when the
      fetch or the scrape fails. */
  method FetchAnimeData<T>(cache: TtlCache<PageData<T>>, category: Option<string>, page: Option<nat>, now: int,
                           fetched: Result<PageData<T>, string>) returns (r: PageData<T>)
    modifies cache
    ensures var key := DataKey(category, page);
      var served := Served(old(cache.entries), key, now);
      var rest := AfterLookup(old(cache.entries), key, now);
      if served.Some? then r == served.value && cache.entries == old(cache.entries)
      else if fetched.Err? then r == PageData(0, []) && cache.entries == rest
      else r == fetched.value && cache.entries == Stored(rest, key, fetched.value, now, DataCacheLimit)
  {
    var key := DataKey(category, page);
    var cached := cache.Lookup(key, now);
    if cached.Some? {
      return cached.value;
    }
    if fetched.Err? {
      return PageData(0, []);
    }
    cache.Store(key, fetched.value, now, DataCacheLimit);
    r := fetched.value;
  }

  /** `fetchAnimeInfo(id)`: as `fetchAnimeData`, keyed by the id, with threshold 20, and
      `null` on failure. */
  method FetchAnimeInfo<T>(cache: TtlCache<T>, id: string, now: int, fetched: Result<T, string>) returns (r: Option<T>)
    modifies cache
    ensures var served := Served(old(cache.entries), id, now);
      var rest := AfterLookup(old(cache.entries), id, now);
      if served.Some? then r == served && cache.entries == old(cache.entries)
      else if fetched.Err? then r.None? && cache.entries == rest
      else r == Some(fetched.value) && cache.entries == Stored(rest, id, fetched.value, now, InfoCacheLimit)
  {
    r := cache.Lookup(id, now);
    if r.Some? {
      return;
    }
    if fetched.Err? {
      return None;
    }
    cache.Store(id, fetched.value, now, InfoCacheLimit);
    r := Some(fetched.value);
  }
}
