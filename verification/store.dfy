/** The backend's link store: a Redis cache (short code -> original URL) in
    front of a Postgres table `url_mappings` keyed by short code. The model
    lets either client be absent, as the store's nil checks do; the store's
    initialisation in fact always creates a Redis client (a connection
    failure is only logged), so with it a missing cache client never occurs
    and the save error is unreachable. An unreachable Redis server shows up
    as every cache call failing. Every storage call that can fail takes an
    explicit fault flag; a failed call changes nothing. */
module LinkStore {
  import opened Common

  /** A row of `url_mappings`. `createdAt` is set by the insert and kept by
      the conflict update. */
  datatype Row = Row(originalUrl: string, userId: string, createdAt: int)

  /** The two storage tiers. `None` is a client that does not exist. */
  datatype Store = Store(cache: Option<map<string, string>>, db: Option<map<string, Row>>)

  datatype StoreError = DatabaseError

  /** Which storage writes of one `SaveUrlMapping` call fail. */
  datatype SaveFaults = SaveFaults(cacheWriteFails: bool, dbWriteFails: bool)

  /** Which storage calls of one `RetrieveInitialUrl` call fail. A failed cache
      read also stands for an entry that the cache TTL has evicted. */
  datatype LookupFaults = LookupFaults(cacheReadFails: bool, dbReadFails: bool, cacheFillFails: bool)

  datatype SaveResult = SaveResult(store: Store, outcome: Outcome<StoreError>)

  datatype LookupResult = LookupResult(store: Store, url: string)

  const NoSaveFaults := SaveFaults(false, false)
  const NoLookupFaults := LookupFaults(false, false, false)

  /** `SET code url` with a TTL; a failed write leaves the cache as it was. */
  function CacheSet(cache: Option<map<string, string>>, code: string, url: string, fails: bool): (r: Option<map<string, string>>)
    ensures r.Some? <==> cache.Some?
    ensures fails ==> r == cache
    ensures cache.Some? && !fails ==>
      && r.value.Keys == cache.value.Keys + {code}
      && r.value[code] == url
      && forall k :: k in cache.value && k != code ==> r.value[k] == cache.value[k]
  {
    if cache.Some? && !fails then Some(cache.value[code := url]) else cache
  }

  /** `INSERT ... ON CONFLICT (short_url) DO UPDATE SET original_url, user_id`:
      an upsert that keeps the creation time of an existing row. */
  function Upsert(db: map<string, Row>, code: string, url: string, userId: string, now: int): (r: map<string, Row>)
    ensures r.Keys == db.Keys + {code}
    ensures r[code].originalUrl == url && r[code].userId == userId
    ensures r[code].createdAt == (if code in db then db[code].createdAt else now)
    ensures forall k :: k in db && k != code ==> r[k] == db[k]
  {
    var created := if code in db then db[code].createdAt else now;
    db[code := Row(url, userId, created)]
  }

  /** `SaveUrlMapping`: write the cache (errors only logged), then upsert the
      database row. The call fails only when the database exists, its write
      fails, and there is no cache client at all. */
  function SaveUrlMapping(s: Store, code: string, url: string, userId: string, now: int, f: SaveFaults): (r: SaveResult)
    ensures r.outcome.Fail? <==> s.db.Some? && f.dbWriteFails && s.cache.None?
    ensures r.store.cache.Some? <==> s.cache.Some?
    ensures r.store.db.Some? <==> s.db.Some?
    ensures s.cache.Some? && !f.cacheWriteFails ==> code in r.store.cache.value && r.store.cache.value[code] == url
    ensures s.db.Some? && !f.dbWriteFails ==> code in r.store.db.value && r.store.db.value[code].originalUrl == url
    ensures s.cache.Some? ==> forall k :: k != code && k in s.cache.value ==> k in r.store.cache.value && r.store.cache.value[k] == s.cache.value[k]
    ensures s.cache.Some? ==> r.store.cache.value.Keys <= s.cache.value.Keys + {code}
    ensures s.db.Some? ==> forall k :: k != code && k in s.db.value ==> k in r.store.db.value && r.store.db.value[k] == s.db.value[k]
    ensures s.db.Some? ==> r.store.db.value.Keys <= s.db.value.Keys + {code}
    ensures f.cacheWriteFails ==> r.store.cache == s.cache
    ensures f.dbWriteFails ==> r.store.db == s.db
    ensures s.cache.Some? && !f.cacheWriteFails ==> r.store.cache == Some(s.cache.value[code := url])
    ensures s.db.Some? && !f.dbWriteFails ==> r.store.db == Some(Upsert(s.db.value, code, url, userId, now))
  {
    var cache' := CacheSet(s.cache, code, url, f.cacheWriteFails);
    if s.db.None? then
      SaveResult(Store(cache', s.db), Pass)
    else if f.dbWriteFails then
      SaveResult(Store(cache', s.db), if s.cache.Some? then Pass else Fail(DatabaseError))
    else
      SaveResult(Store(cache', Some(Upsert(s.db.value, code, url, userId, now))), Pass)
  }

  /** `RetrieveInitialUrl`: read-through lookup. A cache hit is returned as
      is; otherwise the database row is returned and copied into the cache.
      The empty string is the only "not found" answer. */
  function RetrieveInitialUrl(s: Store, code: string, f: LookupFaults): (r: LookupResult)
    ensures r.store.db == s.db
    ensures r.store.cache.Some? <==> s.cache.Some?
    ensures CacheHit(s, code, f) ==> r.url == s.cache.value[code] && r.store == s
    ensures !CacheHit(s, code, f) && DbHit(s, code, f) ==>
      r.url == s.db.value[code].originalUrl
      && (s.cache.Some? && !f.cacheFillFails ==> r.store.cache == Some(s.cache.value[code := r.url]))
    ensures !CacheHit(s, code, f) && !DbHit(s, code, f) ==> r.url == "" && r.store == s
    ensures f.cacheFillFails ==> r.store == s
  {
    if CacheHit(s, code, f) then
      LookupResult(s, s.cache.value[code])
    else if s.db.Some? then
      if f.dbReadFails || code !in s.db.value then
        LookupResult(s, "")
      else
        var url := s.db.value[code].originalUrl;
        LookupResult(Store(CacheSet(s.cache, code, url, f.cacheFillFails), s.db), url)
    else
      LookupResult(s, "")
  }

  /** The Redis `GET` succeeds with a value. */
  predicate CacheHit(s: Store, code: string, f: LookupFaults) {
    s.cache.Some? && !f.cacheReadFails && code in s.cache.value
  }

  /** The Postgres `SELECT` returns a row. */
  predicate DbHit(s: Store, code: string, f: LookupFaults) {
    s.db.Some? && !f.dbReadFails && code in s.db.value
  }

  /** The cache TTL running out for one key. */
  function Expire(s: Store, code: string): (r: Store)
    ensures r.db == s.db
    ensures s.cache.Some? ==> r.cache.Some? && code !in r.cache.value
    ensures s.cache.Some? ==> r.cache.value.Keys == s.cache.value.Keys - {code}
    ensures s.cache.Some? ==> forall k :: k in r.cache.value ==> r.cache.value[k] == s.cache.value[k]
    ensures s.cache.None? ==> r.cache.None?
  {
    if s.cache.Some? then Store(Some(s.cache.value - {code}), s.db) else s
  }

  /** Cache and database agree on every key both of them hold. */
  ghost predicate Coherent(s: Store) {
    s.cache.Some? && s.db.Some? ==>
      forall k :: k in s.cache.value && k in s.db.value ==> s.cache.value[k] == s.db.value[k].originalUrl
  }

  // ---------------------------------------------------------------------
  // Properties

  /** Round trip: after a save whose writes succeed, on a store with at least
      one tier, the lookup returns exactly the saved URL. */
  lemma SaveThenRetrieve(s: Store, code: string, url: string, userId: string, now: int)
    requires s.cache.Some? || s.db.Some?
    ensures var saved := SaveUrlMapping(s, code, url, userId, now, NoSaveFaults);
      saved.outcome == Pass && RetrieveInitialUrl(saved.store, code, NoLookupFaults).url == url
  {
  }

  /** Last write wins: saving a code again overwrites the URL and the owner
      of its row, keeps the row's creation time and never fails on the
      conflict. */
  lemma OverwriteLastWriteWins(s: Store, code: string, url1: string, user1: string, t1: int,
                               url2: string, user2: string, t2: int)
    requires s.db.Some?
    ensures var s1 := SaveUrlMapping(s, code, url1, user1, t1, NoSaveFaults).store;
      var r2 := SaveUrlMapping(s1, code, url2, user2, t2, NoSaveFaults);
      && r2.outcome == Pass
      && r2.store.db.value[code] == Row(url2, user2, s1.db.value[code].createdAt)
      && RetrieveInitialUrl(r2.store, code, NoLookupFaults).url == url2
  {
  }

  /** A cache write failure never makes the save fail, and neither does a
      store with no tier at all. */
  lemma SaveErrorOnlyFromLoneDatabase(s: Store, code: string, url: string, userId: string, now: int, f: SaveFaults)
    ensures s.cache.None? && s.db.None? ==> SaveUrlMapping(s, code, url, userId, now, f).outcome == Pass
    ensures !f.dbWriteFails ==> SaveUrlMapping(s, code, url, userId, now, f).outcome == Pass
  {
  }

  /** With a cache client present the save reports success even when both of
      its writes fail: nothing was stored and the code stays unknown. */
  lemma SuccessWithoutStoring(s: Store, code: string, url: string, userId: string, now: int)
    requires s.cache.Some? && code !in s.cache.value
    requires s.db.Some? && code !in s.db.value
    ensures var r := SaveUrlMapping(s, code, url, userId, now, SaveFaults(true, true));
      r.outcome == Pass && r.store == s
      && forall lf :: RetrieveInitialUrl(r.store, code, lf).url == ""
  {
  }

  /** A cache hit answers from the cache and leaves both tiers untouched. */
  lemma CacheHitLeavesStore(s: Store, code: string, f: LookupFaults)
    requires CacheHit(s, code, f)
    ensures RetrieveInitialUrl(s, code, f) == LookupResult(s, s.cache.value[code])
  {
  }

  /** Read-through fill: after a miss answered by the database, an immediate
      second lookup hits the cache with the same value. */
  lemma MissThenFillThenHit(s: Store, code: string, f: LookupFaults)
    requires s.cache.Some? && !CacheHit(s, code, f)
    requires DbHit(s, code, f) && !f.cacheFillFails
    ensures var first := RetrieveInitialUrl(s, code, f);
      && CacheHit(first.store, code, NoLookupFaults)
      && RetrieveInitialUrl(first.store, code, NoLookupFaults) == LookupResult(first.store, first.url)
      && first.url == s.db.value[code].originalUrl
  {
  }

  /** The empty string comes back exactly when no tier answered (or the
      answering tier holds the empty string). */
  lemma NotFoundSignal(s: Store, code: string, f: LookupFaults)
    ensures var r := RetrieveInitialUrl(s, code, f);
      r.url != "" ==>
        (CacheHit(s, code, f) && s.cache.value[code] == r.url)
        || (DbHit(s, code, f) && s.db.value[code].originalUrl == r.url)
    ensures s.db.None? && s.cache.None? ==> RetrieveInitialUrl(s, code, f).url == ""
    ensures !CacheHit(s, code, f) && (s.db.None? || f.dbReadFails) ==> RetrieveInitialUrl(s, code, f).url == ""
  {
  }

  /** Lookups keep the tiers coherent, and so does a save whose writes all
      succeed. */
  lemma CoherencePreserved(s: Store, code: string, url: string, userId: string, now: int, lf: LookupFaults)
    requires Coherent(s)
    ensures Coherent(RetrieveInitialUrl(s, code, lf).store)
    ensures Coherent(SaveUrlMapping(s, code, url, userId, now, NoSaveFaults).store)
    ensures Coherent(Expire(s, code))
  {
  }

  /** A cache write that fails during an overwrite leaves a stale entry: the
      database has the new URL, the cache and every lookup still the old one. */
  lemma StaleCacheAfterFailedCacheWrite(code: string, oldUrl: string, newUrl: string, userId: string, now: int)
    requires oldUrl != newUrl
    ensures var s := Store(Some(map[code := oldUrl]), Some(map[code := Row(oldUrl, userId, 0)]));
      var r := SaveUrlMapping(s, code, newUrl, userId, now, SaveFaults(true, false));
      && Coherent(s) && !Coherent(r.store)
      && r.outcome == Pass
      && r.store.db.value[code].originalUrl == newUrl
      && RetrieveInitialUrl(r.store, code, NoLookupFaults).url == oldUrl
  {
  }

  /** Once the stale entry expires, the database value is served again. */
  lemma ExpiryHealsStaleEntry(s: Store, code: string)
    requires s.db.Some? && code in s.db.value
    ensures RetrieveInitialUrl(Expire(s, code), code, NoLookupFaults).url == s.db.value[code].originalUrl
  {
  }
}
