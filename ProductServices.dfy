/**
 * The product service: a cache-aside read of the bear's stock through a
 * process-local memory cache with a five-second absolute expiry, the same read
 * without the cache, and the seeding of the bear record.
 *
 * Time is an explicit clock in milliseconds passed to each cached read,
 * together with the time its store query takes. The memory cache is a map from
 * key to (value, expiresAt); an entry is live while the clock is strictly
 * before its expiry.
 */
module ProductServices {
  import opened Wrappers
  import opened Numerics
  import opened Catalog

  datatype CacheEntry = CacheEntry(value: int32, expiresAt: int)

  type Cache = map<string, CacheEntry>

  /** The fixed key of the cached stock. */
  const StockKey: string := "product_stock"

  /** Five seconds, in milliseconds. */
  const StockTtl: int := 5000

  /** `TryGetValue`: the value under `key` if there is an entry that has not expired at `now`. */
  function Lookup(cache: Cache, key: string, now: int): Option<int32>
  {
    if key in cache && now < cache[key].expiresAt then Some(cache[key].value) else None
  }

  /** `Set` with `AbsoluteExpirationRelativeToNow = ttl`: overwrites any earlier entry. */
  function Store(cache: Cache, key: string, value: int32, now: int, ttl: int): Cache
  {
    cache[key := CacheEntry(value, now + ttl)]
  }

  /** A value stored with a positive lifetime is read back until, and only until, it expires. */
  lemma StoreThenLookup(cache: Cache, key: string, value: int32, now: int, ttl: int, later: int)
    requires 0 < ttl && now <= later
    ensures Lookup(Store(cache, key, value, now, ttl), key, later)
            == if later < now + ttl then Some(value) else None
  {
  }

  /** The outcome of one cached read: the stock returned, the cache after it, and whether it queried the store. */
  datatype StockRead = StockRead(stock: int32, cache: Cache, queriedStore: bool)

  /** The delay the store query simulates before it runs (`Task.Delay(500)`), in milliseconds. */
  const SimulatedLatency: nat := 500

  /**
   * The cache-aside read of the stock: the cache is consulted at `now`; on a
   * miss the store query takes `elapsed` milliseconds, and the entry is set
   * when it returns, at `now + elapsed`, to expire five seconds after that.
   */
  function CachedStock(cache: Cache, store: seq<Product>, now: int, elapsed: nat): (r: StockRead)
    ensures Lookup(r.cache, StockKey, now) == Some(r.stock)
    ensures r.queriedStore ==> Lookup(r.cache, StockKey, now + elapsed) == Some(r.stock)
    ensures r.queriedStore <==> Lookup(cache, StockKey, now).None?
    ensures forall k :: k != StockKey ==> (k in r.cache <==> k in cache) && (k in cache ==> r.cache[k] == cache[k])
  {
    match Lookup(cache, StockKey, now)
    case Some(v) => StockRead(v, cache, false)
    case None =>
      var v := StoreStock(store);
      StockRead(v, Store(cache, StockKey, v, now + elapsed, StockTtl), true)
  }

  /** A hit returns the cached value, leaves the cache as it was and does not query the store. */
  lemma HitServesCachedValue(cache: Cache, store: seq<Product>, now: int, elapsed: nat)
    requires StockKey in cache && now < cache[StockKey].expiresAt
    ensures CachedStock(cache, store, now, elapsed) == StockRead(cache[StockKey].value, cache, false)
  {
  }

  /**
   * A miss queries the store once, caches that value under the stock key with
   * an expiry five seconds after the query returns, and returns the same value.
   */
  lemma MissReadsStoreAndCaches(cache: Cache, store: seq<Product>, now: int, elapsed: nat)
    requires StockKey !in cache || cache[StockKey].expiresAt <= now
    ensures var r := CachedStock(cache, store, now, elapsed);
            r.queriedStore && r.stock == StoreStock(store) &&
            r.cache == cache[StockKey := CacheEntry(r.stock, now + elapsed + StockTtl)]
  {
  }

  /**
   * The staleness window: once a read at `t1` has cached a value, every read
   * before that entry expires returns the same value without querying the
   * store, whatever the store has become in between.
   */
  lemma StaleWithinWindow(cache: Cache, s1: seq<Product>, s2: seq<Product>, t1: int, e1: nat, t2: int, e2: nat)
    requires t1 <= t2 < CachedStock(cache, s1, t1, e1).cache[StockKey].expiresAt
    ensures var r1 := CachedStock(cache, s1, t1, e1);
            CachedStock(r1.cache, s2, t2, e2) == StockRead(r1.stock, r1.cache, false)
  {
  }

  /**
   * After a miss at `t1` whose store query took `e1`, reads until five seconds
   * after the query returned are served from the cache. When the query takes
   * at least the simulated 500 ms, that is at least 5.5 s after the lookup.
   */
  lemma MissOpensWindow(cache: Cache, s1: seq<Product>, s2: seq<Product>, t1: int, e1: nat, t2: int, e2: nat)
    requires Lookup(cache, StockKey, t1).None?
    requires t1 <= t2 < t1 + e1 + StockTtl
    ensures CachedStock(CachedStock(cache, s1, t1, e1).cache, s2, t2, e2).stock == StoreStock(s1)
  {
    StaleWithinWindow(cache, s1, s2, t1, e1, t2, e2);
  }

  /** Once the entry has expired, the next read goes back to the store and returns its current value. */
  lemma FreshAfterExpiry(cache: Cache, s1: seq<Product>, s2: seq<Product>, t1: int, e1: nat, t2: int, e2: nat)
    requires t2 >= CachedStock(cache, s1, t1, e1).cache[StockKey].expiresAt
    ensures var r2 := CachedStock(CachedStock(cache, s1, t1, e1).cache, s2, t2, e2);
            r2.queriedStore && r2.stock == StoreStock(s2) &&
            r2.cache[StockKey].expiresAt == t2 + e2 + StockTtl
  {
  }

  /**
   * A worked scenario: a bear with stock 42 is read through the cache at time 0,
   * the store query taking the simulated 500 ms; the store then changes to 7.
   * The cached read still says 42 at 5.499 s and says 7 from 5.5 s on, while
   * the uncached read says 7 at once.
   */
  lemma StaleThenFreshScenario(cache: Cache)
    requires StockKey !in cache
    ensures var before := [Product(1, BearName, 42, 29900)];
            var after := [Product(1, BearName, 7, 29900)];
            var r0 := CachedStock(cache, before, 0, SimulatedLatency);
            r0.stock == 42 &&
            CachedStock(r0.cache, after, 5499, SimulatedLatency).stock == 42 &&
            CachedStock(r0.cache, after, 5500, SimulatedLatency).stock == 7 &&
            StoreStock(after) == 7
  {
    var before := [Product(1, BearName, 42, 29900)];
    var after := [Product(1, BearName, 7, 29900)];
    assert StoreStock(before) == 42;
    assert StoreStock(after) == 7;
  }

  /**
   * The service together with the process-wide state it works on: `cache` is
   * the memory cache, `store` the product table. One object stands for all of
   * that state. `stockQueries` counts the stock queries made, so that "no
   * store query" can be stated; the existence check of the seeding is not counted.
   */
  class ProductService {
    var cache: Cache
    var store: seq<Product>
    ghost var stockQueries: nat

    constructor (cache: Cache, store: seq<Product>)
      ensures this.cache == cache && this.store == store && stockQueries == 0
    {
      this.cache := cache;
      this.store := store;
      stockQueries := 0;
    }

    /** The stock query: the first bear's stock or 0; one stock query, nothing else changes. */
    method GetStockFromDatabase() returns (stock: int32)
      modifies this`stockQueries
      ensures stock == StoreStock(store)
      ensures stockQueries == old(stockQueries) + 1
    {
      stock := StoreStock(store);
      stockQueries := stockQueries + 1;
    }

    /**
     * The cached read: serve an entry live at `now`, or query the store, which
     * takes `elapsed` milliseconds, and cache the result for five seconds from
     * the moment the query returns.
     */
    method GetStock(now: int, elapsed: nat) returns (stock: int32)
      modifies this`cache, this`stockQueries
      ensures var r := CachedStock(old(cache), store, now, elapsed);
              stock == r.stock && cache == r.cache &&
              stockQueries == old(stockQueries) + (if r.queriedStore then 1 else 0)
      ensures Lookup(cache, StockKey, now) == Some(stock)
    {
      var cached := Lookup(cache, StockKey, now);
      if cached.Some? {
        stock := cached.value;
      } else {
        stock := GetStockFromDatabase();
        cache := Store(cache, StockKey, stock, now + elapsed, StockTtl);
      }
    }

    /** The uncached read: always one stock query, and the cache is left alone. */
    method GetStockNoCache() returns (stock: int32)
      modifies this`stockQueries
      ensures stock == StoreStock(store)
      ensures stockQueries == old(stockQueries) + 1
      ensures cache == old(cache)
    {
      stock := GetStockFromDatabase();
    }

    /** The check-then-insert seeding; the cache is not invalidated. */
    method InitTestData() returns (inserted: bool)
      modifies this`store
      ensures (store, inserted) == Seeded(old(store))
      ensures inserted <==> !old(HasNamed(store, BearName))
      ensures cache == old(cache)
    {
      if HasNamed(store, BearName) {
        inserted := false;
        return;
      }
      store := store + [SeedProduct];
      inserted := true;
    }
  }
}
