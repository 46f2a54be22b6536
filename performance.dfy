/** The performance manager: named metrics, and a time-to-live cache swept on every write. */
module Performance {
  import opened Options
  import opened Collections
  import Analytics

  /** The fallback time to live: one day */
  const DefaultTtl: nat := 24 * 60 * 60 * 1000

  /** `ttl || cacheDuration || one day`: the first nonzero of the two, else a day */
  function EffectiveTtl(ttl: nat, cacheDuration: nat): (r: nat)
    ensures r >= 1
    ensures ttl != 0 ==> r == ttl
    ensures ttl == 0 && cacheDuration != 0 ==> r == cacheDuration
    ensures ttl == 0 && cacheDuration == 0 ==> r == DefaultTtl
  {
    if ttl != 0 then ttl else if cacheDuration != 0 then cacheDuration else DefaultTtl
  }

  datatype CacheEntry<D> = CacheEntry(data: D, timestamp: int, ttl: nat)

  /** An entry is stale once strictly more than its ttl has passed */
  predicate Expired<D>(entry: CacheEntry<D>, now: int) {
    now - entry.timestamp > entry.ttl
  }

  /** What a sweep at time now leaves: the entries that are not stale */
  function LiveEntries<D>(cache: map<string, CacheEntry<D>>, now: int): (r: map<string, CacheEntry<D>>)
    ensures r.Keys <= cache.Keys
    ensures forall k :: k in r ==> r[k] == cache[k] && !Expired(cache[k], now)
    ensures forall k :: k in cache && !Expired(cache[k], now) ==> k in r
  {
    map k | k in cache && !Expired(cache[k], now) :: cache[k]
  }

  /** Staleness only grows with time, so an earlier sweep never changes what a later one leaves */
  lemma SweepsCompose<D>(cache: map<string, CacheEntry<D>>, earlier: int, later: int)
    requires earlier <= later
    ensures LiveEntries(LiveEntries(cache, earlier), later) == LiveEntries(cache, later)
  {
  }

  /** An entry written at now survives the sweep at now, whatever its ttl */
  lemma {:induction false} FreshEntrySurvives<D>(cache: map<string, CacheEntry<D>>, key: string, data: D, now: int, ttl: nat)
    ensures var swept := LiveEntries(cache[key := CacheEntry(data, now, ttl)], now);
      key in swept && swept[key].data == data
  {
    assert !Expired(CacheEntry(data, now, ttl), now);
  }

  /** What handlePerformanceEntry reads from a browser entry */
  datatype PerformanceEntry = PerformanceEntry(name: string, duration: int, startTime: int, entryType: string, transferSize: nat)

  datatype Metric =
    | Measurement(name: string, duration: int, memoryDelta: int, timestamp: int, url: string)
    | EntryData(name: string, duration: int, startTime: int, entryType: string, timestamp: int,
                size: Option<nat>, resourceType: Option<string>)

  /** The record handlePerformanceEntry stores: resources also carry their size and type */
  function EntryMetric(entry: PerformanceEntry, now: int): (r: Metric)
    ensures r.EntryData? && r.name == entry.name && r.entryType == entry.entryType && r.timestamp == now
    ensures r.size.Some? <==> entry.entryType == "resource"
    ensures r.resourceType.Some? <==> entry.entryType == "resource"
    ensures r.resourceType.Some? ==> r.resourceType.value == Analytics.ResourceType(entry.name) && r.size.value == entry.transferSize
  {
    if entry.entryType == "resource" then
      EntryData(entry.name, entry.duration, entry.startTime, entry.entryType, now,
                Some(entry.transferSize), Some(Analytics.ResourceType(entry.name)))
    else
      EntryData(entry.name, entry.duration, entry.startTime, entry.entryType, now, None, None)
  }

  /** The metrics key of a browser entry */
  function EntryKey(name: string): (r: string)
    ensures |r| == |name| + 6 && r[..6] == "entry_" && r[6..] == name
  {
    "entry_" + name
  }

  /** Entry keys never collide: distinct entry names get distinct keys */
  lemma EntryKeysDistinct(a: string, b: string)
    requires a != b
    ensures EntryKey(a) != EntryKey(b)
  {
    assert EntryKey(a)[6..] == a;
  }

  class PerformanceManager<D> {
    var metrics: map<string, Metric>
    var cache: map<string, CacheEntry<D>>
    /** performance.cacheDuration of the configuration */
    const cacheDuration: nat

    constructor (cacheDuration: nat)
      ensures metrics == map[] && cache == map[] && this.cacheDuration == cacheDuration
    {
      metrics := map[];
      cache := map[];
      this.cacheDuration := cacheDuration;
    }

    /** endMeasurement: the clock and heap readings are parameters */
    method EndMeasurement(name: string, startTime: int, startMemory: int, endTime: int, endMemory: int, now: int, url: string)
      returns (measurement: Metric)
      modifies this
      ensures measurement == Measurement(name, endTime - startTime, endMemory - startMemory, now, url)
      ensures metrics == old(metrics)[name := measurement] && cache == old(cache)
    {
      measurement := Measurement(name, endTime - startTime, endMemory - startMemory, now, url);
      metrics := metrics[name := measurement];
    }

    /** handlePerformanceEntry */
    method HandlePerformanceEntry(entry: PerformanceEntry, now: int)
      modifies this
      ensures metrics == old(metrics)[EntryKey(entry.name) := EntryMetric(entry, now)] && cache == old(cache)
    {
      var data := EntryData(entry.name, entry.duration, entry.startTime, entry.entryType, now, None, None);
      if entry.entryType == "resource" {
        data := data.(size := Some(entry.transferSize), resourceType := Some(Analytics.ResourceType(entry.name)));
      }
      metrics := metrics[EntryKey(entry.name) := data];
    }

    /** cleanupCache: one pass over the entries, deleting the stale ones */
    method CleanupCache(now: int)
      modifies this
      ensures cache == LiveEntries(old(cache), now) && metrics == old(metrics)
    {
      var pending := cache.Keys;
      ghost var original := cache;
      while pending != {}
        invariant pending <= original.Keys && metrics == old(metrics)
        invariant cache == map k | k in original && (k in pending || !Expired(original[k], now)) :: original[k]
        decreases |pending|
      {
        var key :| key in pending;
        if Expired(cache[key], now) {
          cache := cache - {key};
        }
        pending := pending - {key};
      }
      assert cache == LiveEntries(original, now);
    }

    /** The body of cache(key, data, ttl): store with the effective ttl, then sweep */
    method CacheData(key: string, data: D, ttl: nat, now: int)
      modifies this
      ensures cache == LiveEntries(old(cache)[key := CacheEntry(data, now, EffectiveTtl(ttl, cacheDuration))], now)
      ensures key in cache && cache[key].data == data
      ensures metrics == old(metrics)
    {
      cache := cache[key := CacheEntry(data, now, EffectiveTtl(ttl, cacheDuration))];
      FreshEntrySurvives(old(cache), key, data, now, EffectiveTtl(ttl, cacheDuration));
      CleanupCache(now);
    }

    /** getCached: a stale entry is deleted on read */
    method GetCached(key: string, now: int) returns (r: Option<D>)
      modifies this
      ensures key !in old(cache) ==> r == None && cache == old(cache)
      ensures key in old(cache) && Expired(old(cache)[key], now) ==> r == None && cache == old(cache) - {key}
      ensures key in old(cache) && !Expired(old(cache)[key], now) ==> r == Some(old(cache)[key].data) && cache == old(cache)
      ensures metrics == old(metrics)
    {
      if key !in cache {
        return None;
      }
      var entry := cache[key];
      if now - entry.timestamp > entry.ttl {
        cache := cache - {key};
        return None;
      }
      return Some(entry.data);
    }

    /** getMetrics: an entry-by-entry copy */
    method GetMetrics() returns (copy: map<string, Metric>)
      ensures copy == metrics
    {
      copy := CopyEntries(metrics);
    }

    /** clearMetrics */
    method ClearMetrics()
      modifies this
      ensures metrics == map[] && cache == old(cache)
    {
      metrics := map[];
    }
  }
}
