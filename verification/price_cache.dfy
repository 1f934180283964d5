/** The five-minute price cache kept at module level by src/pages/index.tsx
    and, separately, by src/components/TokenDetails/TokenInfo.tsx. The clock
    readings and the outcome of `getCurrentPrice()` are parameters. */
module PriceCache {
  import opened Common

  /** `CACHE_DURATION = 5 * 60 * 1000` milliseconds. */
  const CacheDuration: int := 5 * 60 * 1000

  datatype Cache = Cache(price: string, timestamp: int)

  /** `priceCache && Date.now() - priceCache.timestamp < CACHE_DURATION`. */
  predicate Fresh(cache: Option<Cache>, now: int)
  {
    cache.Some? && now - cache.value.timestamp < CacheDuration
  }

  /** What one price refresh produced: the price shown next (None keeps the
      shown one), the cache afterwards, and whether the backend was asked. */
  datatype Lookup = Lookup(shown: Option<string>, cache: Option<Cache>, fetched: bool)

  /** One run of the refresh: `now` is read before the check, `fetchResult`
      is what `getCurrentPrice()` resolved to (None when it threw) and
      `afterFetch` is the clock read when the cache is rebuilt. */
  function RefreshPrice(cache: Option<Cache>, now: int, fetchResult: Option<string>, afterFetch: int): (r: Lookup)
    ensures r.fetched <==> !Fresh(cache, now)
    ensures Fresh(cache, now) ==> r.shown == Some(cache.value.price) && r.cache == cache
    ensures !Fresh(cache, now) && fetchResult.Some? ==>
      r.shown == fetchResult && r.cache == Some(Cache(fetchResult.value, afterFetch))
    ensures !Fresh(cache, now) && fetchResult.None? ==> r.shown == None && r.cache == cache
  {
    if Fresh(cache, now) then Lookup(Some(cache.value.price), cache, false)
    else match fetchResult
      case Some(p) => Lookup(Some(p), Some(Cache(p, afterFetch)), true)
      case None => Lookup(None, cache, true)
  }

  /** A price fetched at time t is served from the cache, without asking the
      backend, by every refresh that starts before t + 5 minutes, and the
      first refresh at or after that asks again. */
  lemma CachedForFiveMinutes(cache: Option<Cache>, now: int, p: string, afterFetch: int,
                             later: int, again: Option<string>, afterAgain: int)
    requires !Fresh(cache, now)
    ensures var c := RefreshPrice(cache, now, Some(p), afterFetch).cache;
      && (later < afterFetch + CacheDuration ==>
            RefreshPrice(c, later, again, afterAgain) == Lookup(Some(p), c, false))
      && (later >= afterFetch + CacheDuration ==> RefreshPrice(c, later, again, afterAgain).fetched)
  {
  }

  /** A failed fetch changes nothing, so the next refresh asks again. */
  lemma FailureKeepsAsking(cache: Option<Cache>, now: int, afterFetch: int, later: int)
    requires !Fresh(cache, now) && now <= later
    ensures var c := RefreshPrice(cache, now, None, afterFetch).cache;
      c == cache && !Fresh(c, later)
  {
  }
}
