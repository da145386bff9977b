/** The proxy's per-address cache, `fetch_miner_with_cache`
    (server.py:113-145): a recent entry answers without contacting the
    miner; otherwise the status page is fetched and scraped, and when that
    fails any older entry is served instead.

    The clock (`time.time()`) is the parameter `now`, and what the miner
    sends back is the parameter `page`: the events of its status page, or a
    failed request. */
module MinerCache {
  import opened Wrappers
  import opened Records
  import opened Scraper
  import Fetcher

  /** Seconds for which an entry answers without a fetch. */
  const CacheDuration := 5.0

  /** `(data, timestamp)` as stored in `miner_cache`. */
  datatype Entry = Entry(data: Payload, time: real)

  type Cache = map<string, Entry>

  /** The miner's answer: its status page, or a request that raised. */
  datatype PageFetch = Page(events: seq<Event>) | FetchFailed

  /** What the function returns, `(data, from_cache)`, and the cache after
      the call. */
  datatype Served = Served(data: Payload, fromCache: bool, cache: Cache)

  /** The exception re-raised when there is nothing to fall back on. */
  datatype CacheError = NoCachedCopy

  /** The scraped payload, or the failure of the request or of the scraper
      (both land in the same `except`). */
  function Scrape(page: PageFetch): (r: Option<Payload>)
    ensures page.FetchFailed? ==> r.None?
    ensures page.Page? ==>
      (r.Some? <==> Feed(Fresh, page.events).Success?)
      && (r.Some? ==> r.value == Feed(Fresh, page.events).value.data)
  {
    match page
    case FetchFailed => None
    case Page(es) =>
      match Feed(Fresh, es)
      case Success(p) => Some(p.data)
      case Failure(_) => None
  }

  /** The entry for `url` is recent enough to answer. */
  predicate Recent(cache: Cache, url: string, now: real) {
    url in cache && now - cache[url].time < CacheDuration
  }

  /** `fetch_miner_with_cache(url)` at time `now`. */
  function FetchMinerWithCache(cache: Cache, url: string, now: real, page: PageFetch): (r: Result<Served, CacheError>)
    // A recent entry answers, whatever the miner would have sent.
    ensures Recent(cache, url, now) ==> r == Success(Served(cache[url].data, true, cache))
    // Otherwise a successful scrape is returned and recorded with the time.
    ensures !Recent(cache, url, now) && Scrape(page).Some? ==>
      r == Success(Served(Scrape(page).value, false, cache[url := Entry(Scrape(page).value, now)]))
    // Otherwise an older entry is served and the cache kept.
    ensures !Recent(cache, url, now) && Scrape(page).None? && url in cache ==>
      r == Success(Served(cache[url].data, true, cache))
    // The error propagates only with nothing to fall back on.
    ensures r.Failure? <==> url !in cache && Scrape(page).None?
    ensures r.Success? ==> r.value.cache.Keys == cache.Keys + {url}
    ensures r.Success? ==> forall k :: k in cache && k != url ==> r.value.cache[k] == cache[k]
    ensures r.Success? && r.value.fromCache ==> url in cache && r.value.cache == cache && r.value.data == cache[url].data
  {
    if url in cache && now - cache[url].time < CacheDuration then
      Success(Served(cache[url].data, true, cache))
    else
      match Scrape(page)
      case Some(d) => Success(Served(d, false, cache[url := Entry(d, now)]))
      case None =>
        if url in cache then Success(Served(cache[url].data, true, cache))
        else Failure(NoCachedCopy)
  }

  /** A fresh scrape answers every request for the same address during the
      next five seconds, without contacting the miner again. */
  lemma FetchThenHit(cache: Cache, url: string, t: real, page: PageFetch, later: real, next: PageFetch)
    requires FetchMinerWithCache(cache, url, t, page).Success?
    requires !FetchMinerWithCache(cache, url, t, page).value.fromCache
    requires t <= later < t + CacheDuration
    ensures var first := FetchMinerWithCache(cache, url, t, page).value;
      FetchMinerWithCache(first.cache, url, later, next) == Success(Served(first.data, true, first.cache))
  {
  }

  /** Once the window has passed, a successful scrape replaces the entry. */
  lemma ExpiredEntryRefreshed(cache: Cache, url: string, now: real, page: PageFetch)
    requires url in cache && now >= cache[url].time + CacheDuration
    requires Scrape(page).Some?
    ensures var r := FetchMinerWithCache(cache, url, now, page);
      r.Success? && !r.value.fromCache && r.value.cache[url] == Entry(Scrape(page).value, now)
  {
  }

  /** Every cached payload came from the scraper, so it has the scraper's
      shape; the cache keeps that invariant, and everything it serves has
      that shape. */
  predicate WellShaped(cache: Cache) {
    forall k :: k in cache ==> ScrapedShape(cache[k].data)
  }

  lemma {:induction false} ServedIsScraped(cache: Cache, url: string, now: real, page: PageFetch)
    requires WellShaped(cache)
    ensures var r := FetchMinerWithCache(cache, url, now, page);
      r.Success? ==> ScrapedShape(r.value.data) && WellShaped(r.value.cache)
  {
    if page.Page? {
      FeedKeepsScrapedShape(Fresh, page.events);
    }
  }

  /** Seen by the browser, a proxied miner always reports as many accepted
      shares as shares, and an uptime of 0: the scraper never supplies
      `valids` or `uptime`, and a missing or zero accepted count makes the
      browser's 95% estimate of an equally missing or zero share count. */
  lemma ProxiedSharesAgree(d: Payload)
    requires ScrapedShape(d)
    ensures Fetcher.ParsePayload(d).acceptedShares == Fetcher.ParsePayload(d).shares
    ensures Fetcher.ParsePayload(d).uptime == 0
  {
  }
}
