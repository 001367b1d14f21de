/**
  The server's gateway to the media provider: `searchGifs` and
  `trendingGifs` with their in-memory response cache.

  The cache is a map from string keys to `(data, timestamp)`. The process
  clock is read twice per call: `now` when the freshness check runs and
  `storedAt` when a fetched response is written back (after the provider
  has answered). The provider is an explicit function from the request it
  receives to either a response or `None` (the request threw). Each call
  reports the provider requests it issued, so "no provider call" is
  `calls == []`.
 */
module GiphyService {
  import opened Common
  import opened GiphyTypes

  /** Five minutes, in milliseconds. */
  const CacheTtl: int := 5 * 60 * 1000

  /** Fixed content-safety and locale filters sent upstream. */
  const Rating: string := "g"
  const Lang: string := "en"

  const DefaultLimit: int := 25
  const DefaultOffset: int := 0

  datatype CacheEntry = CacheEntry(data: GiphyResponse, timestamp: int)

  type Cache = map<string, CacheEntry>

  /** The parameters of one upstream request (the api key is left out). */
  datatype ProviderRequest =
    | SearchRequest(q: string, limit: int, offset: int, rating: string, lang: string)
    | TrendingRequest(limit: int, offset: int, rating: string)

  type Provider = ProviderRequest -> Option<GiphyResponse>

  /** The error each operation rethrows when the provider fails. */
  datatype ServiceError = SearchFailed | TrendingFailed

  datatype CallOutcome = CallOutcome(
    result: Result<GiphyResponse, ServiceError>,
    cache: Cache,
    calls: seq<ProviderRequest>)

  function SearchKey(query: string, limit: int, offset: int): string {
    "search:" + query + ":" + IntToDecimal(limit) + ":" + IntToDecimal(offset)
  }

  function TrendingKey(limit: int, offset: int): string {
    "trending:" + IntToDecimal(limit) + ":" + IntToDecimal(offset)
  }

  /** An entry is served only while it is younger than the TTL. */
  predicate IsFresh(cache: Cache, key: string, now: int) {
    key in cache && now - cache[key].timestamp < CacheTtl
  }

  /**
    The shared cache discipline of both operations: a fresh hit is returned
    as is; otherwise the provider is asked once, a success is written back
    under `key` stamped `storedAt`, and a failure leaves the cache alone.
   */
  function Cached(
    cache: Cache, key: string, now: int, storedAt: int,
    request: ProviderRequest, provider: Provider, failure: ServiceError): (r: CallOutcome)
    ensures IsFresh(cache, key, now) ==>
      r == CallOutcome(Success(cache[key].data), cache, [])
    ensures !IsFresh(cache, key, now) ==> r.calls == [request]
    ensures !IsFresh(cache, key, now) && provider(request).Some? ==>
      && r.result == Success(provider(request).value)
      && r.cache == cache[key := CacheEntry(provider(request).value, storedAt)]
    ensures !IsFresh(cache, key, now) && provider(request).None? ==>
      r.result == Failure(failure) && r.cache == cache
    ensures forall k :: k != key ==> (k in r.cache <==> k in cache)
    ensures forall k :: k != key && k in cache ==> r.cache[k] == cache[k]
  {
    if IsFresh(cache, key, now) then
      CallOutcome(Success(cache[key].data), cache, [])
    else
      match provider(request)
      case Some(response) =>
        CallOutcome(Success(response), cache[key := CacheEntry(response, storedAt)], [request])
      case None =>
        CallOutcome(Failure(failure), cache, [request])
  }

  /** `searchGifs({ query, limit = 25, offset = 0 })`. */
  function SearchGifs(
    cache: Cache, query: string, limit: Option<int>, offset: Option<int>,
    now: int, storedAt: int, provider: Provider): (r: CallOutcome)
    ensures
      var key := SearchKey(query, limit.GetOr(25), offset.GetOr(0));
      var request := SearchRequest(query, limit.GetOr(25), offset.GetOr(0), "g", "en");
      && (IsFresh(cache, key, now) ==> r.calls == [] && r.cache == cache && r.result == Success(cache[key].data))
      && (!IsFresh(cache, key, now) ==> r.calls == [request])
      && (!IsFresh(cache, key, now) ==> (r.result.Failure? <==> provider(request).None?))
      && (!IsFresh(cache, key, now) && provider(request).Some? ==> r.result == Success(provider(request).value))
      && (r.result.Failure? ==> r.result.error == SearchFailed && r.cache == cache)
      && (r.calls != [] && r.result.Success? ==> r.cache == cache[key := CacheEntry(r.result.value, storedAt)])
  {
    var l, o := limit.GetOr(DefaultLimit), offset.GetOr(DefaultOffset);
    Cached(cache, SearchKey(query, l, o), now, storedAt, SearchRequest(query, l, o, Rating, Lang), provider, SearchFailed)
  }

  /** `trendingGifs({ limit = 25, offset = 0 })`: no query and no locale upstream. */
  function TrendingGifs(
    cache: Cache, limit: Option<int>, offset: Option<int>,
    now: int, storedAt: int, provider: Provider): (r: CallOutcome)
    ensures
      var key := TrendingKey(limit.GetOr(25), offset.GetOr(0));
      var request := TrendingRequest(limit.GetOr(25), offset.GetOr(0), "g");
      && (IsFresh(cache, key, now) ==> r.calls == [] && r.cache == cache && r.result == Success(cache[key].data))
      && (!IsFresh(cache, key, now) ==> r.calls == [request])
      && (!IsFresh(cache, key, now) ==> (r.result.Failure? <==> provider(request).None?))
      && (!IsFresh(cache, key, now) && provider(request).Some? ==> r.result == Success(provider(request).value))
      && (r.result.Failure? ==> r.result.error == TrendingFailed && r.cache == cache)
      && (r.calls != [] && r.result.Success? ==> r.cache == cache[key := CacheEntry(r.result.value, storedAt)])
  {
    var l, o := limit.GetOr(DefaultLimit), offset.GetOr(DefaultOffset);
    Cached(cache, TrendingKey(l, o), now, storedAt, TrendingRequest(l, o, Rating), provider, TrendingFailed)
  }

  // ---------------------------------------------------------------------
  // Cache keys
  // ---------------------------------------------------------------------

  /**
    Splitting at the last colon: when neither tail holds a colon, equal
    strings `a:d` and `b:e` have equal heads and equal tails.
   */
  lemma SplitAtLastColon(a: string, d: string, b: string, e: string)
    requires ':' !in d && ':' !in e
    requires a + ":" + d == b + ":" + e
    ensures a == b && d == e
  {
    var x := a + ":" + d;
    assert x[|a|] == ':';
    assert x[|b|] == ':';
    assert a == x[..|a|] && b == x[..|b|];
    assert d == x[|a| + 1..] && e == x[|b| + 1..];
  }

  /** Search keys identify their parameters, although a query may contain colons. */
  lemma SearchKeyInjective(q1: string, l1: int, o1: int, q2: string, l2: int, o2: int)
    ensures SearchKey(q1, l1, o1) == SearchKey(q2, l2, o2) ==> q1 == q2 && l1 == l2 && o1 == o2
  {
    if SearchKey(q1, l1, o1) == SearchKey(q2, l2, o2) {
      IntToDecimalAvoids(l1, ':'); IntToDecimalAvoids(l2, ':');
      IntToDecimalAvoids(o1, ':'); IntToDecimalAvoids(o2, ':');
      SplitAtLastColon("search:" + q1 + ":" + IntToDecimal(l1), IntToDecimal(o1),
                       "search:" + q2 + ":" + IntToDecimal(l2), IntToDecimal(o2));
      SplitAtLastColon("search:" + q1, IntToDecimal(l1), "search:" + q2, IntToDecimal(l2));
      assert q1 == ("search:" + q1)[7..] == ("search:" + q2)[7..] == q2;
      IntToDecimalInjective(l1, l2);
      IntToDecimalInjective(o1, o2);
    }
  }

  lemma TrendingKeyInjective(l1: int, o1: int, l2: int, o2: int)
    requires TrendingKey(l1, o1) == TrendingKey(l2, o2)
    ensures l1 == l2 && o1 == o2
  {
    IntToDecimalAvoids(o1, ':'); IntToDecimalAvoids(o2, ':');
    SplitAtLastColon("trending:" + IntToDecimal(l1), IntToDecimal(o1),
                     "trending:" + IntToDecimal(l2), IntToDecimal(o2));
    assert IntToDecimal(l1) == ("trending:" + IntToDecimal(l1))[9..] == IntToDecimal(l2);
    IntToDecimalInjective(l1, l2);
    IntToDecimalInjective(o1, o2);
  }

  /** The two operations never share a cache entry. */
  lemma SearchAndTrendingKeysDiffer(q: string, l1: int, o1: int, l2: int, o2: int)
    ensures SearchKey(q, l1, o1) != TrendingKey(l2, o2)
  {
    assert SearchKey(q, l1, o1)[0] == 's';
    assert TrendingKey(l2, o2)[0] == 't';
  }

  // ---------------------------------------------------------------------
  // Properties relating several calls
  // ---------------------------------------------------------------------

  /**
    Two identical searches whose freshness checks are less than a TTL apart
    issue at most one provider request between them, unless the first one
    failed (a failure stores nothing). The clock must not run backwards
    while the first request is in flight.
   */
  lemma RepeatedSearchWithinTtl(
    cache: Cache, query: string, limit: Option<int>, offset: Option<int>,
    now1: int, stored1: int, now2: int, stored2: int, provider: Provider)
    requires now1 <= stored1
    requires now2 - now1 < CacheTtl
    ensures
      var first := SearchGifs(cache, query, limit, offset, now1, stored1, provider);
      var second := SearchGifs(first.cache, query, limit, offset, now2, stored2, provider);
      first.result.Failure? || |first.calls| + |second.calls| <= 1
  {
    var key := SearchKey(query, limit.GetOr(25), offset.GetOr(0));
    var first := SearchGifs(cache, query, limit, offset, now1, stored1, provider);
    if first.calls != [] && first.result.Success? {
      assert first.cache[key].timestamp == stored1;
      assert IsFresh(first.cache, key, now2);
    }
  }

  /** The same for trending requests. */
  lemma RepeatedTrendingWithinTtl(
    cache: Cache, limit: Option<int>, offset: Option<int>,
    now1: int, stored1: int, now2: int, stored2: int, provider: Provider)
    requires now1 <= stored1
    requires now2 - now1 < CacheTtl
    ensures
      var first := TrendingGifs(cache, limit, offset, now1, stored1, provider);
      var second := TrendingGifs(first.cache, limit, offset, now2, stored2, provider);
      first.result.Failure? || |first.calls| + |second.calls| <= 1
  {
    var key := TrendingKey(limit.GetOr(25), offset.GetOr(0));
    var first := TrendingGifs(cache, limit, offset, now1, stored1, provider);
    if first.calls != [] && first.result.Success? {
      assert first.cache[key].timestamp == stored1;
      assert IsFresh(first.cache, key, now2);
    }
  }

  /**
    A search leaves every trending entry as it was, and every search entry
    of other parameters too.
   */
  lemma SearchTouchesOnlyItsKey(
    cache: Cache, query: string, limit: Option<int>, offset: Option<int>,
    now: int, storedAt: int, provider: Provider, l: int, o: int, q': string, l': int, o': int)
    requires (q', l', o') != (query, limit.GetOr(25), offset.GetOr(0))
    ensures
      var r := SearchGifs(cache, query, limit, offset, now, storedAt, provider);
      && (TrendingKey(l, o) in r.cache <==> TrendingKey(l, o) in cache)
      && (TrendingKey(l, o) in cache ==> r.cache[TrendingKey(l, o)] == cache[TrendingKey(l, o)])
      && (SearchKey(q', l', o') in r.cache <==> SearchKey(q', l', o') in cache)
      && (SearchKey(q', l', o') in cache ==> r.cache[SearchKey(q', l', o')] == cache[SearchKey(q', l', o')])
  {
    var l0, o0 := limit.GetOr(DefaultLimit), offset.GetOr(DefaultOffset);
    SearchAndTrendingKeysDiffer(query, l0, o0, l, o);
    if SearchKey(q', l', o') == SearchKey(query, l0, o0) {
      SearchKeyInjective(q', l', o', query, l0, o0);
    }
    var r := Cached(cache, SearchKey(query, l0, o0), now, storedAt,
                    SearchRequest(query, l0, o0, Rating, Lang), provider, SearchFailed);
    assert r == SearchGifs(cache, query, limit, offset, now, storedAt, provider);
  }
}
