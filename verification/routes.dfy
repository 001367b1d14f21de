/**
  The two GIF endpoints of the HTTP server, `/api/gifs/search` and
  `/api/gifs/trending`: parse the query parameters, call the gateway, and
  map the outcome to a status code. A validation error answers 400 without
  reaching the gateway; any other error answers 500.
 */
module Routes {
  import opened Common
  import opened GiphyTypes
  import opened Schema
  import opened GiphyService

  datatype Body =
    | Gifs(data: GiphyResponse)
    | InvalidParams(message: string, errors: seq<Issue>)
    | ServerError(message: string)

  datatype Response = Response(status: int, body: Body)

  datatype RouteOutcome = RouteOutcome(response: Response, cache: Cache, calls: seq<ProviderRequest>)

  const InvalidMessage: string := "Invalid request parameters"

  /** `GET /api/gifs/search`. */
  function HandleSearch(raw: RawParams, cache: Cache, now: int, storedAt: int, provider: Provider): (r: RouteOutcome)
    ensures ValidateSearch(raw).Failure? ==>
      && r.response == Response(400, InvalidParams("Invalid request parameters", ValidateSearch(raw).error))
      && r.calls == []
      && r.cache == cache
    ensures ValidateSearch(raw).Success? ==>
      var p := ValidateSearch(raw).value;
      var call := SearchGifs(cache, p.q, Some(p.limit), Some(p.offset), now, storedAt, provider);
      && r.calls == call.calls
      && r.cache == call.cache
      && (r.response.status == 200 <==> call.result.Success?)
      && (r.response.status == 500 <==> call.result.Failure?)
      && (call.result.Success? ==> r.response.body == Gifs(call.result.value))
    ensures r.response.status in {200, 400, 500}
    ensures forall c :: c in r.calls ==> c.SearchRequest? && |c.q| >= 1 && 1 <= c.limit <= 50 && c.offset >= 0
  {
    match ValidateSearch(raw)
    case Failure(issues) =>
      RouteOutcome(Response(400, InvalidParams(InvalidMessage, issues)), cache, [])
    case Success(p) =>
      var call := SearchGifs(cache, p.q, Some(p.limit), Some(p.offset), now, storedAt, provider);
      match call.result
      case Success(data) => RouteOutcome(Response(200, Gifs(data)), call.cache, call.calls)
      case Failure(_) => RouteOutcome(Response(500, ServerError("Failed to search for GIFs")), call.cache, call.calls)
  }

  /** `GET /api/gifs/trending`. */
  function HandleTrending(raw: RawParams, cache: Cache, now: int, storedAt: int, provider: Provider): (r: RouteOutcome)
    ensures ValidateTrending(raw).Failure? ==>
      && r.response == Response(400, InvalidParams("Invalid request parameters", ValidateTrending(raw).error))
      && r.calls == []
      && r.cache == cache
    ensures ValidateTrending(raw).Success? ==>
      var p := ValidateTrending(raw).value;
      var call := TrendingGifs(cache, Some(p.limit), Some(p.offset), now, storedAt, provider);
      && r.calls == call.calls
      && r.cache == call.cache
      && (r.response.status == 200 <==> call.result.Success?)
      && (r.response.status == 500 <==> call.result.Failure?)
      && (call.result.Success? ==> r.response.body == Gifs(call.result.value))
    ensures r.response.status in {200, 400, 500}
    ensures forall c :: c in r.calls ==> c.TrendingRequest? && 1 <= c.limit <= 50 && c.offset >= 0
  {
    match ValidateTrending(raw)
    case Failure(issues) =>
      RouteOutcome(Response(400, InvalidParams(InvalidMessage, issues)), cache, [])
    case Success(p) =>
      var call := TrendingGifs(cache, Some(p.limit), Some(p.offset), now, storedAt, provider);
      match call.result
      case Success(data) => RouteOutcome(Response(200, Gifs(data)), call.cache, call.calls)
      case Failure(_) => RouteOutcome(Response(500, ServerError("Failed to fetch trending GIFs")), call.cache, call.calls)
  }

  /** A search request with an empty `q` is answered 400 and never reaches the provider. */
  lemma EmptyQueryRejected(limit: Option<int>, offset: Option<int>, cache: Cache, now: int, storedAt: int, provider: Provider)
    ensures
      var r := HandleSearch(RawParams(Some(""), limit, offset), cache, now, storedAt, provider);
      r.response.status == 400 && r.calls == [] && r.cache == cache
      && r.response.body.InvalidParams? && QueryTooShort in r.response.body.errors
  {
  }

  /**
    A valid search is forwarded to the provider exactly as validated (with
    the defaults filled in) unless a fresh cache entry answers it, and it
    fails with 500 exactly when the provider was asked and threw.
   */
  lemma ValidSearchForwarded(raw: RawParams, cache: Cache, now: int, storedAt: int, provider: Provider)
    requires raw.q.Some? && |raw.q.value| >= 1
    requires raw.limit.None? || 1 <= raw.limit.value <= 50
    requires raw.offset.None? || 0 <= raw.offset.value
    ensures
      var r := HandleSearch(raw, cache, now, storedAt, provider);
      var req := SearchRequest(raw.q.value, raw.limit.GetOr(25), raw.offset.GetOr(0), "g", "en");
      && r.response.status != 400
      && (r.calls == [] || r.calls == [req])
      && (r.response.status == 500 <==> r.calls == [req] && provider(req).None?)
  {
  }
}
