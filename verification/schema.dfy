/**
  Validation of the query parameters of the two GIF endpoints
  (`searchGifsSchema` and `trendingGifsSchema`). Parameters arrive already
  parsed to integers; an absent parameter is `None`. Validation either
  yields the parameters with their defaults filled in, or the list of
  issues, one per failing field in the schema's field order.
 */
module Schema {
  import opened Common

  const MinLimit: int := 1
  const MaxLimit: int := 50
  const DefaultLimit: int := 25
  const MinOffset: int := 0
  const DefaultOffset: int := 0

  /** The raw query string of a request, field by field. */
  datatype RawParams = RawParams(q: Option<string>, limit: Option<int>, offset: Option<int>)

  datatype SearchParams = SearchParams(q: string, limit: int, offset: int)

  datatype TrendingParams = TrendingParams(limit: int, offset: int)

  /** One validation failure, named after the field and the check it failed. */
  datatype Issue =
    | QueryMissing
    | QueryTooShort
    | LimitTooSmall
    | LimitTooLarge
    | OffsetTooSmall

  function QueryIssues(q: Option<string>): seq<Issue> {
    match q
    case None => [QueryMissing]
    case Some(s) => if |s| < 1 then [QueryTooShort] else []
  }

  /** An absent limit is never an issue: the default applies. */
  function LimitIssues(limit: Option<int>): seq<Issue> {
    match limit
    case None => []
    case Some(n) =>
      (if n < MinLimit then [LimitTooSmall] else [])
      + (if n > MaxLimit then [LimitTooLarge] else [])
  }

  function OffsetIssues(offset: Option<int>): seq<Issue> {
    match offset
    case None => []
    case Some(n) => if n < MinOffset then [OffsetTooSmall] else []
  }

  /** Acceptance of the optional numeric fields, stated directly on the bounds. */
  predicate LimitAccepted(limit: Option<int>) {
    limit.None? || 1 <= limit.value <= 50
  }

  predicate OffsetAccepted(offset: Option<int>) {
    offset.None? || offset.value >= 0
  }

  /** `searchGifsSchema.parse`. */
  function ValidateSearch(raw: RawParams): (r: Result<SearchParams, seq<Issue>>)
    ensures r.Success? <==>
      raw.q.Some? && |raw.q.value| >= 1 && LimitAccepted(raw.limit) && OffsetAccepted(raw.offset)
    ensures r.Success? ==>
      && r.value.q == raw.q.value
      && r.value.limit == (if raw.limit.Some? then raw.limit.value else 25)
      && r.value.offset == (if raw.offset.Some? then raw.offset.value else 0)
    ensures r.Success? ==> 1 <= r.value.limit <= 50 && r.value.offset >= 0
    ensures r.Failure? ==> |r.error| >= 1
    ensures r.Failure? ==> (QueryMissing in r.error <==> raw.q.None?)
    ensures r.Failure? ==> (QueryTooShort in r.error <==> raw.q == Some(""))
    ensures r.Failure? ==> (LimitTooSmall in r.error <==> raw.limit.Some? && raw.limit.value < 1)
    ensures r.Failure? ==> (LimitTooLarge in r.error <==> raw.limit.Some? && raw.limit.value > 50)
    ensures r.Failure? ==> (OffsetTooSmall in r.error <==> raw.offset.Some? && raw.offset.value < 0)
  {
    var issues := QueryIssues(raw.q) + LimitIssues(raw.limit) + OffsetIssues(raw.offset);
    if issues == [] then
      Success(SearchParams(raw.q.value, raw.limit.GetOr(DefaultLimit), raw.offset.GetOr(DefaultOffset)))
    else
      Failure(issues)
  }

  /** `trendingGifsSchema.parse`: the same numeric rules, and `q` is not looked at. */
  function ValidateTrending(raw: RawParams): (r: Result<TrendingParams, seq<Issue>>)
    ensures r.Success? <==> LimitAccepted(raw.limit) && OffsetAccepted(raw.offset)
    ensures r.Success? ==>
      && r.value.limit == (if raw.limit.Some? then raw.limit.value else 25)
      && r.value.offset == (if raw.offset.Some? then raw.offset.value else 0)
    ensures r.Success? ==> 1 <= r.value.limit <= 50 && r.value.offset >= 0
    ensures r.Failure? ==> |r.error| >= 1 && QueryMissing !in r.error && QueryTooShort !in r.error
    ensures r.Failure? ==> (LimitTooSmall in r.error <==> raw.limit.Some? && raw.limit.value < 1)
    ensures r.Failure? ==> (LimitTooLarge in r.error <==> raw.limit.Some? && raw.limit.value > 50)
    ensures r.Failure? ==> (OffsetTooSmall in r.error <==> raw.offset.Some? && raw.offset.value < 0)
  {
    var issues := LimitIssues(raw.limit) + OffsetIssues(raw.offset);
    if issues == [] then
      Success(TrendingParams(raw.limit.GetOr(DefaultLimit), raw.offset.GetOr(DefaultOffset)))
    else
      Failure(issues)
  }

  /**
    Whatever search validation accepts, trending validation accepts too, with
    the same limit and offset, whatever `q` is replaced by.
   */
  lemma SearchAcceptedImpliesTrendingAccepted(raw: RawParams, q': Option<string>)
    requires ValidateSearch(raw).Success?
    ensures ValidateTrending(raw.(q := q')).Success?
    ensures ValidateTrending(raw.(q := q')).value.limit == ValidateSearch(raw).value.limit
    ensures ValidateTrending(raw.(q := q')).value.offset == ValidateSearch(raw).value.offset
  {
  }
}
