/**
  The Home page's paging state machine. The state is the submitted search
  term and the page offset; a page holds `Limit` GIFs. The page asks the
  search endpoint while a term is set and the trending endpoint otherwise,
  and shows only the page it last received.
 */
module Home {
  import opened Common
  import opened GiphyTypes
  import Schema
  import SearchBar

  const Limit: int := 9

  datatype HomeState = HomeState(searchTerm: string, offset: int)

  const Initial: HomeState := HomeState("", 0)

  datatype HomeEvent = Search(query: string) | LoadMore | Retry

  /** The request the page's query key names. */
  datatype PageQuery =
    | SearchQuery(q: string, limit: int, offset: int)
    | TrendingQuery(limit: int, offset: int)

  /** `handleSearch`: a new term starts again at the first page. */
  function HandleSearch(s: HomeState, query: string): HomeState {
    HomeState(query, 0)
  }

  /** `handleLoadMore`: the next page of the same term. */
  function HandleLoadMore(s: HomeState): HomeState {
    s.(offset := s.offset + Limit)
  }

  /** `handleRetry` refetches the same query: the state stays as it is. */
  function HandleRetry(s: HomeState): HomeState {
    s
  }

  function Step(s: HomeState, e: HomeEvent): (r: HomeState)
    ensures e.Search? ==> r.searchTerm == e.query && r.offset == 0
    ensures e.LoadMore? ==> r.searchTerm == s.searchTerm && r.offset == s.offset + 9
    ensures e.Retry? ==> r == s
  {
    match e
    case Search(q) => HandleSearch(s, q)
    case LoadMore => HandleLoadMore(s)
    case Retry => HandleRetry(s)
  }

  function Run(s: HomeState, events: seq<HomeEvent>): HomeState
    decreases |events|
  {
    if events == [] then s else Run(Step(s, events[0]), events[1..])
  }

  /** Offsets only ever take the values 0, 9, 18, ... */
  predicate Inv(s: HomeState) {
    s.offset >= 0 && s.offset % Limit == 0
  }

  lemma {:induction false} RunKeepsInv(s: HomeState, events: seq<HomeEvent>)
    requires Inv(s)
    ensures Inv(Run(s, events))
    decreases |events|
  {
    if events != [] {
      RunKeepsInv(Step(s, events[0]), events[1..]);
    }
  }

  /** From the first render on, the offset is a non-negative multiple of the page size. */
  lemma ReachableOffsets(events: seq<HomeEvent>)
    ensures Run(Initial, events).offset >= 0
    ensures Run(Initial, events).offset % 9 == 0
  {
    RunKeepsInv(Initial, events);
  }

  /** `queryKey`: search while the term is non-empty, trending otherwise. */
  function QueryOf(s: HomeState): (q: PageQuery)
    ensures q.SearchQuery? <==> s.searchTerm != ""
    ensures q.SearchQuery? ==> q.q == s.searchTerm
    ensures q.limit == 9 && q.offset == s.offset
  {
    if s.searchTerm != "" then SearchQuery(s.searchTerm, Limit, s.offset)
    else TrendingQuery(Limit, s.offset)
  }

  /** The query-string parameters the server reads from that request. */
  function ParamsOf(q: PageQuery): Schema.RawParams {
    match q
    case SearchQuery(term, limit, offset) => Schema.RawParams(Some(term), Some(limit), Some(offset))
    case TrendingQuery(limit, offset) => Schema.RawParams(None, Some(limit), Some(offset))
  }

  /**
    Every request a reachable Home page forms, taken as its three fields
    (term, limit, offset), passes the server's validation, and validation
    hands on the page's own term, limit and offset unchanged. How those
    fields are spliced into the url is not part of this statement.
   */
  lemma RequestsAreValid(events: seq<HomeEvent>)
    ensures
      var s := Run(Initial, events);
      match QueryOf(s)
      case SearchQuery(q, limit, offset) =>
        Schema.ValidateSearch(ParamsOf(QueryOf(s))) == Success(Schema.SearchParams(q, 9, s.offset))
      case TrendingQuery(limit, offset) =>
        Schema.ValidateTrending(ParamsOf(QueryOf(s))) == Success(Schema.TrendingParams(9, s.offset))
  {
    ReachableOffsets(events);
  }

  /** `gifs`: the data of the last response, or nothing. */
  function Gifs(data: Option<GiphyResponse>): (r: seq<Gif>)
    ensures data.None? ==> r == []
    ensures data.Some? ==> r == data.value.data
  {
    if data.Some? then data.value.data else []
  }

  /** `hasMore`: a next page exists when pagination says the total goes past this page. */
  function HasMore(s: HomeState, data: Option<GiphyResponse>): (r: bool)
    ensures r <==> data.Some? && data.value.pagination.Some?
                   && s.offset + 9 < data.value.pagination.value.totalCount
  {
    match data
    case None => false
    case Some(resp) =>
      match resp.pagination
      case None => false
      case Some(p) => s.offset + Limit < p.totalCount
  }

  /** When more results exist, loading more asks for an offset still inside the result set. */
  lemma LoadMoreStaysInRange(s: HomeState, data: Option<GiphyResponse>)
    requires HasMore(s, data)
    ensures Step(s, LoadMore).offset < data.value.pagination.value.totalCount
    ensures QueryOf(Step(s, LoadMore)).offset == s.offset + 9
  {
  }

  /**
    A search submitted from the search bar with Enter always names a
    non-empty term, so the Home page then asks the search endpoint, from
    its first page.
   */
  lemma EnterSearchUsesSearchEndpoint(bar: SearchBar.BarState, s: HomeState)
    requires SearchBar.Step(bar, SearchBar.KeyDown("Enter")).onSearch.Some?
    ensures
      var q := SearchBar.Step(bar, SearchBar.KeyDown("Enter")).onSearch.value;
      QueryOf(Step(s, Search(q))) == SearchQuery(SearchBar.Trim(bar.term), 9, 0)
  {
  }
}
