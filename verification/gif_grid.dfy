/**
  The result grid (`GifGrid`): which of its five screens it shows, the
  favorite flag of each card, the load-more control, and the targets of the
  copy and download actions shared with the favorites page.
 */
module GifGrid {
  import opened Common
  import opened GiphyTypes
  import opened Storage
  import UseFavorites

  datatype RenderState = InitialState | LoadingSkeleton | ErrorState | NoResults | Results

  /** The if-chain at the top of the grid, in source order. */
  function SelectRenderState(isLoading: bool, isError: bool, searchTerm: string, gifCount: nat): (r: RenderState)
    ensures r == InitialState <==> !isLoading && searchTerm == "" && !isError && gifCount == 0
    ensures r == LoadingSkeleton <==> isLoading && gifCount == 0
    ensures r == ErrorState <==> isError && !(isLoading && gifCount == 0)
    ensures r == NoResults <==> !isLoading && searchTerm != "" && !isError && gifCount == 0
    ensures r == Results <==> gifCount > 0 && !isError
  {
    if !isLoading && searchTerm == "" && !isError && gifCount == 0 then InitialState
    else if isLoading && gifCount == 0 then LoadingSkeleton
    else if isError then ErrorState
    else if !isLoading && searchTerm != "" && gifCount == 0 then NoResults
    else Results
  }

  /**
    Precedence among the screens: a failed request shows the error screen
    even over GIFs already received, the skeleton wins over the error while
    a first page is still loading, and the results screen is only shown
    with GIFs to show.
   */
  lemma ScreenPrecedence(isLoading: bool, isError: bool, searchTerm: string, gifCount: nat)
    ensures
      var r := SelectRenderState(isLoading, isError, searchTerm, gifCount);
      (isError && gifCount > 0 ==> r == ErrorState)
      && (isLoading && isError && gifCount == 0 ==> r == LoadingSkeleton)
      && (r == Results ==> gifCount > 0)
  {
  }

  datatype Card = Card(gif: Gif, isFavorite: bool)

  datatype LoadMoreButton = LoadMoreButton(disabled: bool)

  datatype GridView =
    | InitialView
    | SkeletonView(placeholders: nat)
    | ErrorView
    | NoResultsView
    | ResultsView(cards: seq<Card>, loadMore: Option<LoadMoreButton>)

  /** One card per GIF, in order, flagged by membership in the favorites list. */
  function Cards(gifs: seq<Gif>, favorites: seq<Favorite>): (r: seq<Card>)
    ensures |r| == |gifs|
    ensures forall i :: 0 <= i < |r| ==> r[i].gif == gifs[i]
    ensures forall i :: 0 <= i < |r| ==>
      (r[i].isFavorite <==> exists j :: 0 <= j < |favorites| && favorites[j].gifId == gifs[i].id)
  {
    seq(|gifs|, i requires 0 <= i < |gifs| => Card(gifs[i], UseFavorites.IsFavorite(favorites, gifs[i].id)))
  }

  /** The grid's whole output for its props and the current favorites list. */
  function Render(
    gifs: seq<Gif>, hasMore: bool, isLoading: bool, isError: bool, searchTerm: string,
    favorites: seq<Favorite>): (v: GridView)
    ensures v.InitialView? <==> SelectRenderState(isLoading, isError, searchTerm, |gifs|) == InitialState
    ensures v.SkeletonView? <==> SelectRenderState(isLoading, isError, searchTerm, |gifs|) == LoadingSkeleton
    ensures v.ErrorView? <==> SelectRenderState(isLoading, isError, searchTerm, |gifs|) == ErrorState
    ensures v.NoResultsView? <==> SelectRenderState(isLoading, isError, searchTerm, |gifs|) == NoResults
    ensures v.SkeletonView? ==> v.placeholders == 6
    ensures v.ResultsView? ==> v.cards == Cards(gifs, favorites)
    ensures v.ResultsView? ==> (v.loadMore.Some? <==> hasMore)
    ensures v.ResultsView? && v.loadMore.Some? ==> (v.loadMore.value.disabled <==> isLoading)
  {
    match SelectRenderState(isLoading, isError, searchTerm, |gifs|)
    case InitialState => InitialView
    case LoadingSkeleton => SkeletonView(6)
    case ErrorState => ErrorView
    case NoResults => NoResultsView
    case Results =>
      ResultsView(Cards(gifs, favorites), if hasMore then Some(LoadMoreButton(isLoading)) else None)
  }

  /** The url a copy action puts on the clipboard and a download fetches: the original rendition. */
  function CopyTarget(gif: Gif): (url: string)
    ensures url == gif.images.original.url
  {
    gif.images.original.url
  }

  /** `${gif.title || 'gif'}.gif`. */
  function DownloadFileName(title: string): (name: string)
    ensures |name| >= 5 && name[|name| - 4..] == ".gif"
    ensures title != "" ==> name[..|name| - 4] == title
    ensures title == "" ==> name == "gif.gif"
  {
    (if title != "" then title else "gif") + ".gif"
  }

  /**
    Toggling a card in the results screen removes the GIF exactly when its
    card shows it as a favorite, and adds it otherwise.
   */
  lemma CardToggleMatchesFlag(gifs: seq<Gif>, favorites: seq<Favorite>, i: int)
    requires 0 <= i < |gifs|
    ensures
      var card := Cards(gifs, favorites)[i];
      UseFavorites.Toggle(favorites, card.gif).RemoveMutation? <==> card.isFavorite
  {
  }
}
