/**
  The favorites page: each stored favorite is turned back into a GIF for
  its card, and the page shows a loading block, an error block, an empty
  notice or the grid, each guarded by its own condition.
 */
module FavoritesPage {
  import opened Common
  import opened GiphyTypes
  import opened Storage
  import opened UseFavorites
  import GifGrid

  /** `favoriteToGif`: sizes are unknown ("0"), the thumbnail stands in for every small rendition. */
  function FavoriteToGif(f: Favorite): (g: Gif)
    ensures g.id == f.gifId
    ensures g.title == (if f.gifTitle.Some? then f.gifTitle.value else "")
    ensures g.url == f.gifUrl && g.images.original.url == f.gifUrl
    ensures g.images.fixedHeight.url == f.thumbnailUrl
    ensures g.images.fixedWidth.url == f.thumbnailUrl
    ensures g.images.previewGifUrl == f.thumbnailUrl
  {
    Gif(
      id := f.gifId,
      title := f.gifTitle.GetOr(""),
      images := Images(
        OriginalImage(f.gifUrl, "0", "0", "0"),
        SizedImage(f.thumbnailUrl, "0", "0"),
        SizedImage(f.thumbnailUrl, "0", "0"),
        f.thumbnailUrl),
      sourceTld := "",
      source := "",
      importDatetime := "",
      embedUrl := "",
      url := f.gifUrl)
  }

  /**
    Round trip through the add payload: a favorite shown on this page and
    added again would send back its own id, urls and title, with a missing
    title sent as "".
   */
  lemma PayloadRoundTrip(f: Favorite)
    ensures AddPayload(FavoriteToGif(f))
         == FavoritePayload(f.gifId, f.gifUrl, f.gifTitle.GetOr(""), f.thumbnailUrl)
  {
  }

  /** Copy and download of a favorite act on its stored url and title. */
  lemma ActionsUseStoredFields(f: Favorite)
    ensures GifGrid.CopyTarget(FavoriteToGif(f)) == f.gifUrl
    ensures f.gifTitle.None? || f.gifTitle == Some("") ==>
      GifGrid.DownloadFileName(FavoriteToGif(f).title) == "gif.gif"
    ensures f.gifTitle.Some? && f.gifTitle.value != "" ==>
      GifGrid.DownloadFileName(FavoriteToGif(f).title) == f.gifTitle.value + ".gif"
  {
  }

  /** Which blocks of the page are shown. Loading and error are independent guards. */
  datatype PageView = PageView(loading: bool, error: bool, empty: bool, grid: Option<seq<GifGrid.Card>>)

  function Cards(favorites: seq<Favorite>): (r: seq<GifGrid.Card>)
    ensures |r| == |favorites|
    ensures forall i :: 0 <= i < |r| ==> r[i] == GifGrid.Card(FavoriteToGif(favorites[i]), true)
  {
    seq(|favorites|, i requires 0 <= i < |favorites| => GifGrid.Card(FavoriteToGif(favorites[i]), true))
  }

  function Render(s: HookState): (v: PageView)
    ensures v.loading <==> s.isLoading
    ensures v.error <==> s.isError
    ensures v.empty <==> !s.isLoading && !s.isError && |Favorites(s)| == 0
    ensures v.grid.Some? <==> !s.isLoading && !s.isError && |Favorites(s)| > 0
    ensures !(v.empty && v.grid.Some?)
    ensures v.grid.Some? ==> v.grid.value == Cards(Favorites(s))
    ensures v.grid.Some? ==> |v.grid.value| == |Favorites(s)|
    ensures v.grid.Some? ==> forall i :: 0 <= i < |v.grid.value| ==> v.grid.value[i].isFavorite
  {
    var favorites := Favorites(s);
    PageView(
      s.isLoading,
      s.isError,
      !s.isLoading && !s.isError && |favorites| == 0,
      if !s.isLoading && !s.isError && |favorites| > 0 then Some(Cards(favorites)) else None)
  }

  /**
    Every card on this page is a favorite, and so toggling it always
    removes that favorite: the card's GIF id comes from the very list the
    membership test reads.
   */
  lemma ToggleOnPageRemoves(s: HookState, i: int)
    requires 0 <= i < |Favorites(s)|
    ensures Toggle(Favorites(s), FavoriteToGif(Favorites(s)[i])) == RemoveMutation(Favorites(s)[i].gifId)
  {
  }
}
