/**
  The client's favorites controller (`useFavorites`): the favorites list as
  last fetched, membership by `gifId`, the toggle that issues exactly one
  add or remove mutation, and what a settled mutation does to the list
  (invalidate on success only) and to the user (one notification).
  Mutation success or failure is an input; "invalidate" marks the list
  stale so that the next fetch replaces it.
 */
module UseFavorites {
  import opened Common
  import opened GiphyTypes
  import opened Storage

  /** The JSON body of `POST /api/favorites`. */
  datatype FavoritePayload = FavoritePayload(gifId: string, gifUrl: string, gifTitle: string, thumbnailUrl: string)

  /** One request issued by a toggle. */
  datatype Mutation =
    | AddMutation(payload: FavoritePayload)
    | RemoveMutation(gifId: string)

  datatype MutationKind = AddKind | RemoveKind

  datatype Toast = Toast(title: string, description: string, destructive: bool)

  /**
    The hook's state: the favorites query (`data` is `None` before the first
    answer), the pending flags of the two mutations, and whether the list
    has been invalidated since it was fetched.
   */
  datatype HookState = HookState(
    data: Option<seq<Favorite>>,
    isLoading: bool,
    isError: bool,
    addPending: bool,
    removePending: bool,
    stale: bool)

  datatype Dispatched = Dispatched(state: HookState, mutation: Mutation)

  datatype Settled = Settled(state: HookState, invalidate: bool, toast: Toast)

  /** `data?.favorites || []`. */
  function Favorites(s: HookState): (r: seq<Favorite>)
    ensures s.data.Some? ==> r == s.data.value
    ensures s.data.None? ==> r == []
  {
    s.data.GetOr([])
  }

  /** `favorites.some(fav => fav.gifId === gifId)`. */
  function IsFavorite(favorites: seq<Favorite>, gifId: string): (r: bool)
    ensures r <==> exists i :: 0 <= i < |favorites| && favorites[i].gifId == gifId
  {
    if favorites == [] then false
    else if favorites[0].gifId == gifId then true
    else
      var r := IsFavorite(favorites[1..], gifId);
      assert forall i :: 1 <= i < |favorites| ==> favorites[i] == favorites[1..][i - 1];
      r
  }

  /** Before the list has arrived nothing is a favorite. */
  lemma NothingFavoriteWithoutData(s: HookState, gifId: string)
    requires s.data.None?
    ensures !IsFavorite(Favorites(s), gifId)
  {
  }

  /** The request body built from a GIF when it is added. */
  function AddPayload(gif: Gif): (p: FavoritePayload)
    ensures p.gifId == gif.id && p.gifTitle == gif.title
    ensures p.gifUrl == gif.images.original.url
    ensures p.thumbnailUrl == gif.images.fixedHeight.url
  {
    FavoritePayload(gif.id, gif.images.original.url, gif.title, gif.images.fixedHeight.url)
  }

  /** The path a remove request is sent to. */
  function RemovePath(gifId: string): (path: string)
    ensures |path| == 15 + |gifId|
    ensures path[..15] == "/api/favorites/" && path[15..] == gifId
  {
    "/api/favorites/" + gifId
  }

  /** `toggleFavorite`: remove when the GIF is a favorite, add it otherwise. */
  function Toggle(favorites: seq<Favorite>, gif: Gif): (m: Mutation)
    ensures m.RemoveMutation? <==> exists i :: 0 <= i < |favorites| && favorites[i].gifId == gif.id
    ensures m.RemoveMutation? ==> m.gifId == gif.id
    ensures m.AddMutation? ==> m.payload == AddPayload(gif)
  {
    if IsFavorite(favorites, gif.id) then RemoveMutation(gif.id) else AddMutation(AddPayload(gif))
  }

  /** `isToggling`. */
  function IsToggling(s: HookState): (r: bool)
    ensures r <==> s.addPending || s.removePending
  {
    s.addPending || s.removePending
  }

  /** A toggle from the UI: the chosen mutation starts and becomes pending. */
  function Dispatch(s: HookState, gif: Gif): (r: Dispatched)
    ensures r.mutation == Toggle(Favorites(s), gif)
    ensures r.mutation.AddMutation? ==> r.state == s.(addPending := true)
    ensures r.mutation.RemoveMutation? ==> r.state == s.(removePending := true)
    ensures IsToggling(r.state)
  {
    var m := Toggle(Favorites(s), gif);
    match m
    case AddMutation(_) => Dispatched(s.(addPending := true), m)
    case RemoveMutation(_) => Dispatched(s.(removePending := true), m)
  }

  function SuccessToast(kind: MutationKind): Toast {
    match kind
    case AddKind => Toast("Success", "GIF added to favorites", false)
    case RemoveKind => Toast("Success", "GIF removed from favorites", false)
  }

  function ErrorToast(kind: MutationKind): Toast {
    match kind
    case AddKind => Toast("Error", "Failed to add GIF to favorites", true)
    case RemoveKind => Toast("Error", "Failed to remove GIF from favorites", true)
  }

  /**
    A mutation settles: its pending flag clears; on success the favorites
    list is invalidated, on failure it is left as it was and only an error
    notification is shown. The list's contents never change here.
   */
  function Settle(s: HookState, kind: MutationKind, success: bool): (r: Settled)
    ensures r.invalidate <==> success
    ensures r.toast.destructive <==> !success
    ensures r.state.data == s.data
    ensures r.state.isLoading == s.isLoading && r.state.isError == s.isError
    ensures r.state.stale <==> s.stale || success
    ensures kind == AddKind ==> !r.state.addPending && r.state.removePending == s.removePending
    ensures kind == RemoveKind ==> !r.state.removePending && r.state.addPending == s.addPending
  {
    var cleared := if kind == AddKind then s.(addPending := false) else s.(removePending := false);
    if success then Settled(cleared.(stale := true), true, SuccessToast(kind))
    else Settled(cleared, false, ErrorToast(kind))
  }

  /** The invalidated list is fetched again: it now holds the server's rows. */
  function Refetch(s: HookState, rows: seq<Favorite>): (r: HookState)
    ensures Favorites(r) == rows && !r.stale
    ensures !r.isLoading && !r.isError
    ensures r.addPending == s.addPending && r.removePending == s.removePending
  {
    s.(data := Some(rows), stale := false, isLoading := false, isError := false)
  }

  /**
    `isToggling` is true exactly while a mutation is in flight: it holds
    after a dispatch and, once the dispatched mutation settles with no other
    pending, it is false again, whatever the outcome.
   */
  lemma TogglingWhileInFlight(s: HookState, gif: Gif, success: bool)
    requires !IsToggling(s)
    ensures
      var d := Dispatch(s, gif);
      var kind := if d.mutation.AddMutation? then AddKind else RemoveKind;
      IsToggling(d.state) && !IsToggling(Settle(d.state, kind, success).state)
  {
  }

  /** A failed toggle leaves membership of every GIF exactly as it was. */
  lemma FailedToggleKeepsMembership(s: HookState, gif: Gif, other: string)
    ensures
      var d := Dispatch(s, gif);
      var kind := if d.mutation.AddMutation? then AddKind else RemoveKind;
      var after := Settle(d.state, kind, false).state;
      && IsFavorite(Favorites(after), other) == IsFavorite(Favorites(s), other)
      && after.stale == s.stale
      && after.isLoading == s.isLoading && after.isError == s.isError
  {
  }

  /**
    Toggling twice round-trips through the server: add when absent, and
    once the server's list with the new row is fetched again, the next
    toggle of the same GIF is a remove of that GIF.
   */
  lemma ToggleAfterRefetchFlips(s: HookState, gif: Gif, rows: seq<Favorite>)
    requires !IsFavorite(Favorites(s), gif.id)
    requires exists i :: 0 <= i < |rows| && rows[i].gifId == gif.id
    ensures Dispatch(s, gif).mutation == AddMutation(AddPayload(gif))
    ensures Toggle(Favorites(Refetch(Settle(Dispatch(s, gif).state, AddKind, true).state, rows)), gif)
         == RemoveMutation(gif.id)
  {
  }
}
