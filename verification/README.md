# GIF search and favorites: a verified model of the core logic

This project models the logic of a small GIF search web application. The app
searches a media provider (GIPHY), caches the provider's answers on the
server, and keeps a per-user list of favorite GIFs. The Dafny model covers
these parts:

- **Favorites store** (`Storage`). The `favorites` table is a sequence of rows
  `(id, userId, gifId, gifUrl, gifTitle, thumbnailUrl, createdAt)`. The
  operations are `getFavorites`, `getFavorite`, `addFavorite`,
  `removeFavorite` and `isFavorite`. The database contributes each new row's
  `id` and `createdAt`; both are inputs of the insert.
- **Response cache of the provider gateway** (`GiphyService`). It is a map from
  `search:q:limit:offset` and `trending:limit:offset` keys to
  `(data, timestamp)`, with a five-minute TTL. The clock and the provider are
  explicit inputs. Every call reports the provider requests it made.
- **Parameter validation** (`Schema`) and **the two GIF endpoints** (`Routes`).
  A validation failure answers 400 and never reaches the provider. A provider
  failure answers 500.
- **Client favorites controller** (`UseFavorites`). It covers membership by
  `gifId`, toggling, the add payload, and what a settled mutation does.
- **Home page paging** (`Home`). The state is `(searchTerm, offset)`. The
  module also picks the endpoint and derives `gifs` and `hasMore`.
- **Result grid** (`GifGrid`). It chooses one of five screens and builds the
  cards, the load-more control and the copy/download targets. `CopyTarget` is
  the original rendition's url.
- **Favorites page** (`FavoritesPage`). It covers `favoriteToGif` and which
  blocks of the page are shown.
- **Search bar** (`SearchBar`). It covers Enter with JavaScript's `trim`, tag
  chips with `replace("#", "")`, and clearing the term.

`Common` holds `Option`, `Result` and the decimal rendering of integers used
in cache keys. `GiphyTypes` holds the provider's payload shapes.

Every operation is a pure function over immutable data. Stateful parts are
transition functions from a state and an input to a new state plus what was
emitted: provider requests, the `onSearch` argument, a mutation or a
notification.

One detail of the cache: the source reads the clock twice. The first reading
is for the freshness check. The second is taken after the provider answers,
and it is the timestamp that gets stored. The model therefore takes two clock
values, `now` and `storedAt`.

## Model

| member | source | states |
|---|---|---|
| Storage.GetFavorite | server/storage.ts:48-58 | the lookup finds a row iff some row has both the user id and the gif id, and it returns the first such row |
| Storage.IsFavorite | server/storage.ts:87-90 | true iff some row of the table has the composite key `(userId, gifId)` |
| Storage.AddFavorite | server/storage.ts:60-73 | if the key exists, the table is unchanged and an existing row with that key is returned; otherwise exactly one row with the given fields, id and time is appended and returned |
| Storage.RemoveFavorite | server/storage.ts:75-85 | reports true iff a row with the key existed; afterwards no such row remains; every row with another key survives exactly as often as before and in table order; removing an absent key changes nothing |
| Storage.RemoveKeepsOtherLookups | server/storage.ts:75-85 | removing one pair leaves the lookup of every other pair returning the same row |
| Storage.GetFavorites | server/storage.ts:40-46 | the result holds exactly the rows of that user, with their multiplicities, in non-decreasing `createdAt` order |
| Storage.SortByCreatedAt | server/storage.ts:45 | the ordering step returns a permutation of its input sorted by `createdAt` |
| Storage.SortIsStable | server/storage.ts:45 | rows with equal `createdAt` keep their relative order through the sort |
| Storage.GetFavoritesTiesInTableOrder | server/storage.ts:40-46 | a user's favorites created at the same time are listed in table order |
| Storage.AddIdempotent | server/storage.ts:60-73 | a second identical add leaves the table as the first left it and returns the same row |
| Storage.AddTwiceLeavesOneRow | server/storage.ts:60-73 | in a table with unique keys, after two identical adds exactly one row carries that key, whether or not it was already a favorite |
| Storage.FavoriteAfterAdd | server/storage.ts:60-90 | `isFavorite` is true right after `addFavorite` of the same pair |
| Storage.NotFavoriteAfterRemove | server/storage.ts:75-90 | `isFavorite` is false right after `removeFavorite` of the same pair |
| Storage.RunPreservesNoDuplicates | server/storage.ts:60-85 | any sequence of adds and removes keeps a table free of duplicate `(userId, gifId)` keys |
| Storage.FromEmptyNoDuplicates | server/storage.ts:60-85 | from the empty table, no sequence of adds and removes ever creates two rows with the same key |
| GiphyService.Cached | server/giphyService.ts:21-48 | a fresh entry (age below 300000 ms) is returned with no provider call and no cache change; otherwise there is exactly one provider call; a success is stored under the key with the store time and returned; a failure leaves the cache alone; other keys are never touched |
| GiphyService.SearchGifs | server/giphyService.ts:17-49 | search uses the `search:` key with defaults 25/0, requests `q`, limit, offset, rating `g` and lang `en` on a miss, succeeds with exactly the provider's response iff the provider answers, and otherwise fails with the search error while leaving the cache alone |
| GiphyService.TrendingGifs | server/giphyService.ts:54-84 | trending uses the `trending:` key with defaults 25/0, requests limit, offset and rating `g` on a miss, succeeds with exactly the provider's response iff the provider answers, and otherwise fails with the trending error while leaving the cache alone |
| GiphyService.SearchKeyInjective | server/giphyService.ts:18 | distinct search parameters never share a cache key, even when the query contains colons |
| GiphyService.TrendingKeyInjective | server/giphyService.ts:55 | distinct trending parameters never share a cache key |
| GiphyService.SearchAndTrendingKeysDiffer | server/giphyService.ts:17-55 | no search key equals a trending key |
| GiphyService.RepeatedSearchWithinTtl | server/giphyService.ts:21-42 | two identical searches checked less than 300000 ms apart make at most one provider call, unless the first one failed |
| GiphyService.RepeatedTrendingWithinTtl | server/giphyService.ts:58-77 | the same for two identical trending calls |
| GiphyService.SearchTouchesOnlyItsKey | server/giphyService.ts:39-42 | a search never changes any trending entry, nor the entry of any other search parameters |
| Common.IntToDecimalInjective | server/giphyService.ts:18 | the decimal rendering inside cache keys is injective |
| Schema.ValidateSearch | shared/schema.ts:20-24 | accepted iff `q` is present with length at least 1, limit is absent or in [1,50], and offset is absent or at least 0; defaults are 25 and 0; a rejection names exactly the failing checks of each field |
| Schema.ValidateTrending | shared/schema.ts:26-29 | accepted iff limit is absent or in [1,50] and offset is absent or at least 0, whatever `q` is; defaults are 25 and 0; a rejection names exactly the failing numeric checks |
| Schema.SearchAcceptedImpliesTrendingAccepted | shared/schema.ts:20-29 | parameters accepted by search validation, with any `q`, are accepted by trending validation with the same limit and offset |
| Routes.HandleSearch | server/routes.ts:9-31 | on invalid parameters it answers 400 with the issues, makes no provider call and leaves the cache alone; otherwise it calls the gateway with the parsed values and answers 200 with the data or 500 on failure |
| Routes.HandleTrending | server/routes.ts:33-53 | the same rules for the trending endpoint |
| Routes.EmptyQueryRejected | server/routes.ts:12-25 | a search with an empty `q` is answered 400 and makes zero provider calls |
| Routes.ValidSearchForwarded | server/routes.ts:12-29 | a valid search reaches the provider only with exactly its own (defaulted) parameters, and answers 500 exactly when the provider was asked and failed |
| UseFavorites.IsFavorite | client/src/hooks/use-favorites.ts:17-19 | true iff some element of the list has that `gifId` |
| UseFavorites.NothingFavoriteWithoutData | client/src/hooks/use-favorites.ts:14 | before the list arrives, nothing is a favorite |
| UseFavorites.AddPayload | client/src/hooks/use-favorites.ts:24-29 | the payload carries the gif's id, title, original url and fixed-height url |
| UseFavorites.RemovePath | client/src/hooks/use-favorites.ts:57-62 | the remove request targets `/api/favorites/` followed by the gif id and nothing else |
| UseFavorites.Favorites | client/src/hooks/use-favorites.ts:14 | the list is the fetched rows, or empty before the first answer |
| UseFavorites.IsToggling | client/src/hooks/use-favorites.ts:96 | true iff the add or the remove mutation is pending |
| UseFavorites.Toggle | client/src/hooks/use-favorites.ts:82-88 | one mutation: a remove of the gif's id iff the gif is in the list, otherwise an add with the gif's payload |
| UseFavorites.Dispatch | client/src/hooks/use-favorites.ts:82-96 | a toggle starts the chosen mutation and marks it pending, so the hook is toggling |
| UseFavorites.Settle | client/src/hooks/use-favorites.ts:37-78 | a settled mutation invalidates the list iff it succeeded; on failure it shows only an error notification; the list's contents and the query's loading and error flags never change here |
| UseFavorites.Refetch | client/src/hooks/use-favorites.ts:10-14 | after an invalidated list is fetched again, the list is the server's rows, no longer stale, and the query is neither loading nor errored; the pending flags are kept |
| UseFavorites.TogglingWhileInFlight | client/src/hooks/use-favorites.ts:96 | `isToggling` is true while the dispatched mutation is pending and false once it settles |
| UseFavorites.FailedToggleKeepsMembership | client/src/hooks/use-favorites.ts:45-52 | a failed toggle changes no gif's membership, the list's staleness, or the query's loading and error flags |
| UseFavorites.ToggleAfterRefetchFlips | client/src/hooks/use-favorites.ts:37-88 | adding an absent gif, then refetching a list that holds it, makes the next toggle of that gif a remove |
| Home.Step | client/src/pages/Home.tsx:24-35 | a search sets the term and resets the offset to 0; load-more adds 9 to the offset and keeps the term; retry changes nothing |
| Home.ReachableOffsets | client/src/pages/Home.tsx:13-31 | from the initial state, the offset is always a non-negative multiple of 9 |
| Home.QueryOf | client/src/pages/Home.tsx:15-17 | the search endpoint is used iff the term is non-empty, otherwise trending; both use limit 9 and the current offset |
| Home.RequestsAreValid | client/src/pages/Home.tsx:15-17 | every request a reachable Home page forms, as its term, limit and offset, passes the server's validation with those values unchanged |
| Home.Gifs | client/src/pages/Home.tsx:37 | the displayed gifs are the current response's data only, or empty without a response |
| Home.HasMore | client/src/pages/Home.tsx:38 | true iff pagination exists and `offset + 9 < total_count` |
| Home.LoadMoreStaysInRange | client/src/pages/Home.tsx:29-38 | when `hasMore` holds, load-more asks for an offset below the total count |
| Home.EnterSearchUsesSearchEndpoint | client/src/components/SearchBar.tsx:27-31 | a search submitted with Enter always selects the search endpoint at offset 0 with the trimmed term |
| GifGrid.SelectRenderState | client/src/components/GifGrid.tsx:98-154 | closed forms of each screen: initial iff not loading, empty term, no error and no gifs; skeleton iff loading with no gifs; error iff error and not that skeleton case; no-results iff not loading, non-empty term, no error and no gifs; results iff gifs exist and no error |
| GifGrid.ScreenPrecedence | client/src/components/GifGrid.tsx:112-154 | an error hides gifs already received; the skeleton wins over the error while nothing is loaded; the results screen never shows an empty list |
| GifGrid.Cards | client/src/components/GifGrid.tsx:157-174 | one card per gif, in order, flagged iff the favorites list holds that gif id |
| GifGrid.Render | client/src/components/GifGrid.tsx:98-207 | the view matches the chosen screen; the skeleton has 6 placeholders; load-more is shown iff `hasMore` and is disabled iff loading |
| GifGrid.CopyTarget | client/src/components/GifGrid.tsx:48 | copy and download act on the gif's original rendition url |
| GifGrid.DownloadFileName | client/src/components/GifGrid.tsx:77 | the file name ends in `.gif`, its stem is the title when the title is non-empty, and it is `gif.gif` otherwise |
| GifGrid.CardToggleMatchesFlag | client/src/components/GifGrid.tsx:168-172 | toggling a card removes exactly when its favorite flag is shown |
| FavoritesPage.FavoriteToGif | client/src/pages/Favorites.tsx:29-60 | id from `gifId`; title from `gifTitle`, or "" without one; original url and `url` from `gifUrl`; every small rendition from `thumbnailUrl` |
| FavoritesPage.PayloadRoundTrip | client/src/pages/Favorites.tsx:29-60 | the add payload built from `favoriteToGif(f)` gives back f's id, urls and title, with a missing title as "" |
| FavoritesPage.ActionsUseStoredFields | client/src/pages/Favorites.tsx:63-96 | copy targets the stored gif url; the download name is the stored title plus `.gif`, or `gif.gif` without a title |
| FavoritesPage.Cards | client/src/pages/Favorites.tsx:169-186 | one card per favorite, each built by `favoriteToGif` and flagged as a favorite |
| FavoritesPage.Render | client/src/pages/Favorites.tsx:136-191 | loading and error blocks follow their flags; the empty notice shows iff not loading, no error and no favorites; the grid shows iff the same holds with favorites; the two never show together; the grid is exactly one favorite-flagged card per stored favorite, in order |
| FavoritesPage.ToggleOnPageRemoves | client/src/pages/Favorites.tsx:182-186 | toggling any card on the favorites page always removes that favorite |
| SearchBar.Trim | client/src/components/SearchBar.tsx:28-29 | trimming keeps a contiguous slice with only JavaScript whitespace around it and none at its ends; it is empty iff the term is all whitespace |
| SearchBar.RemoveFirstHash | client/src/components/SearchBar.tsx:34 | a string without `#` is unchanged; otherwise exactly the first `#` is removed |
| SearchBar.Step | client/src/components/SearchBar.tsx:20-37 | Enter calls `onSearch` iff the term is not blank, passing the trimmed term; other keys never do; a tag click sets the term to the tag minus its first `#` and searches for it; clear empties the term |
| SearchBar.TrendingTagsSearchTheirText | client/src/components/SearchBar.tsx:10-37 | every trending tag searches for its text without the leading `#`, which is never empty |

## Left out

- Database and ORM calls, the user table and `getUser`, `getUserByUsername` and `createUser` are left out. The lookups have no behaviour beyond the database.
- The `favorites` table definition is not part of this model: its unique index, cascade delete and defaults are not in the schema file. So no store-level uniqueness is assumed. Key uniqueness is proved from `addFavorite`'s check alone.
- Storage.GetFavorite: SQL leaves the order of matching rows unspecified. The model returns the first match in table order.
- Storage.GetFavorites: SQL leaves the order of rows with equal `createdAt` unspecified. The model keeps table order among them (the sort is stable, `Storage.SortIsStable`).
- The check-then-insert race in `addFavorite` and all concurrency between requests are left out, because every operation is sequential here.
- GiphyService.SearchGifs: the stored timestamp is the clock reading after the provider answers (`storedAt`), not the reading used for the freshness check.
- GiphyService.RepeatedSearchWithinTtl: this assumes the clock does not run backwards while the first request is in flight (`now1 <= stored1`). It also excludes a failed first call, because a failure stores nothing and the second call asks the provider again.
- GiphyService.RepeatedTrendingWithinTtl: the same two assumptions as for search.
- The HTTP client, the api key, the base url, console logging and Express wiring are left out. The provider is an abstract function from request parameters to a response or a failure.
- Zod's string-to-number coercion is left out. Parameters are already-parsed optional integers, so fractional or non-numeric values are outside the model. Zod's issue objects are reduced to one tag per failed check.
- The favorites HTTP endpoints that the client calls are left out, because their handlers are not part of the server's route file.
- React and React Query scheduling are left out. This includes automatic refetch on a query-key change, repeated `mutate` calls while one is pending, and the toast's duration. Mutation success or failure is an input. Invalidation is a `stale` flag, and `Refetch` supplies the new list.
- Home.RequestsAreValid: the page builds its url by splicing the term in without encoding, so a term holding `&`, `#`, `+`, `%` or `=` reaches the server changed or rejected (`a#b` arrives as `q=a`). The lemma speaks of the structured request only, not of the url the server parses.
- Common.IntToDecimal: renders every integer in plain decimal. JavaScript numbers are doubles, so `${n}` writes exponent notation from 10^21 on and integers beyond 2^53 lose precision. The schema puts no upper bound on `offset`, so cache keys for such offsets, and the key injectivity proved for them, are not modelled.
- Home.QueryOf: the query-key url splices the term in without url encoding. The fetch function that reads the key is not part of this model, so the model uses the structured request (term, limit, offset) instead of the url string.
- Clipboard writes, the download fetch, blob and link creation, and their success or failure notifications are left out. Only the target url (`CopyTarget`) and the file name are modelled.
- The preview modal, card selection, focus handling, the `disabled` attribute of the search input and tag chips, and all markup and styling are left out.
- The provider payload's `user` and `meta` fields are left out, because no modelled code reads them.
