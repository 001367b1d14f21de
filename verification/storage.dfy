/**
  The favorites part of the server's storage layer. The `favorites` table is
  an ordered sequence of rows; the database's own contributions to a new row
  (its surrogate `id` and its `createdAt` time) are inputs of the insert.
  Nothing at this level enforces uniqueness of `(userId, gifId)`: it follows
  from `AddFavorite` looking the pair up before inserting.
 */
module Storage {
  import opened Common

  datatype Favorite = Favorite(
    id: nat,
    userId: int,
    gifId: string,
    gifUrl: string,
    gifTitle: Option<string>,
    thumbnailUrl: string,
    createdAt: int)

  /** The caller-supplied part of a new row. */
  datatype InsertFavorite = InsertFavorite(
    userId: int,
    gifId: string,
    gifUrl: string,
    gifTitle: Option<string>,
    thumbnailUrl: string)

  datatype AddResult = AddResult(rows: seq<Favorite>, favorite: Favorite)

  datatype RemoveResult = RemoveResult(rows: seq<Favorite>, removed: bool)

  /** The composite key of a row is `(userId, gifId)`. */
  predicate Matches(f: Favorite, userId: int, gifId: string) {
    f.userId == userId && f.gifId == gifId
  }

  predicate HasMatch(rows: seq<Favorite>, userId: int, gifId: string) {
    exists i :: 0 <= i < |rows| && Matches(rows[i], userId, gifId)
  }

  /** No two rows share a composite key. */
  predicate NoDuplicateKeys(rows: seq<Favorite>) {
    forall i, j :: 0 <= i < j < |rows| ==>
      !(rows[i].userId == rows[j].userId && rows[i].gifId == rows[j].gifId)
  }

  predicate SortedByCreatedAt(rows: seq<Favorite>) {
    forall i, j :: 0 <= i < j < |rows| ==> rows[i].createdAt <= rows[j].createdAt
  }

  /** The rows carrying the given composite key, in table order. */
  function Matching(rows: seq<Favorite>, userId: int, gifId: string): (r: seq<Favorite>)
    ensures forall f :: f in r <==> f in rows && Matches(f, userId, gifId)
    ensures |r| == 0 <==> !HasMatch(rows, userId, gifId)
  {
    if rows == [] then []
    else
      var rest := Matching(rows[1..], userId, gifId);
      assert forall i :: 1 <= i < |rows| ==> rows[i] == rows[1..][i - 1];
      if Matches(rows[0], userId, gifId) then [rows[0]] + rest else rest
  }

  /** `a` is `b` with some rows dropped and the others kept in their order. */
  predicate IsSubsequence(a: seq<Favorite>, b: seq<Favorite>)
    decreases |b|
  {
    if a == [] then true
    else if b == [] then false
    else if a[0] == b[0] then IsSubsequence(a[1..], b[1..])
    else IsSubsequence(a, b[1..])
  }

  /** The rows NOT carrying the given composite key, in table order. */
  function Without(rows: seq<Favorite>, userId: int, gifId: string): (r: seq<Favorite>)
    ensures forall f :: f in r <==> f in rows && !Matches(f, userId, gifId)
    ensures forall f :: multiset(r)[f] == if Matches(f, userId, gifId) then 0 else multiset(rows)[f]
    ensures IsSubsequence(r, rows)
    ensures |r| + |Matching(rows, userId, gifId)| == |rows|
  {
    if rows == [] then []
    else
      assert rows == [rows[0]] + rows[1..];
      var rest := Without(rows[1..], userId, gifId);
      if Matches(rows[0], userId, gifId) then
        assert rest != [] ==> rest[0] in rest && rest[0] != rows[0];
        rest
      else
        assert ([rows[0]] + rest)[1..] == rest;
        [rows[0]] + rest
  }

  /** `getFavorite`: the first row with the composite key, if any. */
  function GetFavorite(rows: seq<Favorite>, userId: int, gifId: string): (r: Option<Favorite>)
    ensures r.Some? <==> HasMatch(rows, userId, gifId)
    ensures r.Some? ==> r.value in rows && Matches(r.value, userId, gifId)
    ensures r.Some? ==> exists i :: (0 <= i < |rows| && rows[i] == r.value &&
      forall j :: 0 <= j < i ==> !Matches(rows[j], userId, gifId))
  {
    if rows == [] then None
    else if Matches(rows[0], userId, gifId) then Some(rows[0])
    else
      var r := GetFavorite(rows[1..], userId, gifId);
      assert forall i :: 1 <= i < |rows| ==> rows[i] == rows[1..][i - 1];
      if r.Some? then
        var k :| 0 <= k < |rows[1..]| && rows[1..][k] == r.value &&
          forall j :: 0 <= j < k ==> !Matches(rows[1..][j], userId, gifId);
        assert rows[k + 1] == r.value;
        r
      else r
  }

  /** `isFavorite`: whether `getFavorite` finds a row. */
  function IsFavorite(rows: seq<Favorite>, userId: int, gifId: string): (r: bool)
    ensures r <==> exists f :: f in rows && Matches(f, userId, gifId)
  {
    GetFavorite(rows, userId, gifId).Some?
  }

  /**
    `addFavorite`: look the composite key up first and return the existing
    row untouched; otherwise append a row built from `fav`, with the
    database-assigned `id` and creation time `now`.
   */
  function AddFavorite(rows: seq<Favorite>, fav: InsertFavorite, id: nat, now: int): (r: AddResult)
    ensures HasMatch(rows, fav.userId, fav.gifId) ==>
      && r.rows == rows
      && r.favorite in rows
      && Matches(r.favorite, fav.userId, fav.gifId)
    ensures !HasMatch(rows, fav.userId, fav.gifId) ==>
      && r.rows == rows + [r.favorite]
      && r.favorite == Favorite(id, fav.userId, fav.gifId, fav.gifUrl, fav.gifTitle, fav.thumbnailUrl, now)
    ensures Matches(r.favorite, fav.userId, fav.gifId)
  {
    match GetFavorite(rows, fav.userId, fav.gifId)
    case Some(existing) => AddResult(rows, existing)
    case None =>
      var row := Favorite(id, fav.userId, fav.gifId, fav.gifUrl, fav.gifTitle, fav.thumbnailUrl, now);
      AddResult(rows + [row], row)
  }

  /** `removeFavorite`: delete every row with the composite key; report whether any was deleted. */
  function RemoveFavorite(rows: seq<Favorite>, userId: int, gifId: string): (r: RemoveResult)
    ensures r.removed <==> HasMatch(rows, userId, gifId)
    ensures !HasMatch(r.rows, userId, gifId)
    ensures forall f :: f in r.rows <==> f in rows && !Matches(f, userId, gifId)
    ensures forall f :: multiset(r.rows)[f] == if Matches(f, userId, gifId) then 0 else multiset(rows)[f]
    ensures IsSubsequence(r.rows, rows)
    ensures !r.removed ==> r.rows == rows
  {
    var kept := Without(rows, userId, gifId);
    if |kept| < |rows| then RemoveResult(kept, true)
    else
      WithoutAllKept(rows, userId, gifId);
      RemoveResult(rows, false)
  }

  /** Removing nothing keeps the sequence as it is. */
  lemma {:induction false} WithoutAllKept(rows: seq<Favorite>, userId: int, gifId: string)
    requires |Without(rows, userId, gifId)| == |rows|
    ensures Without(rows, userId, gifId) == rows
  {
    if rows != [] {
      WithoutAllKept(rows[1..], userId, gifId);
      assert rows == [rows[0]] + rows[1..];
    }
  }

  /** Insert one row into a list sorted by `createdAt`, before the rows with equal time. */
  function InsertByCreatedAt(x: Favorite, s: seq<Favorite>): (r: seq<Favorite>)
    requires SortedByCreatedAt(s)
    ensures SortedByCreatedAt(r)
    ensures multiset(r) == multiset(s) + multiset{x}
  {
    if s == [] then [x]
    else if x.createdAt <= s[0].createdAt then
      SortedCons(x, s);
      [x] + s
    else
      var rest := InsertByCreatedAt(x, s[1..]);
      assert s == [s[0]] + s[1..];
      forall i | 0 <= i < |rest| ensures s[0].createdAt <= rest[i].createdAt {
        assert rest[i] in multiset(rest);
        if rest[i] != x {
          assert rest[i] in s[1..];
        }
      }
      SortedCons(s[0], rest);
      [s[0]] + rest
  }

  /** A head no later than every row of a sorted list keeps it sorted. */
  lemma SortedCons(a: Favorite, s: seq<Favorite>)
    requires SortedByCreatedAt(s)
    requires forall i :: 0 <= i < |s| ==> a.createdAt <= s[i].createdAt
    ensures SortedByCreatedAt([a] + s)
  {
    var r := [a] + s;
    forall i, j | 0 <= i < j < |r| ensures r[i].createdAt <= r[j].createdAt {
      assert r[j] == s[j - 1];
      if i > 0 {
        assert r[i] == s[i - 1];
      }
    }
  }

  /** Insertion sort on `createdAt`; stable, see `SortIsStable`. */
  function SortByCreatedAt(s: seq<Favorite>): (r: seq<Favorite>)
    ensures SortedByCreatedAt(r)
    ensures multiset(r) == multiset(s)
  {
    if s == [] then []
    else
      assert s == [s[0]] + s[1..];
      InsertByCreatedAt(s[0], SortByCreatedAt(s[1..]))
  }

  /** The rows stamped `t`, in order. */
  function AtTime(s: seq<Favorite>, t: int): seq<Favorite> {
    if s == [] then [] else (if s[0].createdAt == t then [s[0]] else []) + AtTime(s[1..], t)
  }

  lemma SortedTail(s: seq<Favorite>)
    requires SortedByCreatedAt(s) && s != []
    ensures SortedByCreatedAt(s[1..])
  {
    forall i, j | 0 <= i < j < |s| - 1 ensures s[1..][i].createdAt <= s[1..][j].createdAt {
      assert s[1..][i] == s[i + 1] && s[1..][j] == s[j + 1];
    }
  }

  lemma InsertStep(x: Favorite, s: seq<Favorite>)
    requires SortedByCreatedAt(s) && s != [] && x.createdAt > s[0].createdAt
    ensures SortedByCreatedAt(s[1..])
    ensures InsertByCreatedAt(x, s) == [s[0]] + InsertByCreatedAt(x, s[1..])
  {
    SortedTail(s);
  }

  lemma AtTimeCons(a: Favorite, s: seq<Favorite>, t: int)
    ensures AtTime([a] + s, t) == (if a.createdAt == t then [a] else []) + AtTime(s, t)
  {
    assert ([a] + s)[1..] == s;
  }

  lemma {:induction false} InsertKeepsTies(x: Favorite, s: seq<Favorite>, t: int)
    requires SortedByCreatedAt(s)
    ensures AtTime(InsertByCreatedAt(x, s), t) == (if x.createdAt == t then [x] else []) + AtTime(s, t)
  {
    if s == [] {
      AtTimeCons(x, [], t);
    } else if x.createdAt <= s[0].createdAt {
      AtTimeCons(x, s, t);
    } else {
      InsertStep(x, s);
      var rest := InsertByCreatedAt(x, s[1..]);
      InsertKeepsTies(x, s[1..], t);
      AtTimeCons(s[0], rest, t);
      AtTimeCons(s[0], s[1..], t);
      assert s == [s[0]] + s[1..];
      if s[0].createdAt == t {
        assert AtTime(rest, t) == AtTime(s[1..], t);
      } else {
        assert AtTime(s, t) == AtTime(s[1..], t);
      }
    }
  }

  /** The sort is stable: rows with equal `createdAt` keep their relative order. */
  lemma {:induction false} SortIsStable(s: seq<Favorite>, t: int)
    ensures AtTime(SortByCreatedAt(s), t) == AtTime(s, t)
  {
    if s != [] {
      SortIsStable(s[1..], t);
      InsertKeepsTies(s[0], SortByCreatedAt(s[1..]), t);
    }
  }

  /** The rows owned by `userId`, in table order. */
  function OfUser(rows: seq<Favorite>, userId: int): (r: seq<Favorite>)
    ensures forall f :: multiset(r)[f] == if f.userId == userId then multiset(rows)[f] else 0
  {
    if rows == [] then []
    else
      assert rows == [rows[0]] + rows[1..];
      var rest := OfUser(rows[1..], userId);
      if rows[0].userId == userId then [rows[0]] + rest else rest
  }

  /**
    `getFavorites`: exactly the rows of `userId` (each as often as it occurs
    in the table), ordered by non-decreasing `createdAt`.
   */
  function GetFavorites(rows: seq<Favorite>, userId: int): (r: seq<Favorite>)
    ensures SortedByCreatedAt(r)
    ensures forall f :: multiset(r)[f] == if f.userId == userId then multiset(rows)[f] else 0
    ensures forall f :: f in r <==> f in rows && f.userId == userId
  {
    var r := SortByCreatedAt(OfUser(rows, userId));
    assert forall f :: f in r <==> multiset(r)[f] > 0;
    assert forall f :: f in rows <==> multiset(rows)[f] > 0;
    r
  }

  /** Rows of the user created at the same time come back in table order. */
  lemma GetFavoritesTiesInTableOrder(rows: seq<Favorite>, userId: int, t: int)
    ensures AtTime(GetFavorites(rows, userId), t) == AtTime(OfUser(rows, userId), t)
  {
    SortIsStable(OfUser(rows, userId), t);
  }

  // ---------------------------------------------------------------------
  // Properties relating several calls
  // ---------------------------------------------------------------------

  /** A repeated add is a no-op that returns the row the first add returned. */
  lemma AddIdempotent(rows: seq<Favorite>, fav: InsertFavorite, id1: nat, now1: int, id2: nat, now2: int)
    ensures
      var first := AddFavorite(rows, fav, id1, now1);
      var second := AddFavorite(first.rows, fav, id2, now2);
      second.rows == first.rows && second.favorite == first.favorite
  {
    var first := AddFavorite(rows, fav, id1, now1);
    if !HasMatch(rows, fav.userId, fav.gifId) {
      var got := GetFavorite(first.rows, fav.userId, fav.gifId);
      assert first.rows[|rows|] == first.favorite;
      var k :| 0 <= k < |first.rows| && first.rows[k] == got.value &&
        forall j :: 0 <= j < k ==> !Matches(first.rows[j], fav.userId, fav.gifId);
    }
  }

  /**
    After two identical adds exactly one row carries the key, whether or not
    the pair was already a favorite, as long as keys were unique before.
   */
  lemma AddTwiceLeavesOneRow(rows: seq<Favorite>, fav: InsertFavorite, id1: nat, now1: int, id2: nat, now2: int)
    requires NoDuplicateKeys(rows)
    ensures
      var first := AddFavorite(rows, fav, id1, now1);
      var second := AddFavorite(first.rows, fav, id2, now2);
      |Matching(second.rows, fav.userId, fav.gifId)| == 1
  {
    AddIdempotent(rows, fav, id1, now1, id2, now2);
    var first := AddFavorite(rows, fav, id1, now1);
    if HasMatch(rows, fav.userId, fav.gifId) {
      MatchingAtMostOne(rows, fav.userId, fav.gifId);
    } else {
      MatchingAppend(rows, first.favorite, fav.userId, fav.gifId);
    }
  }

  /** In a table with unique keys at most one row carries a given key. */
  lemma {:induction false} MatchingAtMostOne(rows: seq<Favorite>, userId: int, gifId: string)
    requires NoDuplicateKeys(rows)
    ensures |Matching(rows, userId, gifId)| <= 1
  {
    if rows != [] {
      NoDuplicatesTail(rows);
      var rest := Matching(rows[1..], userId, gifId);
      if Matches(rows[0], userId, gifId) {
        assert rest == [];
      } else {
        MatchingAtMostOne(rows[1..], userId, gifId);
      }
    }
  }

  lemma {:induction false} MatchingAppend(rows: seq<Favorite>, x: Favorite, userId: int, gifId: string)
    ensures Matching(rows + [x], userId, gifId)
         == Matching(rows, userId, gifId) + (if Matches(x, userId, gifId) then [x] else [])
  {
    if rows == [] {
      assert [x][1..] == [];
    } else {
      assert (rows + [x])[1..] == rows[1..] + [x];
      MatchingAppend(rows[1..], x, userId, gifId);
    }
  }

  /** The pair is a favorite right after it is added. */
  lemma FavoriteAfterAdd(rows: seq<Favorite>, fav: InsertFavorite, id: nat, now: int)
    ensures IsFavorite(AddFavorite(rows, fav, id, now).rows, fav.userId, fav.gifId)
  {
    var r := AddFavorite(rows, fav, id, now);
    assert r.favorite in r.rows;
  }

  /** The pair is not a favorite right after it is removed. */
  lemma NotFavoriteAfterRemove(rows: seq<Favorite>, userId: int, gifId: string)
    ensures !IsFavorite(RemoveFavorite(rows, userId, gifId).rows, userId, gifId)
  {
  }

  /**
    Removing one pair leaves the lookup of every other pair as it was: the
    first row found for it is the same row.
   */
  lemma {:induction false} RemoveKeepsOtherLookups(rows: seq<Favorite>, userId: int, gifId: string, u: int, g: string)
    requires u != userId || g != gifId
    ensures GetFavorite(RemoveFavorite(rows, userId, gifId).rows, u, g) == GetFavorite(rows, u, g)
  {
    WithoutKeepsOtherLookups(rows, userId, gifId, u, g);
  }

  lemma {:induction false} WithoutKeepsOtherLookups(rows: seq<Favorite>, userId: int, gifId: string, u: int, g: string)
    requires u != userId || g != gifId
    ensures GetFavorite(Without(rows, userId, gifId), u, g) == GetFavorite(rows, u, g)
  {
    if rows != [] {
      WithoutKeepsOtherLookups(rows[1..], userId, gifId, u, g);
      if !Matches(rows[0], userId, gifId) {
        assert ([rows[0]] + Without(rows[1..], userId, gifId))[1..] == Without(rows[1..], userId, gifId);
      }
    }
  }

  /** Adding a row with a fresh key keeps the keys distinct. */
  lemma AddPreservesNoDuplicates(rows: seq<Favorite>, fav: InsertFavorite, id: nat, now: int)
    requires NoDuplicateKeys(rows)
    ensures NoDuplicateKeys(AddFavorite(rows, fav, id, now).rows)
  {
    var r := AddFavorite(rows, fav, id, now);
    if !HasMatch(rows, fav.userId, fav.gifId) {
      forall i, j | 0 <= i < j < |r.rows|
        ensures !(r.rows[i].userId == r.rows[j].userId && r.rows[i].gifId == r.rows[j].gifId)
      {
        if j == |rows| {
          assert r.rows[i] == rows[i];
        } else {
          assert r.rows[i] == rows[i] && r.rows[j] == rows[j];
        }
      }
    }
  }

  /** The tail of a duplicate-free table is duplicate-free and avoids the head's key. */
  lemma NoDuplicatesTail(rows: seq<Favorite>)
    requires NoDuplicateKeys(rows) && rows != []
    ensures NoDuplicateKeys(rows[1..])
    ensures forall f :: f in rows[1..] ==> !Matches(f, rows[0].userId, rows[0].gifId)
  {
    forall i, j | 0 <= i < j < |rows[1..]|
      ensures !(rows[1..][i].userId == rows[1..][j].userId && rows[1..][i].gifId == rows[1..][j].gifId)
    {
      assert rows[1..][i] == rows[i + 1] && rows[1..][j] == rows[j + 1];
    }
  }

  /** A head whose key the duplicate-free tail avoids keeps the table duplicate-free. */
  lemma NoDuplicatesCons(x: Favorite, rest: seq<Favorite>)
    requires NoDuplicateKeys(rest)
    requires forall f :: f in rest ==> !Matches(f, x.userId, x.gifId)
    ensures NoDuplicateKeys([x] + rest)
  {
    var r := [x] + rest;
    forall i, j | 0 <= i < j < |r|
      ensures !(r[i].userId == r[j].userId && r[i].gifId == r[j].gifId)
    {
      assert r[j] == rest[j - 1] && r[j] in rest;
      if i > 0 {
        assert r[i] == rest[i - 1];
      }
    }
  }

  /** Deleting rows keeps distinct keys distinct. */
  lemma {:induction false} WithoutPreservesNoDuplicates(rows: seq<Favorite>, userId: int, gifId: string)
    requires NoDuplicateKeys(rows)
    ensures NoDuplicateKeys(Without(rows, userId, gifId))
  {
    if rows != [] {
      NoDuplicatesTail(rows);
      WithoutPreservesNoDuplicates(rows[1..], userId, gifId);
      var rest := Without(rows[1..], userId, gifId);
      if !Matches(rows[0], userId, gifId) {
        NoDuplicatesCons(rows[0], rest);
      }
    }
  }

  /** One storage operation, with the values the database would assign on insert. */
  datatype Op =
    | Add(fav: InsertFavorite, id: nat, now: int)
    | Remove(userId: int, gifId: string)

  function Apply(rows: seq<Favorite>, op: Op): seq<Favorite> {
    match op
    case Add(fav, id, now) => AddFavorite(rows, fav, id, now).rows
    case Remove(u, g) => RemoveFavorite(rows, u, g).rows
  }

  function Run(rows: seq<Favorite>, ops: seq<Op>): seq<Favorite>
    decreases |ops|
  {
    if ops == [] then rows else Run(Apply(rows, ops[0]), ops[1..])
  }

  /** No sequence of adds and removes creates two rows with the same composite key. */
  lemma {:induction false} RunPreservesNoDuplicates(rows: seq<Favorite>, ops: seq<Op>)
    requires NoDuplicateKeys(rows)
    ensures NoDuplicateKeys(Run(rows, ops))
    decreases |ops|
  {
    if ops != [] {
      match ops[0] {
        case Add(fav, id, now) => AddPreservesNoDuplicates(rows, fav, id, now);
        case Remove(u, g) => WithoutPreservesNoDuplicates(rows, u, g);
      }
      RunPreservesNoDuplicates(Apply(rows, ops[0]), ops[1..]);
    }
  }

  /** Starting from the empty table, keys stay unique forever. */
  lemma FromEmptyNoDuplicates(ops: seq<Op>)
    ensures NoDuplicateKeys(Run([], ops))
  {
    RunPreservesNoDuplicates([], ops);
  }
}
