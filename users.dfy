/** The handlers of backend/routes/users.js: the favourites toggle and the
    loyalty-points lookup. */
module UserRoutes {
  import opened Common
  import opened Seqs
  import opened UserModel

  /** Stands for the message of the TypeError raised when the requester's
      user document is gone. */
  const MissingUser := "Cannot read properties of null"

  function NotItem(item: Id): Id -> bool {
    (x: Id) => x != item
  }

  /** The favourites after toggling `item`: a listed item is removed, every
      occurrence of it; an unlisted one is appended. The other ids keep
      their relative order and every copy either way. */
  function ToggleFavorite(favs: seq<Id>, item: Id): (r: seq<Id>)
    ensures item in favs ==> item !in r && IsSubsequence(r, favs)
    ensures item in favs ==> forall x :: x != item ==> multiset(r)[x] == multiset(favs)[x]
    ensures item in favs ==> |r| == |favs| - multiset(favs)[item]
    ensures item !in favs ==> r == favs + [item]
  {
    if item in favs then
      FilterMembership(favs, NotItem(item));
      FilterCounts(favs, NotItem(item));
      FilterCountsLength(favs, item);
      FilterIsSubsequence(favs, NotItem(item));
      Filter(favs, NotItem(item))
    else favs + [item]
  }

  /** Removing every copy of `item` shortens the list by its count. */
  lemma FilterCountsLength(favs: seq<Id>, item: Id)
    ensures |Filter(favs, NotItem(item))| == |favs| - multiset(favs)[item]
  {
    FilterCounts(favs, NotItem(item));
    var r := Filter(favs, NotItem(item));
    assert multiset(r) == multiset(favs)[item := 0];
  }

  /** Toggling an unlisted item twice restores the list. */
  lemma ToggleFavoriteTwice(favs: seq<Id>, item: Id)
    requires item !in favs
    ensures ToggleFavorite(ToggleFavorite(favs, item), item) == favs
  {
    FilterAppend(favs, [item], NotItem(item));
    FilterAllPass(favs, NotItem(item));
    assert Filter([item], NotItem(item)) == [];
  }

  /** Toggling a listed item twice moves it to the end: the round trip
      holds only for an item that was not listed. */
  lemma ToggleListedTwiceMovesIt(a: Id, b: Id)
    requires a != b
    ensures ToggleFavorite(ToggleFavorite([a, b], a), a) == [b, a]
  {
    assert [a, b][1..] == [b];
    assert Filter([b], NotItem(a)) == [b];
  }

  /** POST /favorites/:itemId: toggle the item in the requester's list and
      answer with the new list. */
  function Favorite(us: seq<User>, requester: Id, item: Id): (r: Outcome<seq<User>, seq<Id>>)
    ensures r.reply.Ok? <==> exists k :: 0 <= k < |us| && us[k].id == requester
    ensures !r.reply.Ok? ==> r == Outcome(ServerError(MissingUser), us)
    ensures r.reply.Ok? ==>
              exists k :: 0 <= k < |us| && us[k].id == requester
                && r.reply.value == ToggleFavorite(us[k].favoriteItems, item)
                && r.state == us[k := us[k].(favoriteItems := r.reply.value)]
  {
    match Find(us, UserIs(requester))
    case None => Outcome(ServerError(MissingUser), us)
    case Some(k) =>
      var favs := ToggleFavorite(us[k].favoriteItems, item);
      Outcome(Ok(favs), us[k := us[k].(favoriteItems := favs)])
  }

  /** The toggle keeps the user store valid. */
  lemma FavoriteKeepsValid(us: seq<User>, bound: Id, requester: Id, item: Id)
    requires ValidUsers(us, bound)
    ensures ValidUsers(Favorite(us, requester, item).state, bound)
  {
    var r := Favorite(us, requester, item);
    if r.reply.Ok? {
      var k :| 0 <= k < |us| && us[k].id == requester
                 && r.state == us[k := us[k].(favoriteItems := r.reply.value)];
      ReplaceSameEmailKeepsValid(us, bound, k, us[k].(favoriteItems := r.reply.value));
    }
  }

  /** GET /loyalty-points: the requester's stored balance. */
  function LoyaltyPoints(us: seq<User>, requester: Id): (r: Reply<int>)
    ensures r.Ok? <==> exists k :: 0 <= k < |us| && us[k].id == requester
    ensures r.Ok? ==> exists k :: 0 <= k < |us| && us[k].id == requester && r.value == us[k].loyaltyPoints
    ensures !r.Ok? ==> r == ServerError(MissingUser)
  {
    match Find(us, UserIs(requester))
    case None => ServerError(MissingUser)
    case Some(k) => Ok(us[k].loyaltyPoints)
  }

  /** In a valid store the lookup reports the balance of the one user with
      that id. */
  lemma LoyaltyPointsOfUser(us: seq<User>, bound: Id, k: nat)
    requires ValidUsers(us, bound) && k < |us|
    ensures LoyaltyPoints(us, us[k].id) == Ok(us[k].loyaltyPoints)
  {
    FoundUserIsUnique(us, bound, k);
  }
}
