/** The earlier rating routes (`pup-skillswap-main`): no eligibility checks,
    a listing that shows only items whose `is_flagged` is stored false, an
    unauthenticated flag, and the same catch-all 500 as the legacy tasks. */
module LegacyRatings {
  import opened Base
  import opened Http
  import opened Scan

  type RatingId = string

  /** The `RatingCreate` payload: sender, recipient, score and comment. */
  datatype RatingIn = RatingIn(fromUser: UserId, toUser: UserId, score: int, comment: Option<string>)

  datatype Rating = Rating(
    ratingId: RatingId,
    fromUser: UserId,
    toUser: UserId,
    score: int,
    comment: Option<string>,
    timestamp: Time,
    isFlagged: Option<bool>)

  type Store = map<RatingId, Rating>

  /** `create_rating`. The payload model bounds the score to 1..5, so the
      framework answers 422 before the handler runs; the handler then
      stores the payload, replacing its sender with the caller. */
  function CreateRating(ratings: Store, caller: UserId, p: RatingIn, freshId: RatingId, now: Time)
    : (r: Result<Reply<Store, Rating>>)
    ensures r.Err? <==> !(1 <= p.score <= 5)
    ensures r.Err? ==> r.error == Error(422, InvalidScore)
    ensures r.Ok? ==> r.value.store.Keys == ratings.Keys + {freshId}
    ensures r.Ok? ==> forall k :: k in ratings && k != freshId ==> r.value.store[k] == ratings[k]
    ensures r.Ok? ==> r.value.store[freshId] == r.value.body
    ensures r.Ok? ==>
              && r.value.body.fromUser == caller && r.value.body.toUser == p.toUser
              && r.value.body.score == p.score && r.value.body.comment == p.comment
              && r.value.body.isFlagged == Some(false)
    ensures r.Ok? ==> r.value.body.ratingId == freshId && r.value.body.timestamp == now
  {
    if !(1 <= p.score <= 5) then Err(Error(422, InvalidScore))
    else
      var rt := Rating(freshId, caller, p.toUser, p.score, p.comment, now, Some(false));
      Ok(Reply(ratings[freshId := rt], rt))
  }

  /** `Attr("to_user").eq(user_id) & Attr("is_flagged").eq(False)`: an item
      without the attribute is not shown. */
  predicate Shown(rt: Rating, user: UserId) {
    rt.toUser == user && rt.isFlagged == Some(false)
  }

  /** `get_ratings_for_user`: the items shown for the user, in scan order. */
  function GetRatingsForUser(ratings: Store, scan: seq<RatingId>, user: UserId): (r: seq<Rating>)
    requires IsScanOf(scan, ratings)
    ensures forall rt :: rt in r <==> rt in ratings.Values && Shown(rt, user)
    ensures |r| == |set k | k in ratings && Shown(ratings[k], user)|
    ensures forall rt :: multiset(r)[rt] == if Shown(rt, user) then |KeysHolding(ratings, rt)| else 0
  {
    RowsAreValues(scan, ratings);
    var keep := (rt: Rating) => Shown(rt, user);
    FilterRowsCount(scan, ratings, keep);
    FilterRowsMultiplicity(scan, ratings, keep);
    KeysWhereIs(ratings, keep, set k | k in ratings && Shown(ratings[k], user));
    Filter(Rows(scan, ratings), keep)
  }

  /** `flag_rating`: no caller and no reason; a missing item is a 404
      surfacing as a 500; otherwise the item is marked flagged. */
  function FlagRating(ratings: Store, id: RatingId): (r: Result<Store>)
    ensures r.Ok? <==> id in ratings
    ensures r.Err? ==> r.error == CaughtAll(Error(404, RatingNotFound))
    ensures r.Ok? ==> r.value.Keys == ratings.Keys
    ensures r.Ok? ==> forall k :: k in ratings && k != id ==> r.value[k] == ratings[k]
    ensures r.Ok? ==> r.value[id] == ratings[id].(isFlagged := Some(true))
  {
    if id !in ratings then Err(CaughtAll(Error(404, RatingNotFound)))
    else Ok(ratings[id := ratings[id].(isFlagged := Some(true))])
  }

  /** Flagging twice is flagging once. */
  lemma FlagIdempotent(ratings: Store, id: RatingId)
    requires id in ratings
    ensures FlagRating(FlagRating(ratings, id).value, id) == FlagRating(ratings, id)
  {
    var once := FlagRating(ratings, id).value;
    assert once[id := once[id].(isFlagged := Some(true))] == once;
  }

  /** A new rating is shown to its recipient until someone flags it, and
      never after. */
  lemma CreatedShownUntilFlagged(ratings: Store, caller: UserId, p: RatingIn, freshId: RatingId, now: Time,
                                 scan: seq<RatingId>, scan': seq<RatingId>)
    requires 1 <= p.score <= 5
    requires IsScanOf(scan, CreateRating(ratings, caller, p, freshId, now).value.store)
    requires IsScanOf(scan', FlagRating(CreateRating(ratings, caller, p, freshId, now).value.store, freshId).value)
    ensures
      var s := CreateRating(ratings, caller, p, freshId, now).value.store;
      var flagged := FlagRating(s, freshId).value;
      && s[freshId] in GetRatingsForUser(s, scan, p.toUser)
      && flagged[freshId] !in GetRatingsForUser(flagged, scan', p.toUser)
      && forall rt :: rt in GetRatingsForUser(flagged, scan', p.toUser) ==> rt in GetRatingsForUser(s, scan, p.toUser)
  {
    var s := CreateRating(ratings, caller, p, freshId, now).value.store;
    var flagged := FlagRating(s, freshId).value;
    forall rt | rt in GetRatingsForUser(flagged, scan', p.toUser)
      ensures rt in GetRatingsForUser(s, scan, p.toUser)
    {
      var k :| k in flagged && flagged[k] == rt;
      assert k != freshId;
      assert rt == s[k];
    }
  }
}
