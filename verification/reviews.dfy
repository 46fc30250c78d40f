/** The review gate: at most one review per (menu item, user, order), and an
    accepted review bumps the item's rating bucket. */
module Reviews {
  import opened Base
  import opened Entities
  import opened Ratings

  predicate Reviewed(reviews: seq<Review>, itemId: string, email: string, orderId: int) {
    exists j :: 0 <= j < |reviews|
      && reviews[j].itemId == itemId && reviews[j].userEmail == email && reviews[j].orderId == orderId
  }

  /** Whether `email` has reviewed `itemId` for order `orderId`. A query: it returns no store. */
  function CheckReview(store: Store, email: string, itemId: string, orderId: int): (r: Result<bool>)
    ensures r.Err? <==> email !in store.users
    ensures r.Err? ==> r.error == UserNotFound
    ensures r.Ok? ==> (r.value <==> Reviewed(store.reviews, itemId, email, orderId))
  {
    if email !in store.users then Err(UserNotFound)
    else Ok(Reviewed(store.reviews, itemId, email, orderId))
  }

  /** The catalog after one more `star` review of `itemId`. An id the catalog
      does not have is left alone: the increment matches no entry. */
  function BumpRating(catalog: Catalog, itemId: string, star: int): (c: Catalog)
    ensures c.Keys == catalog.Keys
    ensures forall m :: m in catalog && m != itemId ==> c[m] == catalog[m]
    ensures itemId in catalog ==>
      && RatingCount(c[itemId], star) == RatingCount(catalog[itemId], star) + 1
      && (forall s :: s != star ==> RatingCount(c[itemId], s) == RatingCount(catalog[itemId], s))
      && c[itemId].(ratings := catalog[itemId].ratings) == catalog[itemId]
  {
    if itemId in catalog then catalog[itemId := Bump(catalog[itemId], star)] else catalog
  }

  /** Submitting a review. A missing user or an existing review for the same
      (item, user, order) is refused with nothing changed; otherwise exactly
      one review is appended and only the item's `rating` bucket grows by one. */
  function SubmitReview(store: Store, email: string, itemId: string, text: string,
                        rating: int, orderId: int, now: int): (s: Step<()>)
    ensures email !in store.users ==> s == Step(store, Err(UserNotFound))
    ensures email in store.users && Reviewed(store.reviews, itemId, email, orderId) ==>
      s == Step(store, Err(AlreadyReviewed))
    ensures s.reply.Ok? <==> email in store.users && !Reviewed(store.reviews, itemId, email, orderId)
    ensures s.reply.Ok? ==>
      && s.store.reviews == store.reviews + [Review(itemId, email, text, rating, orderId, now)]
      && s.store.catalog == BumpRating(store.catalog, itemId, rating)
      && s.store.users == store.users
      && s.store.orders == store.orders
      && s.store.vouchers == store.vouchers
  {
    if email !in store.users then Step(store, Err(UserNotFound))
    else if Reviewed(store.reviews, itemId, email, orderId) then Step(store, Err(AlreadyReviewed))
    else
      var review := Review(itemId, email, text, rating, orderId, now);
      Step(store.(reviews := store.reviews + [review],
                  catalog := BumpRating(store.catalog, itemId, rating)), Ok(()))
  }

  /** Once a review is accepted, the check reports the triple as reviewed and
      a second submission for it is refused without touching the store. */
  lemma SubmitOnlyOnce(store: Store, email: string, itemId: string, text: string, text2: string,
                       rating: int, rating2: int, orderId: int, now: int, later: int)
    requires SubmitReview(store, email, itemId, text, rating, orderId, now).reply.Ok?
    ensures var s1 := SubmitReview(store, email, itemId, text, rating, orderId, now).store;
      && CheckReview(s1, email, itemId, orderId) == Ok(true)
      && SubmitReview(s1, email, itemId, text2, rating2, orderId, later) == Step(s1, Err(AlreadyReviewed))
  {
    var s1 := SubmitReview(store, email, itemId, text, rating, orderId, now).store;
    assert s1.reviews[|store.reviews|] == Review(itemId, email, text, rating, orderId, now);
  }

  /** An accepted review with 1 to 5 stars of a catalogued item adds one to
      that item's review count and its stars to the item's star sum. */
  lemma AcceptedReviewCounts(store: Store, email: string, itemId: string, text: string,
                             rating: int, orderId: int, now: int)
    requires SubmitReview(store, email, itemId, text, rating, orderId, now).reply.Ok?
    requires itemId in store.catalog && 1 <= rating <= 5
    ensures var c := SubmitReview(store, email, itemId, text, rating, orderId, now).store.catalog;
      && TotalReviews(c[itemId]) == TotalReviews(store.catalog[itemId]) + 1
      && StarSum(c[itemId]) == StarSum(store.catalog[itemId]) + rating
  {
    BumpMovesAggregate(store.catalog[itemId], rating);
  }
}
