/** The integer part of the rating aggregate: the review count and the star
    sum read from buckets 1 to 5, and the bucket bump of an accepted review. */
module Ratings {
  import opened Entities

  /** Reviews counted by the aggregate: only buckets 1 to 5 are read. */
  function TotalReviews(item: MenuItem): nat {
    RatingCount(item, 1) + RatingCount(item, 2) + RatingCount(item, 3)
      + RatingCount(item, 4) + RatingCount(item, 5)
  }

  /** Σ star × count over buckets 1 to 5; every counted review adds between one and five. */
  function StarSum(item: MenuItem): (w: nat)
    ensures TotalReviews(item) <= w <= 5 * TotalReviews(item)
  {
    1 * RatingCount(item, 1) + 2 * RatingCount(item, 2) + 3 * RatingCount(item, 3)
      + 4 * RatingCount(item, 4) + 5 * RatingCount(item, 5)
  }

  /** The whole-star part of the average rating: 0 without reviews, and
      otherwise the floor of StarSum / TotalReviews, which lies in 1..5. */
  function AverageFloor(item: MenuItem): (a: nat)
    ensures TotalReviews(item) == 0 ==> a == 0
    ensures TotalReviews(item) > 0 ==>
      && 1 <= a <= 5
      && a * TotalReviews(item) <= StarSum(item) < (a + 1) * TotalReviews(item)
  {
    var n := TotalReviews(item);
    if n == 0 then 0
    else
      QuotientBetweenOneAndFive(StarSum(item), n);
      StarSum(item) / n
  }

  /** The floor of w / n for n <= w <= 5n lies in 1..5. */
  lemma QuotientBetweenOneAndFive(w: nat, n: nat)
    requires 0 < n && n <= w <= 5 * n
    ensures 1 <= w / n <= 5
    ensures (w / n) * n <= w < (w / n + 1) * n
  {
    var a := w / n;
    assert a * n + w % n == w;
  }

  /** An item with one more review giving `star` stars. */
  function Bump(item: MenuItem, star: int): (r: MenuItem)
    ensures RatingCount(r, star) == RatingCount(item, star) + 1
    ensures forall s :: s != star ==> RatingCount(r, s) == RatingCount(item, s)
    ensures r.(ratings := item.ratings) == item
  {
    item.(ratings := item.ratings[star := RatingCount(item, star) + 1])
  }

  /** An accepted review with 1 to 5 stars adds one to the review count and
      its stars to the sum; any other star value lands in a bucket the
      aggregate never reads and changes neither. */
  lemma BumpMovesAggregate(item: MenuItem, star: int)
    ensures 1 <= star <= 5 ==>
      TotalReviews(Bump(item, star)) == TotalReviews(item) + 1
      && StarSum(Bump(item, star)) == StarSum(item) + star
    ensures !(1 <= star <= 5) ==>
      TotalReviews(Bump(item, star)) == TotalReviews(item)
      && StarSum(Bump(item, star)) == StarSum(item)
  {
    var b := Bump(item, star);
    assert RatingCount(b, star) == RatingCount(item, star) + 1;
    assert forall s :: s != star ==> RatingCount(b, s) == RatingCount(item, s);
  }
}
