/** The rating aggregate of reviewController.js `updateWorkerRating`: the
    mean of a worker's visible review ratings, kept in hundredths. */
module Rating {
  import opened Common
  import opened ReviewModel
  import Money

  /** What one review adds to a worker's visible ratings. */
  function Contribution(r: Review, worker: Id): seq<int>
  {
    if r.workerId == worker && r.isVisible then [r.rating] else []
  }

  /** The ratings `Review.find({ workerId, isVisible: true })` yields, in store order. */
  function VisibleRatings(reviews: seq<Review>, worker: Id): (rs: seq<int>)
    ensures |rs| <= |reviews|
    ensures (forall i :: 0 <= i < |reviews| ==> RatingInRange(reviews[i].rating)) ==>
              forall j :: 0 <= j < |rs| ==> RatingInRange(rs[j])
  {
    if reviews == [] then []
    else VisibleRatings(reviews[..|reviews| - 1], worker) + Contribution(reviews[|reviews| - 1], worker)
  }

  function Sum(xs: seq<int>): int
  {
    if xs == [] then 0 else Sum(xs[..|xs| - 1]) + xs[|xs| - 1]
  }

  /** The stored average in hundredths: 0 without ratings, otherwise the
      mean rounded to two decimals. */
  function AverageRating(ratings: seq<int>): (avg: int)
    ensures ratings == [] ==> avg == 0
    ensures ratings != [] && Sum(ratings) >= 0 ==>
              2 * 100 * Sum(ratings) - |ratings| < 2 * |ratings| * avg <= 2 * 100 * Sum(ratings) + |ratings|
  {
    if ratings == [] then 0 else Money.RoundHalfUp(100 * Sum(ratings), |ratings|)
  }

  lemma {:induction false} SumBounds(xs: seq<int>)
    requires forall i :: 0 <= i < |xs| ==> RatingInRange(xs[i])
    ensures |xs| <= Sum(xs) <= 5 * |xs|
  {
    if xs != [] {
      SumBounds(xs[..|xs| - 1]);
    }
  }

  /** The average of valid ratings lies in [1.00, 5.00], and the stored
      value therefore within the schema's bounds [0, 5]. */
  lemma AverageInRange(ratings: seq<int>)
    requires forall i :: 0 <= i < |ratings| ==> RatingInRange(ratings[i])
    ensures ratings != [] ==> 100 <= AverageRating(ratings) <= 500
    ensures 0 <= AverageRating(ratings) <= 500
  {
    if ratings != [] {
      var n, s, avg := |ratings|, Sum(ratings), AverageRating(ratings);
      SumBounds(ratings);
      Money.MulMonotone(2 * n, avg, 99);
      Money.MulMonotone(2 * n, 501, avg);
    }
  }

  /** A review appended to the store adds its own contribution at the end. */
  lemma VisibleRatingsAppend(reviews: seq<Review>, r: Review, worker: Id)
    ensures VisibleRatings(reviews + [r], worker) == VisibleRatings(reviews, worker) + Contribution(r, worker)
  {
    assert (reviews + [r])[..|reviews|] == reviews;
  }

  /** Replacing a review by one contributing the same to `worker` leaves
      the worker's visible ratings unchanged. */
  lemma {:induction false} VisibleRatingsUpdate(reviews: seq<Review>, i: nat, r: Review, worker: Id)
    requires i < |reviews|
    requires Contribution(r, worker) == Contribution(reviews[i], worker)
    ensures VisibleRatings(reviews[i := r], worker) == VisibleRatings(reviews, worker)
  {
    var last := |reviews| - 1;
    if i < last {
      assert reviews[i := r][..last] == reviews[..last][i := r];
      VisibleRatingsUpdate(reviews[..last], i, r, worker);
    } else {
      assert reviews[i := r][..last] == reviews[..last];
    }
  }

  /** A worker with exactly one visible review has that review's rating
      as average: editing the only review from 5 to 3 yields 3.00. */
  lemma SingleRating(rating: int)
    requires RatingInRange(rating)
    ensures AverageRating([rating]) == 100 * rating
  {
    var avg := AverageRating([rating]);
    assert Sum([rating]) == rating by {
      assert [rating][..0] == [];
    }
    Money.NearestIsUnique(100 * rating, 1, avg, 100 * rating);
  }
}
