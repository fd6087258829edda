/** The review handlers of controllers/reviewController.js and the rating
    recomputation they trigger. */
module ReviewController {
  import opened Common
  import opened Constants
  import opened UserModel
  import opened BookingModel
  import opened ReviewModel
  import opened Store
  import opened Guards
  import Rating
  import Text

  /** `updateWorkerRating`'s result: the worker's stored average replaced by
      the one recomputed from the visible reviews; no worker, no change. */
  function Recomputed(s: State, worker: Id): (s': State)
    ensures s'.userOrder == s.userOrder && s'.bookings == s.bookings && s'.payments == s.payments
    ensures s'.reviews == s.reviews && s'.nextId == s.nextId
    ensures s'.users.Keys == s.users.Keys
  {
    if worker in s.users then
      s.(users := s.users[worker := s.users[worker].(averageRating :=
                     Rating.AverageRating(Rating.VisibleRatings(s.reviews, worker)))])
    else s
  }

  /** Recomputing restores the derived-state invariant. */
  lemma RecomputeRestoresInvariant(s: State, worker: Id)
    requires ValidExcept(s, worker)
    ensures ValidState(Recomputed(s, worker))
  {
    if worker in s.users {
      var u := s.users[worker].(averageRating := Rating.AverageRating(Rating.VisibleRatings(s.reviews, worker)));
      UpdateUserKeepsUsersValid(s.users, s.userOrder, s.nextId, worker, u);
      assert Recomputed(s, worker).users == s.users[worker := u];
    }
  }

  /** The recomputation reads only the current visible reviews, so a
      second run changes nothing. */
  lemma RecomputeIdempotent(s: State, worker: Id)
    ensures Recomputed(Recomputed(s, worker), worker) == Recomputed(s, worker)
  {
  }

  /** `updateWorkerRating`: one write of the recomputed average. */
  method UpdateWorkerRating(db: Database, worker: Id)
    requires ValidExcept(db.Snapshot(), worker)
    modifies db
    ensures db.Valid()
    ensures db.Snapshot() == Recomputed(old(db.Snapshot()), worker)
  {
    ghost var s := db.Snapshot();
    RecomputeRestoresInvariant(s, worker);
    if worker in db.users {
      var ratings := Rating.VisibleRatings(db.reviews, worker);
      var average := Rating.AverageRating(ratings);
      db.users := db.users[worker := db.users[worker].(averageRating := average)];
    }
    assert db.Snapshot() == Recomputed(s, worker);
  }

  /** The checks of `createReview`, in order. */
  function CreateReviewResponse(s: State, actor: SessionUser, bookingId: Id, rating: Option<int>): Response
  {
    if bookingId !in s.bookings then NotFound
    else if s.bookings[bookingId].clientId != actor.id then Forbidden
    else if s.bookings[bookingId].status != Completed then BadRequest
    else if HasReviewFor(s.reviews, bookingId) then BadRequest
    else if rating.None? || !RatingInRange(rating.value) then ServerError   // the save's validators
    else Ok
  }

  /** `createReview`: on success exactly one visible, unedited review is
      added for the booking's worker, whose average is then recomputed. */
  method CreateReview(db: Database, actor: SessionUser, bookingId: Id, rating: Option<int>, reviewText: Option<string>)
    returns (resp: Response)
    requires db.Valid()
    modifies db
    ensures db.Valid()
    ensures resp == CreateReviewResponse(old(db.Snapshot()), actor, bookingId, rating)
    ensures resp != Ok ==> db.Snapshot() == old(db.Snapshot())
    ensures resp == Ok ==>
      var worker := old(db.bookings)[bookingId].workerId;
      var review := NewReview(old(db.nextId), bookingId, actor.id, worker, rating.value,
                              if reviewText.Some? then reviewText.value else "");
      db.Snapshot() == Recomputed(old(db.Snapshot()).(reviews := old(db.reviews) + [review],
                                                      nextId := old(db.nextId) + 1), worker)
  {
    resp := CreateReviewResponse(db.Snapshot(), actor, bookingId, rating);
    if resp != Ok {
      return;
    }
    var booking := db.bookings[bookingId];
    var review := NewReview(db.nextId, bookingId, actor.id, booking.workerId, rating.value,
                            if reviewText.Some? then reviewText.value else "");
    SaveNewReview(db, review);
  }

  /** `review.save()` for a new review, then `updateWorkerRating`: the
      review joins the end of the collection under the next id, and its
      worker's average is recomputed. */
  method SaveNewReview(db: Database, r: Review)
    requires db.Valid()
    requires r.id == db.nextId && RatingInRange(r.rating)
    requires r.bookingId in db.bookings && !HasReviewFor(db.reviews, r.bookingId)
    requires db.bookings[r.bookingId].clientId == r.clientId && db.bookings[r.bookingId].workerId == r.workerId
    modifies db
    ensures db.Valid()
    ensures db.Snapshot() == Recomputed(old(db.Snapshot()).(reviews := old(db.reviews) + [r], nextId := old(db.nextId) + 1),
                                        r.workerId)
  {
    AppendReviewKeepsValid(db.Snapshot(), r);
    db.reviews := db.reviews + [r];
    db.nextId := db.nextId + 1;
    UpdateWorkerRating(db, r.workerId);
  }

  /** `Review.findOne({ bookingId })`. */
  method FindReviewFor(reviews: seq<Review>, bookingId: Id) returns (r: Option<nat>)
    ensures r.None? <==> !HasReviewFor(reviews, bookingId)
    ensures r.Some? ==> r.value < |reviews| && reviews[r.value].bookingId == bookingId
  {
    var i := 0;
    while i < |reviews|
      invariant 0 <= i <= |reviews|
      invariant forall j :: 0 <= j < i ==> reviews[j].bookingId != bookingId
    {
      if reviews[i].bookingId == bookingId {
        return Some(i);
      }
      i := i + 1;
    }
    return None;
  }

  /** `updateReview`: only the author may edit; the rating and the (trimmed,
      defaulted) text are replaced, the review marked edited, and the
      worker's average recomputed. An invalid rating fails the save. */
  method UpdateReview(db: Database, actor: SessionUser, id: Id, rating: Option<int>, reviewText: Option<string>)
    returns (resp: Response)
    requires db.Valid()
    modifies db
    ensures db.Valid()
    ensures resp == (if IndexOfId(old(db.reviews), id).None? then NotFound
                     else if old(db.reviews)[IndexOfId(old(db.reviews), id).value].clientId != actor.id then Forbidden
                     else if rating.None? || !RatingInRange(rating.value) then ServerError
                     else Ok)
    ensures resp != Ok ==> db.Snapshot() == old(db.Snapshot())
    ensures resp == Ok ==>
      var i := IndexOfId(old(db.reviews), id).value;
      var r := old(db.reviews)[i];
      var r' := r.(rating := rating.value, reviewText := Text.Trim(if reviewText.Some? then reviewText.value else ""),
                   isEdited := true);
      db.Snapshot() == Recomputed(old(db.Snapshot()).(reviews := old(db.reviews)[i := r']), r.workerId)
  {
    var found := IndexOfId(db.reviews, id);
    if found.None? {
      return NotFound;
    }
    var i := found.value;
    var review := db.reviews[i];
    if review.clientId != actor.id {
      return Forbidden;
    }
    if rating.None? || !RatingInRange(rating.value) {
      return ServerError;
    }
    review := review.(rating := rating.value);
    review := review.(reviewText := Text.Trim(if reviewText.Some? then reviewText.value else ""));
    review := review.(isEdited := true);
    ReplaceReviewKeepsValid(db.Snapshot(), i, review);
    db.reviews := db.reviews[i := review];
    UpdateWorkerRating(db, review.workerId);
    return Ok;
  }

  /** `deleteReview`: a soft delete by the author. The record stays, only
      hidden, and the worker's average is recomputed without it. */
  method DeleteReview(db: Database, actor: SessionUser, id: Id) returns (resp: Response)
    requires db.Valid()
    modifies db
    ensures db.Valid()
    ensures resp == (if IndexOfId(old(db.reviews), id).None? then NotFound
                     else if old(db.reviews)[IndexOfId(old(db.reviews), id).value].clientId != actor.id then Forbidden
                     else Ok)
    ensures |db.reviews| == |old(db.reviews)|
    ensures resp != Ok ==> db.Snapshot() == old(db.Snapshot())
    ensures resp == Ok ==>
      var i := IndexOfId(old(db.reviews), id).value;
      var r := old(db.reviews)[i];
      db.Snapshot() == Recomputed(old(db.Snapshot()).(reviews := old(db.reviews)[i := r.(isVisible := false)]), r.workerId)
  {
    var found := IndexOfId(db.reviews, id);
    if found.None? {
      return NotFound;
    }
    var i := found.value;
    var review := db.reviews[i];
    if review.clientId != actor.id {
      return Forbidden;
    }
    review := review.(isVisible := false);
    ReplaceReviewKeepsValid(db.Snapshot(), i, review);
    db.reviews := db.reviews[i := review];
    UpdateWorkerRating(db, review.workerId);
    return Ok;
  }

  /** `respondToReview`: only the reviewed worker may respond; the single
      response slot is overwritten and no rating changes. */
  method RespondToReview(db: Database, actor: SessionUser, id: Id, response: Option<string>, now: Time)
    returns (resp: Response)
    requires db.Valid()
    modifies db
    ensures db.Valid()
    ensures resp == (if IndexOfId(old(db.reviews), id).None? then NotFound
                     else if old(db.reviews)[IndexOfId(old(db.reviews), id).value].workerId != actor.id then Forbidden
                     else Ok)
    ensures db.users == old(db.users)
    ensures resp != Ok ==> db.Snapshot() == old(db.Snapshot())
    ensures resp == Ok ==>
      var i := IndexOfId(old(db.reviews), id).value;
      db.Snapshot() == old(db.Snapshot()).(reviews := old(db.reviews)[i :=
        old(db.reviews)[i].(workerResponse := Some(WorkerResponse(response, now)))])
  {
    var found := IndexOfId(db.reviews, id);
    if found.None? {
      return NotFound;
    }
    var i := found.value;
    var review := db.reviews[i];
    if review.workerId != actor.id {
      return Forbidden;
    }
    review := review.(workerResponse := Some(WorkerResponse(response, now)));
    ReplaceReviewKeepsRatings(db.Snapshot(), i, review);
    db.reviews := db.reviews[i := review];
    return Ok;
  }

  /** A new review for a reviewable booking keeps every invariant except
      the reviewed worker's average. */
  lemma AppendReviewKeepsValid(s: State, r: Review)
    requires ValidState(s)
    requires r.id == s.nextId && RatingInRange(r.rating)
    requires r.bookingId in s.bookings && !HasReviewFor(s.reviews, r.bookingId)
    requires s.bookings[r.bookingId].clientId == r.clientId && s.bookings[r.bookingId].workerId == r.workerId
    ensures ValidExcept(s.(reviews := s.reviews + [r], nextId := s.nextId + 1), r.workerId)
  {
    FreshIdKeepsValid(s);
    AppendKeepsRatings(s.users, s.reviews, r);
    AppendKeepsReviewsValid(s.reviews, s.bookings, s.nextId, r);
  }

  lemma AppendKeepsRatings(users: map<Id, User>, reviews: seq<Review>, r: Review)
    requires RatingsConsistent(users, reviews, None)
    ensures RatingsConsistent(users, reviews + [r], Some(r.workerId))
  {
    forall k | k in users && k != r.workerId
      ensures users[k].averageRating == Rating.AverageRating(Rating.VisibleRatings(reviews + [r], k))
    {
      var before := Rating.VisibleRatings(reviews, k);
      Rating.VisibleRatingsAppend(reviews, r, k);
      assert Rating.Contribution(r, k) == [];
      assert before + [] == before;
    }
  }

  lemma AppendKeepsReviewsValid(reviews: seq<Review>, bookings: map<Id, Booking>, nextId: nat, r: Review)
    requires ReviewsValid(reviews, bookings, nextId)
    requires r.id == nextId && RatingInRange(r.rating)
    requires r.bookingId in bookings && !HasReviewFor(reviews, r.bookingId)
    requires bookings[r.bookingId].clientId == r.clientId && bookings[r.bookingId].workerId == r.workerId
    ensures ReviewsValid(reviews + [r], bookings, nextId + 1)
  {
    var reviews' := reviews + [r];
    forall i | 0 <= i < |reviews'|
      ensures reviews'[i].id < nextId + 1 && RatingInRange(reviews'[i].rating) && reviews'[i].bookingId in bookings
      ensures bookings[reviews'[i].bookingId].clientId == reviews'[i].clientId
      ensures bookings[reviews'[i].bookingId].workerId == reviews'[i].workerId
    {
      if i < |reviews| {
        assert reviews'[i] == reviews[i];
      }
    }
    forall i, j | 0 <= i < j < |reviews'|
      ensures reviews'[i].id != reviews'[j].id && reviews'[i].bookingId != reviews'[j].bookingId
    {
      assert reviews'[i] == reviews[i];
      if j < |reviews| {
        assert reviews'[j] == reviews[j];
      }
    }
  }

  /** Replacing a review by one with the same id, booking, parties and a
      valid rating keeps every invariant except its worker's average. */
  lemma ReplaceReviewKeepsValid(s: State, i: nat, r: Review)
    requires ValidState(s) && i < |s.reviews|
    requires r.id == s.reviews[i].id && r.bookingId == s.reviews[i].bookingId
    requires r.clientId == s.reviews[i].clientId && r.workerId == s.reviews[i].workerId
    requires RatingInRange(r.rating)
    ensures ValidExcept(s.(reviews := s.reviews[i := r]), r.workerId)
  {
    forall k | k in s.users && k != r.workerId
      ensures s.users[k].averageRating == Rating.AverageRating(Rating.VisibleRatings(s.reviews[i := r], k))
    {
      Rating.VisibleRatingsUpdate(s.reviews, i, r, k);
    }
  }

  /** ... and all of them when its rating and visibility are kept too. */
  lemma ReplaceReviewKeepsRatings(s: State, i: nat, r: Review)
    requires ValidState(s) && i < |s.reviews|
    requires r.id == s.reviews[i].id && r.bookingId == s.reviews[i].bookingId
    requires r.clientId == s.reviews[i].clientId && r.workerId == s.reviews[i].workerId
    requires r.rating == s.reviews[i].rating && r.isVisible == s.reviews[i].isVisible
    ensures ValidState(s.(reviews := s.reviews[i := r]))
  {
    forall k | k in s.users
      ensures s.users[k].averageRating == Rating.AverageRating(Rating.VisibleRatings(s.reviews[i := r], k))
    {
      Rating.VisibleRatingsUpdate(s.reviews, i, r, k);
    }
  }

  /** A review that is its worker's only visible one determines the average:
      after it is edited to rating r the worker's average is exactly r. */
  lemma {:induction false} SoleReviewDeterminesAverage(reviews: seq<Review>, i: nat, worker: Id)
    requires i < |reviews| && reviews[i].workerId == worker && reviews[i].isVisible
    requires RatingInRange(reviews[i].rating)
    requires forall j :: 0 <= j < |reviews| && j != i ==> Rating.Contribution(reviews[j], worker) == []
    ensures Rating.AverageRating(Rating.VisibleRatings(reviews, worker)) == 100 * reviews[i].rating
  {
    SoleContribution(reviews, i, worker);
    Rating.SingleRating(reviews[i].rating);
  }

  lemma {:induction false} SoleContribution(reviews: seq<Review>, i: nat, worker: Id)
    requires i < |reviews|
    requires forall j :: 0 <= j < |reviews| && j != i ==> Rating.Contribution(reviews[j], worker) == []
    ensures Rating.VisibleRatings(reviews, worker) == Rating.Contribution(reviews[i], worker)
  {
    var last := |reviews| - 1;
    var prefix := reviews[..last];
    assert Rating.VisibleRatings(reviews, worker)
        == Rating.VisibleRatings(prefix, worker) + Rating.Contribution(reviews[last], worker);
    if i < last {
      assert Rating.Contribution(reviews[last], worker) == [];
      forall j | 0 <= j < |prefix| && j != i
        ensures Rating.Contribution(prefix[j], worker) == []
      {
        assert prefix[j] == reviews[j];
      }
      SoleContribution(prefix, i, worker);
    } else {
      forall j | 0 <= j < |prefix|
        ensures Rating.Contribution(prefix[j], worker) == []
      {
        assert prefix[j] == reviews[j];
      }
      NoContribution(prefix, worker);
    }
  }

  lemma {:induction false} NoContribution(reviews: seq<Review>, worker: Id)
    requires forall j :: 0 <= j < |reviews| ==> Rating.Contribution(reviews[j], worker) == []
    ensures Rating.VisibleRatings(reviews, worker) == []
  {
    if reviews != [] {
      NoContribution(reviews[..|reviews| - 1], worker);
    }
  }

  /** The five-to-three example: a worker's only review edited from 5 to 3
      leaves the worker with an average of 3.00. */
  lemma EditedSoleReview(reviews: seq<Review>, i: nat, worker: Id)
    requires i < |reviews| && reviews[i].workerId == worker && reviews[i].isVisible && reviews[i].rating == 5
    requires forall j :: 0 <= j < |reviews| && j != i ==> Rating.Contribution(reviews[j], worker) == []
    ensures Rating.AverageRating(Rating.VisibleRatings(reviews, worker)) == 500
    ensures Rating.AverageRating(Rating.VisibleRatings(reviews[i := reviews[i].(rating := 3, isEdited := true)], worker)) == 300
  {
    SoleReviewDeterminesAverage(reviews, i, worker);
    var edited := reviews[i := reviews[i].(rating := 3, isEdited := true)];
    SoleReviewDeterminesAverage(edited, i, worker);
  }
}
