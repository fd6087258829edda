/** The review record of models/Review.js. */
module ReviewModel {
  import opened Common
  import Text
  import Seqs

  /** The single response slot a worker may fill (and overwrite). */
  datatype WorkerResponse = WorkerResponse(text: Option<string>, respondedAt: Time)

  datatype Review = Review(
    id: Id,
    bookingId: Id,
    clientId: Id,
    workerId: Id,
    rating: int,
    reviewText: string,
    workerResponse: Option<WorkerResponse>,
    isVisible: bool,
    isEdited: bool)

  /** The schema's `min: 1, max: 5` validators on `rating`. */
  predicate RatingInRange(rating: int)
  {
    1 <= rating <= 5
  }

  /** A review as the schema creates it: text trimmed, visible, not edited, no response. */
  function NewReview(id: Id, bookingId: Id, clientId: Id, workerId: Id, rating: int, text: string): (r: Review)
    ensures r.id == id && r.bookingId == bookingId && r.clientId == clientId && r.workerId == workerId
    ensures r.rating == rating && r.reviewText == Text.Trim(text)
    ensures r.isVisible && !r.isEdited && r.workerResponse.None?
  {
    Review(id, bookingId, clientId, workerId, rating, Text.Trim(text), None, true, false)
  }

  /** The position of the review with this id: `Review.findById`. */
  function IndexOfId(reviews: seq<Review>, id: Id): Option<nat>
  {
    Seqs.FirstIndex(reviews, (r: Review) => r.id == id)
  }

  /** Whether some review was written for the booking: `Review.findOne({ bookingId })`. */
  predicate HasReviewFor(reviews: seq<Review>, bookingId: Id)
  {
    exists j :: 0 <= j < |reviews| && reviews[j].bookingId == bookingId
  }
}
