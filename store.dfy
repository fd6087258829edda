/** The four collections the engine reads and writes, held by one object. */
module Store {
  import opened Common
  import opened UserModel
  import opened BookingModel
  import opened PaymentModel
  import opened ReviewModel
  import Money
  import Rating

  /** A snapshot of every collection, for stating what an operation changes. */
  datatype State = State(
    users: map<Id, User>,
    userOrder: seq<Id>,         // natural (insertion) order of the user collection
    bookings: map<Id, Booking>,
    payments: seq<Payment>,     // insertion order: `findOne` yields the first match
    reviews: seq<Review>,
    nextId: nat)                // every id in use is below it

  ghost predicate UsersValid(users: map<Id, User>, order: seq<Id>, nextId: nat)
  {
    && (forall id :: id in users ==> users[id].id == id && id < nextId)
    && (forall i :: 0 <= i < |order| ==> order[i] in users)
    && (forall id :: id in users ==> id in order)
    && (forall i, j :: 0 <= i < j < |order| ==> order[i] != order[j])
    // the `unique` index on the normalized email
    && (forall a, b :: a in users && b in users && users[a].email == users[b].email ==> a == b)
  }

  ghost predicate BookingsValid(bookings: map<Id, Booking>, nextId: nat)
  {
    forall id :: id in bookings ==> id < nextId && bookings[id].workerId < nextId
  }

  /** Every review names an existing booking and that booking's two parties,
      carries a rating the schema accepts, and no booking has two reviews. */
  ghost predicate ReviewsValid(reviews: seq<Review>, bookings: map<Id, Booking>, nextId: nat)
  {
    && (forall i :: 0 <= i < |reviews| ==>
          && reviews[i].id < nextId
          && RatingInRange(reviews[i].rating)
          && reviews[i].bookingId in bookings
          && bookings[reviews[i].bookingId].clientId == reviews[i].clientId
          && bookings[reviews[i].bookingId].workerId == reviews[i].workerId)
    && (forall i, j :: 0 <= i < j < |reviews| ==> reviews[i].id != reviews[j].id)
    && (forall i, j :: 0 <= i < j < |reviews| ==> reviews[i].bookingId != reviews[j].bookingId)
  }

  /** Every payment carries the commission split of its amount, and ids
      and transaction ids are unique. */
  ghost predicate PaymentsValid(payments: seq<Payment>, nextId: nat)
  {
    && (forall i :: 0 <= i < |payments| ==>
          && payments[i].id < nextId
          && payments[i].commission == Money.Commission(payments[i].amount)
          && payments[i].workerPayout == Money.Payout(payments[i].amount))
    && (forall i, j :: 0 <= i < j < |payments| ==> payments[i].id != payments[j].id)
    && (forall i, j :: 0 <= i < j < |payments| ==> payments[i].transactionId != payments[j].transactionId)
  }

  /** The derived-state invariant: each user's stored average is the one
      recomputed from the visible reviews (`skip` excepted). */
  ghost predicate RatingsConsistent(users: map<Id, User>, reviews: seq<Review>, skip: Option<Id>)
  {
    forall id :: id in users && skip != Some(id) ==>
      users[id].averageRating == Rating.AverageRating(Rating.VisibleRatings(reviews, id))
  }

  ghost predicate ValidState(s: State)
  {
    && UsersValid(s.users, s.userOrder, s.nextId)
    && BookingsValid(s.bookings, s.nextId)
    && ReviewsValid(s.reviews, s.bookings, s.nextId)
    && PaymentsValid(s.payments, s.nextId)
    && RatingsConsistent(s.users, s.reviews, None)
  }

  /** Every invariant, except that one worker's average may be stale:
      the state between a review write and the recomputation it triggers. */
  ghost predicate ValidExcept(s: State, worker: Id)
  {
    && UsersValid(s.users, s.userOrder, s.nextId)
    && BookingsValid(s.bookings, s.nextId)
    && ReviewsValid(s.reviews, s.bookings, s.nextId)
    && PaymentsValid(s.payments, s.nextId)
    && RatingsConsistent(s.users, s.reviews, Some(worker))
  }

  class Database {
    var users: map<Id, User>
    var userOrder: seq<Id>
    var bookings: map<Id, Booking>
    var payments: seq<Payment>
    var reviews: seq<Review>
    var nextId: nat

    function Snapshot(): (s: State)
      reads this
      ensures s.users == users && s.bookings == bookings && s.payments == payments && s.reviews == reviews
    {
      State(users, userOrder, bookings, payments, reviews, nextId)
    }

    ghost predicate Valid()
      reads this
    {
      ValidState(Snapshot())
    }

    /** An empty store. */
    constructor ()
      ensures Valid()
      ensures users == map[] && userOrder == [] && bookings == map[]
      ensures payments == [] && reviews == [] && nextId == 0
    {
      users, userOrder, bookings := map[], [], map[];
      payments, reviews, nextId := [], [], 0;
    }

    /** A fresh id, standing for a newly generated ObjectId. */
    method NewId() returns (id: Id)
      modifies this
      ensures id == old(nextId) && nextId == old(nextId) + 1
      ensures users == old(users) && userOrder == old(userOrder) && bookings == old(bookings)
      ensures payments == old(payments) && reviews == old(reviews)
    {
      id := nextId;
      nextId := nextId + 1;
    }

    /** Stores a new booking under the next id. */
    method InsertBooking(b: Booking) returns (id: Id)
      requires Valid() && b.workerId < nextId
      modifies this
      ensures Valid() && id == old(nextId)
      ensures Snapshot() == old(Snapshot()).(bookings := old(bookings)[id := b], nextId := old(nextId) + 1)
    {
      InsertBookingKeepsValid(Snapshot(), b);
      id := nextId;
      bookings := bookings[id := b];
      nextId := nextId + 1;
    }

    /** Writes back a stored user changed in place (`save`, `updateOne`),
        its id, email and average untouched. */
    method SaveUser(u: User)
      requires Valid() && u.id in users
      requires u.email == users[u.id].email && u.averageRating == users[u.id].averageRating
      modifies this
      ensures Valid()
      ensures Snapshot() == old(Snapshot()).(users := old(users)[u.id := u])
    {
      UpdateUserKeepsValid(Snapshot(), u.id, u);
      users := users[u.id := u];
    }

    /** Stores a new user (`save` of a fresh document) under the next id,
        at the end of the natural order. */
    method InsertUser(u: User)
      requires Valid() && u.id == nextId && u.averageRating == 0
      requires forall id :: id in users ==> users[id].email != u.email
      modifies this
      ensures Valid()
      ensures Snapshot() == WithUser(old(Snapshot()), u)
    {
      InsertUserKeepsValid(Snapshot(), u);
      users := users[u.id := u];
      userOrder := userOrder + [u.id];
      nextId := nextId + 1;
    }
  }

  /** The stored average of every user lies within the schema's [0, 5]. */
  lemma AverageRatingsInRange(s: State, id: Id)
    requires ValidState(s) && id in s.users
    ensures 0 <= s.users[id].averageRating <= 500
  {
    Rating.AverageInRange(Rating.VisibleRatings(s.reviews, id));
  }

  /** A worker nobody has reviewed has no visible ratings. */
  lemma {:induction false} NoReviewsNoRatings(reviews: seq<Review>, worker: Id)
    requires forall i :: 0 <= i < |reviews| ==> reviews[i].workerId != worker
    ensures Rating.VisibleRatings(reviews, worker) == []
  {
    if reviews != [] {
      NoReviewsNoRatings(reviews[..|reviews| - 1], worker);
    }
  }

  /** Changing a stored user in place, keeping its id and email, keeps the
      user invariants. */
  lemma UpdateUserKeepsUsersValid(users: map<Id, User>, order: seq<Id>, nextId: nat, id: Id, u: User)
    requires UsersValid(users, order, nextId) && id in users
    requires u.id == id && u.email == users[id].email
    ensures UsersValid(users[id := u], order, nextId)
  {
    var users' := users[id := u];
    forall a, b | a in users' && b in users' && users'[a].email == users'[b].email
      ensures a == b
    {
      assert users'[a].email == users[a].email && users'[b].email == users[b].email;
    }
  }

  /** ... and, when the average is kept too, the derived-state invariant. */
  lemma UpdateUserKeepsRatings(users: map<Id, User>, reviews: seq<Review>, skip: Option<Id>, id: Id, u: User)
    requires RatingsConsistent(users, reviews, skip) && id in users
    requires u.averageRating == users[id].averageRating
    ensures RatingsConsistent(users[id := u], reviews, skip)
  {
  }

  /** Handing out a fresh id keeps every invariant about ids in use. */
  lemma FreshIdKeepsValid(s: State)
    requires ValidState(s)
    ensures ValidState(s.(nextId := s.nextId + 1))
  {
  }

  /** The store with a new user added under the next id, at the end of the order. */
  function WithUser(s: State, u: User): (s': State)
    ensures s'.users == s.users[u.id := u] && s'.userOrder == s.userOrder + [u.id] && s'.nextId == s.nextId + 1
    ensures s'.bookings == s.bookings && s'.payments == s.payments && s'.reviews == s.reviews
  {
    s.(users := s.users[u.id := u], userOrder := s.userOrder + [u.id], nextId := s.nextId + 1)
  }

  /** Registering a user under a fresh id, with an email nobody has and
      the default average 0, keeps every invariant: no review can name the
      new id, so its recomputed average is 0 too. */
  lemma InsertUserKeepsValid(s: State, u: User)
    requires ValidState(s) && u.id == s.nextId && u.averageRating == 0
    requires forall id :: id in s.users ==> s.users[id].email != u.email
    ensures ValidState(WithUser(s, u))
  {
    InsertUserKeepsUsersValid(s.users, s.userOrder, s.nextId, u);
    InsertUserKeepsRatings(s, u);
  }

  lemma InsertUserKeepsUsersValid(users: map<Id, User>, order: seq<Id>, nextId: nat, u: User)
    requires UsersValid(users, order, nextId) && u.id == nextId
    requires forall id :: id in users ==> users[id].email != u.email
    ensures UsersValid(users[u.id := u], order + [u.id], nextId + 1)
  {
    var users', order' := users[u.id := u], order + [u.id];
    forall i | 0 <= i < |order'| ensures order'[i] in users' {
      if i < |order| {
        assert order'[i] == order[i];
      }
    }
    forall id | id in users' ensures id in order' {
      if id != u.id {
        var k :| 0 <= k < |order| && order[k] == id;
        assert order'[k] == id;
      } else {
        assert order'[|order|] == id;
      }
    }
    forall i, j | 0 <= i < j < |order'| ensures order'[i] != order'[j] {
      assert order'[i] == order[i];
      if j < |order| {
        assert order'[j] == order[j];
      }
    }
  }

  lemma InsertUserKeepsRatings(s: State, u: User)
    requires ReviewsValid(s.reviews, s.bookings, s.nextId) && BookingsValid(s.bookings, s.nextId)
    requires RatingsConsistent(s.users, s.reviews, None)
    requires u.id == s.nextId && u.averageRating == 0
    ensures RatingsConsistent(s.users[u.id := u], s.reviews, None)
  {
    forall i | 0 <= i < |s.reviews| ensures s.reviews[i].workerId != u.id {
      assert s.reviews[i].bookingId in s.bookings;
    }
    NoReviewsNoRatings(s.reviews, u.id);
  }

  /** A stored booking whose parties stay the same keeps every invariant. */
  lemma UpdateBookingKeepsValid(s: State, id: Id, b: Booking)
    requires ValidState(s) && id in s.bookings
    requires b.clientId == s.bookings[id].clientId && b.workerId == s.bookings[id].workerId
    ensures ValidState(s.(bookings := s.bookings[id := b]))
  {
    var s' := s.(bookings := s.bookings[id := b]);
    assert ReviewsValid(s'.reviews, s'.bookings, s'.nextId) by {
      forall i | 0 <= i < |s'.reviews|
        ensures s'.bookings[s'.reviews[i].bookingId].clientId == s'.reviews[i].clientId
        ensures s'.bookings[s'.reviews[i].bookingId].workerId == s'.reviews[i].workerId
      {
        assert s.reviews[i].bookingId in s.bookings;
      }
    }
  }

  /** A new booking under a fresh id, for a worker with an id in use, keeps every invariant. */
  lemma InsertBookingKeepsValid(s: State, b: Booking)
    requires ValidState(s) && b.workerId < s.nextId
    ensures ValidState(s.(bookings := s.bookings[s.nextId := b], nextId := s.nextId + 1))
  {
    var s' := s.(bookings := s.bookings[s.nextId := b], nextId := s.nextId + 1);
    assert ReviewsValid(s'.reviews, s'.bookings, s'.nextId) by {
      forall i | 0 <= i < |s'.reviews|
        ensures s'.reviews[i].bookingId != s.nextId
      {
        assert s.reviews[i].bookingId in s.bookings;
      }
    }
  }

  /** Changing a stored user in place, keeping its id, email and average,
      keeps every invariant. */
  lemma UpdateUserKeepsValid(s: State, id: Id, u: User)
    requires ValidState(s) && id in s.users
    requires u.id == id && u.email == s.users[id].email && u.averageRating == s.users[id].averageRating
    ensures ValidState(s.(users := s.users[id := u]))
  {
    UpdateUserKeepsUsersValid(s.users, s.userOrder, s.nextId, id, u);
    UpdateUserKeepsRatings(s.users, s.reviews, None, id, u);
  }

  /** Changing a stored payment in place, keeping its id, transaction id
      and split, keeps every invariant. */
  lemma UpdatePaymentKeepsValid(s: State, i: nat, p: Payment)
    requires ValidState(s) && i < |s.payments|
    requires p.id == s.payments[i].id && p.transactionId == s.payments[i].transactionId
    requires p.amount == s.payments[i].amount && p.commission == s.payments[i].commission
    requires p.workerPayout == s.payments[i].workerPayout
    ensures ValidState(s.(payments := s.payments[i := p]))
  {
    var ps := s.payments[i := p];
    forall j, k | 0 <= j < k < |ps|
      ensures ps[j].id != ps[k].id && ps[j].transactionId != ps[k].transactionId
    {
    }
  }
}
