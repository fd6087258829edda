/** The booking handlers of controllers/bookingController.js. Each loads a
    booking, runs its guard checks in order and changes a few fields. */
module BookingController {
  import opened Common
  import opened Constants
  import opened UserModel
  import opened BookingModel
  import opened Store
  import opened Guards
  import Text

  /** The party check shared by updateStatus, viewBooking and cancelBooking:
      a worker or client acting on someone else's booking. Other roles pass. */
  predicate NotParty(actor: SessionUser, b: Booking)
  {
    (actor.role == Worker && b.workerId != actor.id) || (actor.role == Client && b.clientId != actor.id)
  }

  /** The worker a booking may be requested from: a stored, active worker. */
  predicate BookableWorker(users: map<Id, User>, workerId: Id)
  {
    workerId in users && users[workerId].role == Worker && users[workerId].isActive
  }

  /** The `budget` field as the request carries it: a JSON number, or the
      form's string together with the amount `parseFloat` reads from it. */
  datatype BudgetField = NumberField(cents: Cents) | TextField(text: string, cents: Cents)

  /** `!budget` is false for a non-zero number and for every non-empty
      string, "0" included. */
  predicate BudgetTruthy(b: BudgetField)
  {
    match b
    case NumberField(c) => c != 0
    case TextField(t, _) => t != ""
  }

  /** The handler's own required-field test, `!field` on each of them. */
  predicate RequiredFieldsPresent(category: Option<string>, description: Option<string>,
                                  date: Option<Time>, time: Option<string>, budget: Option<BudgetField>)
  {
    Truthy(category) && Truthy(description) && date.Some? && Truthy(time) && budget.Some? && BudgetTruthy(budget.value)
  }

  /** A zero budget typed into the booking form arrives as the string "0"
      and passes the test; the same zero sent as a JSON number does not. */
  lemma ZeroBudgetPassesAsText(category: string, description: string, date: Time, time: string)
    requires category != "" && description != "" && time != ""
    ensures RequiredFieldsPresent(Some(category), Some(description), Some(date), Some(time), Some(TextField("0", 0)))
    ensures !RequiredFieldsPresent(Some(category), Some(description), Some(date), Some(time), Some(NumberField(0)))
  {
  }

  /** Five astral characters (each a surrogate pair, such as an emoji) make
      a description of length 10 for the handler, though only five
      characters for the validator. */
  lemma AstralDescriptionIsLongEnough()
    ensures var d := "\U{1F600}\U{1F600}\U{1F600}\U{1F600}\U{1F600}";
      |d| == 5 && Text.Utf16Length(d) == 10
  {
    var d := "\U{1F600}\U{1F600}\U{1F600}\U{1F600}\U{1F600}";
    assert forall i :: 0 <= i < |d| ==> Text.IsAstral(d[i]);
  }

  /** `createBooking`: worker check first (404), then the field checks (400);
      on success one pending booking from the acting user is stored.
      `description` is the value after the validator's `trim()` sanitiser,
      which rewrites the request body before the handler runs; its length
      test counts UTF-16 code units. */
  method CreateBooking(db: Database, actor: SessionUser, workerId: Id,
                       category: Option<string>, description: Option<string>,
                       date: Option<Time>, time: Option<string>, budget: Option<BudgetField>,
                       location: Location) returns (resp: Response, id: Option<Id>)
    requires db.Valid()
    modifies db
    ensures db.Valid()
    ensures !BookableWorker(old(db.users), workerId) ==> resp == NotFound
    ensures BookableWorker(old(db.users), workerId) ==>
              if !RequiredFieldsPresent(category, description, date, time, budget) then resp == BadRequest
              else (resp == Ok <==> Text.Utf16Length(description.value) >= 10) && (resp != Ok ==> resp == BadRequest)
    ensures resp != Ok ==> id.None? && db.Snapshot() == old(db.Snapshot())
    ensures resp == Ok ==>
      && id == Some(old(db.nextId))
      && db.Snapshot() == old(db.Snapshot()).(
           bookings := old(db.bookings)[id.value := NewBooking(actor.id, workerId, category.value,
                          description.value, date.value, time.value, budget.value.cents, location)],
           nextId := old(db.nextId) + 1)
  {
    if !(workerId in db.users && db.users[workerId].role == Worker && db.users[workerId].isActive) {
      return NotFound, None;
    }
    if !Truthy(category) || !Truthy(description) || date.None? || !Truthy(time) || budget.None? || !BudgetTruthy(budget.value) {
      return BadRequest, None;
    }
    if Text.Utf16Length(description.value) < 10 {
      return BadRequest, None;
    }
    var booking := NewBooking(actor.id, workerId, category.value, description.value,
                              date.value, time.value, budget.value.cents, location);
    var bid := db.InsertBooking(booking);
    return Ok, Some(bid);
  }

  /** Shared shape of accept and reject: the booking must be the acting
      worker's (404 otherwise) and still pending (400 otherwise). */
  function WorkerDecisionResponse(bookings: map<Id, Booking>, actor: SessionUser, id: Id): Response
  {
    if id !in bookings || bookings[id].workerId != actor.id then NotFound
    else if bookings[id].status != Pending then BadRequest
    else Ok
  }

  /** `acceptBooking`: only status and acceptedAt change. */
  method AcceptBooking(db: Database, actor: SessionUser, id: Id, now: Time) returns (resp: Response)
    requires db.Valid()
    modifies db
    ensures db.Valid()
    ensures resp == WorkerDecisionResponse(old(db.bookings), actor, id)
    ensures resp == Ok ==> db.Snapshot() == old(db.Snapshot()).(bookings :=
              old(db.bookings)[id := old(db.bookings)[id].(status := Accepted, acceptedAt := Some(now))])
    ensures resp == Ok ==> LegalTransition(old(db.bookings)[id].status, db.bookings[id].status)
    ensures resp != Ok ==> db.Snapshot() == old(db.Snapshot())
  {
    if id !in db.bookings || db.bookings[id].workerId != actor.id {
      return NotFound;
    }
    var booking := db.bookings[id];
    if booking.status != Pending {
      return BadRequest;
    }
    booking := booking.(status := Accepted);
    booking := booking.(acceptedAt := Some(now));
    UpdateBookingKeepsValid(db.Snapshot(), id, booking);
    db.bookings := db.bookings[id := booking];
    return Ok;
  }

  /** `rejectBooking`: same checks as accept; records the reason and the time. */
  method RejectBooking(db: Database, actor: SessionUser, id: Id, reason: Option<string>, now: Time)
    returns (resp: Response)
    requires db.Valid()
    modifies db
    ensures db.Valid()
    ensures resp == WorkerDecisionResponse(old(db.bookings), actor, id)
    ensures resp == Ok ==> db.Snapshot() == old(db.Snapshot()).(bookings :=
              old(db.bookings)[id := old(db.bookings)[id].(status := Rejected, cancelledAt := Some(now),
                                                           cancellationReason := reason)])
    ensures resp == Ok ==> LegalTransition(old(db.bookings)[id].status, db.bookings[id].status)
    ensures resp != Ok ==> db.Snapshot() == old(db.Snapshot())
  {
    if id !in db.bookings || db.bookings[id].workerId != actor.id {
      return NotFound;
    }
    var booking := db.bookings[id];
    if booking.status != Pending {
      return BadRequest;
    }
    booking := booking.(status := Rejected);
    booking := booking.(cancelledAt := Some(now));
    booking := booking.(cancellationReason := reason);
    UpdateBookingKeepsValid(db.Snapshot(), id, booking);
    db.bookings := db.bookings[id := booking];
    return Ok;
  }

  /** The fields `updateStatus` writes: the new status whatever the old one,
      the notes into the actor's own slot, completedAt when completing. */
  function StatusUpdate(b: Booking, role: Role, status: BookingStatus, notes: Option<string>, now: Time): (r: Booking)
    ensures r.status == status
    ensures r.completedAt == (if status == Completed then Some(now) else b.completedAt)
    ensures Truthy(notes) && role == Worker ==> r.workerNotes == notes && r.clientNotes == b.clientNotes
    ensures Truthy(notes) && role != Worker ==> r.clientNotes == notes && r.workerNotes == b.workerNotes
    ensures !Truthy(notes) ==> r.workerNotes == b.workerNotes && r.clientNotes == b.clientNotes
    ensures r.clientId == b.clientId && r.workerId == b.workerId && r.budget == b.budget
    ensures r.finalAmount == b.finalAmount && r.acceptedAt == b.acceptedAt && r.cancelledAt == b.cancelledAt
  {
    var b1 := b.(status := status);
    var b2 := if !Truthy(notes) then b1
              else if role == Worker then b1.(workerNotes := notes)
              else b1.(clientNotes := notes);
    if status == Completed then b2.(completedAt := Some(now)) else b2
  }

  /** The status a booking holds after `updateStatus` saves the requested
      one: a listed name is stored as given; an absent status sets the field
      to undefined, which the enumeration lets through, the save unsets, and
      the schema default reads back as pending; any other string fails the
      enumeration (None). */
  function SavedStatus(status: Option<string>): Option<BookingStatus>
  {
    if status.None? then Some(Pending) else BookingStatusOf(status.value)
  }

  /** `updateStatus`: 404, then the party check (403). A status outside the
      enumeration fails the save (500) and nothing changes; any listed or
      absent status is written without consulting the lifecycle. */
  method UpdateStatus(db: Database, actor: SessionUser, id: Id, status: Option<string>, notes: Option<string>, now: Time)
    returns (resp: Response)
    requires db.Valid()
    modifies db
    ensures db.Valid()
    ensures id !in old(db.bookings) ==> resp == NotFound
    ensures id in old(db.bookings) && NotParty(actor, old(db.bookings)[id]) ==> resp == Forbidden
    ensures id in old(db.bookings) && !NotParty(actor, old(db.bookings)[id]) ==>
              (resp == Ok <==> status.None? || BookingStatusOf(status.value).Some?) && (resp != Ok ==> resp == ServerError)
    ensures resp == Ok ==> db.Snapshot() == old(db.Snapshot()).(bookings := old(db.bookings)[id :=
              StatusUpdate(old(db.bookings)[id], actor.role, SavedStatus(status).value, notes, now)])
    ensures resp == Ok && status.None? ==> db.bookings[id].status == Pending && db.bookings[id].completedAt == old(db.bookings)[id].completedAt
    ensures resp != Ok ==> db.Snapshot() == old(db.Snapshot())
  {
    if id !in db.bookings {
      return NotFound;
    }
    var booking := db.bookings[id];
    if actor.role == Worker && booking.workerId != actor.id {
      return Forbidden;
    }
    if actor.role == Client && booking.clientId != actor.id {
      return Forbidden;
    }
    var parsed := SavedStatus(status);
    if parsed.None? {
      return ServerError;
    }
    booking := booking.(status := parsed.value);
    if Truthy(notes) {
      if actor.role == Worker {
        booking := booking.(workerNotes := notes);
      } else {
        booking := booking.(clientNotes := notes);
      }
    }
    if parsed.value == Completed {
      booking := booking.(completedAt := Some(now));
    }
    UpdateBookingKeepsValid(db.Snapshot(), id, booking);
    db.bookings := db.bookings[id := booking];
    return Ok;
  }

  /** `viewBooking`'s access check. The party is looked up through the
      populated reference, so a dangling one answers 500. */
  method ViewBooking(db: Database, actor: SessionUser, id: Id) returns (resp: Response)
    ensures id !in db.bookings ==> resp == NotFound
    ensures id in db.bookings && actor.role == Client ==>
      resp == (if db.bookings[id].clientId !in db.users then ServerError
               else if db.bookings[id].clientId != actor.id then Forbidden else Ok)
    ensures id in db.bookings && actor.role == Worker ==>
      resp == (if db.bookings[id].workerId !in db.users then ServerError
               else if db.bookings[id].workerId != actor.id then Forbidden else Ok)
    ensures id in db.bookings && actor.role == Admin ==> resp == Ok
  {
    if id !in db.bookings {
      return NotFound;
    }
    var booking := db.bookings[id];
    if actor.role == Client {
      if booking.clientId !in db.users {
        return ServerError;
      }
      if booking.clientId != actor.id {
        return Forbidden;
      }
    }
    if actor.role == Worker {
      if booking.workerId !in db.users {
        return ServerError;
      }
      if booking.workerId != actor.id {
        return Forbidden;
      }
    }
    return Ok;
  }

  /** `cancelBooking`: 404, the party check (403), then only a pending or
      accepted booking may be cancelled (400). */
  method CancelBooking(db: Database, actor: SessionUser, id: Id, reason: Option<string>, now: Time)
    returns (resp: Response)
    requires db.Valid()
    modifies db
    ensures db.Valid()
    ensures resp == (if id !in old(db.bookings) then NotFound
                     else if NotParty(actor, old(db.bookings)[id]) then Forbidden
                     else if old(db.bookings)[id].status !in {Pending, Accepted} then BadRequest
                     else Ok)
    ensures resp == Ok ==> db.Snapshot() == old(db.Snapshot()).(bookings :=
              old(db.bookings)[id := old(db.bookings)[id].(status := Cancelled, cancelledAt := Some(now),
                                                           cancellationReason := reason)])
    ensures resp == Ok ==> LegalTransition(old(db.bookings)[id].status, db.bookings[id].status)
    ensures resp != Ok ==> db.Snapshot() == old(db.Snapshot())
  {
    if id !in db.bookings {
      return NotFound;
    }
    var booking := db.bookings[id];
    if actor.role == Client && booking.clientId != actor.id {
      return Forbidden;
    }
    if actor.role == Worker && booking.workerId != actor.id {
      return Forbidden;
    }
    if booking.status != Pending && booking.status != Accepted {
      return BadRequest;
    }
    booking := booking.(status := Cancelled);
    booking := booking.(cancelledAt := Some(now));
    booking := booking.(cancellationReason := reason);
    UpdateBookingKeepsValid(db.Snapshot(), id, booking);
    db.bookings := db.bookings[id := booking];
    return Ok;
  }

  /** `updateStatus` does not follow the lifecycle: it moves a completed
      booking back to pending, a move the lifecycle forbids. */
  lemma UpdateStatusIgnoresLifecycle(b: Booking, role: Role, notes: Option<string>, now: Time)
    requires b.status == Completed
    ensures !LegalTransition(b.status, StatusUpdate(b, role, Pending, notes, now).status)
  {
  }
}
