/** The payment handlers of controllers/paymentController.js: settling a
    completed booking, and the access checks on a payment's pages. */
module PaymentController {
  import opened Common
  import opened Constants
  import opened BookingModel
  import opened PaymentModel
  import opened Store
  import opened Guards
  import Text
  import Money
  import PaymentService

  /** `booking.finalAmount || booking.budget`: a zero final amount falls back to the budget. */
  function SettledAmount(b: Booking): (amount: Cents)
    ensures b.finalAmount != 0 ==> amount == b.finalAmount
    ensures b.finalAmount == 0 ==> amount == b.budget
  {
    if b.finalAmount != 0 then b.finalAmount else b.budget
  }

  /** `Payment.findOne({ bookingId })` found a completed payment: only the
      first payment recorded for the booking is looked at. */
  predicate AlreadySettled(payments: seq<Payment>, bookingId: Id)
  {
    var k := IndexOfBooking(payments, bookingId);
    k.Some? && payments[k.value].status == PaymentCompleted
  }

  /** The guard sequence of `processPayment`, in order: 404 for a missing
      booking; 500 when the populated client is gone (`clientId._id` of
      null); 403 for anyone but the booking's client; 400 unless the
      booking is completed; 400 when already settled; 500 when the
      populated worker is gone. None: every guard passed. */
  function ProcessGuard(s: State, actor: SessionUser, bookingId: Id): (r: Option<Response>)
    ensures r.None? <==>
      && bookingId in s.bookings
      && s.bookings[bookingId].clientId in s.users
      && s.bookings[bookingId].clientId == actor.id
      && s.bookings[bookingId].status == Completed
      && !AlreadySettled(s.payments, bookingId)
      && s.bookings[bookingId].workerId in s.users
    ensures r == Some(Forbidden) ==> bookingId in s.bookings && s.bookings[bookingId].clientId != actor.id
    ensures r == Some(NotFound) <==> bookingId !in s.bookings
  {
    if bookingId !in s.bookings then Some(NotFound)
    else
      var b := s.bookings[bookingId];
      if b.clientId !in s.users then Some(ServerError)
      else if b.clientId != actor.id then Some(Forbidden)
      else if b.status != Completed then Some(BadRequest)
      else if AlreadySettled(s.payments, bookingId) then Some(BadRequest)
      else if b.workerId !in s.users then Some(ServerError)
      else None
  }

  /** The payment `createPayment` records for a booking that passed the guards. */
  function NewPayment(s: State, actor: SessionUser, bookingId: Id, payMethod: string, txn: string, now: Time): (p: Payment)
    requires bookingId in s.bookings
    ensures p.id == s.nextId && p.bookingId == bookingId && p.clientId == actor.id
    ensures p.workerId == s.bookings[bookingId].workerId && p.amount == SettledAmount(s.bookings[bookingId])
    ensures p.status == PaymentPending && p.transactionId == txn && p.paymentMethod == payMethod
  {
    var amount := SettledAmount(s.bookings[bookingId]);
    Payment(s.nextId, bookingId, actor.id, s.bookings[bookingId].workerId, amount,
            Money.Commission(amount), Money.Payout(amount), payMethod, txn, PaymentPending, now, None)
  }

  /** The state after a successful `processPayment`: one payment appended,
      then settled as completed. */
  function Processed(s: State, actor: SessionUser, bookingId: Id, payMethod: string, txn: string, now: Time): State
    requires bookingId in s.bookings
  {
    var p := NewPayment(s, actor, bookingId, payMethod, txn, now);
    PaymentService.Settled(s.(payments := s.payments + [p], nextId := s.nextId + 1), |s.payments|,
                           PaymentCompleted, now)
  }

  /** `processPayment`. The gateway is simulated: the new payment is
      finalised to completed straight away. */
  method ProcessPayment(db: Database, actor: SessionUser, bookingId: Id, paymentMethod: Option<string>,
                        random: seq<Text.Byte>, now: nat) returns (resp: Response)
    requires db.Valid() && |random| == 4
    modifies db
    ensures db.Valid()
    ensures ProcessGuard(old(db.Snapshot()), actor, bookingId).Some? ==>
      resp == ProcessGuard(old(db.Snapshot()), actor, bookingId).value && db.Snapshot() == old(db.Snapshot())
    ensures ProcessGuard(old(db.Snapshot()), actor, bookingId).None? ==>
      var txn := PaymentService.TransactionId(now, random);
      if !Truthy(paymentMethod) || IndexOfTransaction(old(db.payments), txn).Some?
      then resp == ServerError && db.Snapshot() == old(db.Snapshot())
      else resp == Ok && db.Snapshot() == Processed(old(db.Snapshot()), actor, bookingId, paymentMethod.value, txn, now)
  {
    if bookingId !in db.bookings {
      return NotFound;
    }
    var booking := db.bookings[bookingId];
    if booking.clientId !in db.users {
      return ServerError;
    }
    if booking.clientId != actor.id {
      return Forbidden;
    }
    if booking.status != Completed {
      return BadRequest;
    }
    var existing := IndexOfBooking(db.payments, bookingId);
    if existing.Some? && db.payments[existing.value].status == PaymentCompleted {
      return BadRequest;
    }
    var amount := if booking.finalAmount != 0 then booking.finalAmount else booking.budget;
    if booking.workerId !in db.users {
      return ServerError;
    }
    ghost var s := db.Snapshot();
    var payment := PaymentService.CreatePayment(db, bookingId, actor.id, booking.workerId, amount,
                                                paymentMethod, random, now);
    if payment.None? {
      return ServerError;
    }
    var p := payment.value;
    assert p == NewPayment(s, actor, bookingId, paymentMethod.value, p.transactionId, now);
    FoundAtEnd(s.payments, p);
    var settled := PaymentService.UpdatePaymentStatus(db, p.transactionId, PaymentCompleted, now);
    return Ok;
  }

  /** A transaction id absent before is found at the end once appended. */
  lemma {:induction false} FoundAtEnd(payments: seq<Payment>, p: Payment)
    requires IndexOfTransaction(payments, p.transactionId).None?
    ensures IndexOfTransaction(payments + [p], p.transactionId) == Some(|payments|)
  {
    if payments != [] {
      assert (payments + [p])[1..] == payments[1..] + [p];
      FoundAtEnd(payments[1..], p);
    }
  }

  /** A successful settlement records exactly one payment, completed, for
      the settled amount; the worker's earnings grow once by its payout,
      the booking's final amount becomes that amount, and no other user
      or booking changes. */
  lemma ProcessedCreditsOnce(s: State, actor: SessionUser, bookingId: Id, payMethod: string, txn: string, now: Time)
    requires ProcessGuard(s, actor, bookingId).None?
    ensures var s' := Processed(s, actor, bookingId, payMethod, txn, now);
      var b := s.bookings[bookingId];
      var amount := SettledAmount(b);
      && |s'.payments| == |s.payments| + 1
      && s'.payments[..|s.payments|] == s.payments
      && s'.payments[|s.payments|].status == PaymentCompleted
      && s'.payments[|s.payments|].amount == amount
      && s'.users.Keys == s.users.Keys
      && s'.users[b.workerId].totalEarnings == s.users[b.workerId].totalEarnings + Money.Payout(amount)
      && (forall id :: id in s.users && id != b.workerId ==> s'.users[id] == s.users[id])
      && s'.bookings == s.bookings[bookingId := b.(finalAmount := amount)]
  {
    var p := NewPayment(s, actor, bookingId, payMethod, txn, now);
    var s' := Processed(s, actor, bookingId, payMethod, txn, now);
    assert s'.payments == (s.payments + [p])[|s.payments| := p.(status := PaymentCompleted, paymentDate := now)];
    assert s'.payments[..|s.payments|] == s.payments;
  }

  /** The only guard against a second settlement is the first payment
      recorded for the booking: when there was none, a repeated request is
      refused; when the first one is still pending, the repeated request
      passes every guard again and would settle the booking twice. */
  lemma RepeatSettlement(s: State, actor: SessionUser, bookingId: Id, payMethod: string, txn: string, now: Time)
    requires ProcessGuard(s, actor, bookingId).None?
    ensures var s' := Processed(s, actor, bookingId, payMethod, txn, now);
      && (IndexOfBooking(s.payments, bookingId).None? ==> ProcessGuard(s', actor, bookingId) == Some(BadRequest))
      && (IndexOfBooking(s.payments, bookingId).Some? ==> ProcessGuard(s', actor, bookingId).None?)
  {
    var p := NewPayment(s, actor, bookingId, payMethod, txn, now);
    var s' := Processed(s, actor, bookingId, payMethod, txn, now);
    var n := |s.payments|;
    var ps := s'.payments;
    assert ps == (s.payments + [p])[n := p.(status := PaymentCompleted, paymentDate := now)];
    var k := IndexOfBooking(s.payments, bookingId);
    if k.None? {
      forall j | 0 <= j < n
        ensures ps[j].bookingId != bookingId
      {
        assert ps[j] == s.payments[j];
      }
      FirstMatchIs(ps, bookingId, n);
    } else {
      forall j | 0 <= j < k.value
        ensures ps[j].bookingId != bookingId
      {
        assert ps[j] == s.payments[j];
      }
      assert ps[k.value] == s.payments[k.value];
      FirstMatchIs(ps, bookingId, k.value);
    }
  }

  /** IndexOfBooking is the first index that matches. */
  lemma {:induction false} FirstMatchIs(ps: seq<Payment>, bookingId: Id, k: nat)
    requires k < |ps| && ps[k].bookingId == bookingId
    requires forall j :: 0 <= j < k ==> ps[j].bookingId != bookingId
    ensures IndexOfBooking(ps, bookingId) == Some(k)
    decreases k
  {
    if k > 0 {
      FirstMatchIs(ps[1..], bookingId, k - 1);
    }
  }

  /** `viewPayment`: 404 for an unknown payment; a client or worker who is
      not the payment's party is refused (500 when that populated party is
      gone); an admin always sees it. */
  method ViewPayment(db: Database, actor: SessionUser, id: Id) returns (resp: Response)
    ensures IndexOfId(db.payments, id).None? ==> resp == NotFound
    ensures IndexOfId(db.payments, id).Some? ==>
      var p := db.payments[IndexOfId(db.payments, id).value];
      resp == (if actor.role == Client && p.clientId !in db.users then ServerError
               else if actor.role == Client && p.clientId != actor.id then Forbidden
               else if actor.role == Worker && p.workerId !in db.users then ServerError
               else if actor.role == Worker && p.workerId != actor.id then Forbidden
               else Ok)
  {
    var found := IndexOfId(db.payments, id);
    if found.None? {
      return NotFound;
    }
    var payment := db.payments[found.value];
    if actor.role == Client {
      if payment.clientId !in db.users {
        return ServerError;
      }
      if payment.clientId != actor.id {
        return Forbidden;
      }
    }
    if actor.role == Worker {
      if payment.workerId !in db.users {
        return ServerError;
      }
      if payment.workerId != actor.id {
        return Forbidden;
      }
    }
    return Ok;
  }

  /** `generateReceipt`: only the payment's client, whatever the role. */
  method GenerateReceipt(db: Database, actor: SessionUser, id: Id) returns (resp: Response)
    ensures resp == Ok <==>
      && IndexOfId(db.payments, id).Some?
      && db.payments[IndexOfId(db.payments, id).value].clientId in db.users
      && db.payments[IndexOfId(db.payments, id).value].clientId == actor.id
    ensures resp == NotFound <==> IndexOfId(db.payments, id).None?
  {
    var found := IndexOfId(db.payments, id);
    if found.None? {
      return NotFound;
    }
    var payment := db.payments[found.value];
    if payment.clientId !in db.users {
      return ServerError;
    }
    if payment.clientId != actor.id {
      return Forbidden;
    }
    return Ok;
  }
}
