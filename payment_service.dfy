/** services/paymentService.js: the commission split, transaction ids, and
    the creation, settlement and summary of payments. */
module PaymentService {
  import opened Common
  import opened Constants
  import opened UserModel
  import opened BookingModel
  import opened PaymentModel
  import opened Store
  import Money
  import Seqs
  import Text

  /** What `calculatePayment` returns. */
  datatype Split = Split(amount: Cents, commission: Cents, workerPayout: Cents)

  /** `calculatePayment`: 15% commission and the rest as payout, each
      rounded to the cent. For a non-negative amount the two shares add up
      to the amount, or one cent more when the commission is exactly half a
      cent; for a negative amount (which nothing upstream refuses) they add
      up to it or fall one cent short. */
  function CalculatePayment(amount: Cents): (sp: Split)
    ensures sp.amount == amount
    ensures sp.commission == Money.Commission(amount) && sp.workerPayout == Money.Payout(amount)
    ensures amount >= 0 ==> 0 <= sp.commission && 0 <= sp.workerPayout
    ensures amount >= 0 ==> amount <= sp.commission + sp.workerPayout <= amount + 1
    ensures amount < 0 ==> sp.commission <= 0 && sp.workerPayout <= 0
    ensures amount < 0 ==> amount - 1 <= sp.commission + sp.workerPayout <= amount
  {
    Money.SplitSum(amount);
    Split(amount, Money.Commission(amount), Money.Payout(amount))
  }

  const TransactionPrefix: string := "TXN"

  /** `generateTransactionId`: "TXN", the creation time in milliseconds, and
      four random bytes as eight upper-case hex digits. */
  function TransactionId(now: nat, random: seq<Text.Byte>): (id: string)
    requires |random| == 4
    ensures |id| == 3 + |Text.NatToDecimal(now)| + 8
    ensures id[..3] == TransactionPrefix
    ensures forall i :: 3 <= i < |id| - 8 ==> Text.IsDigit(id[i])
    ensures forall i :: |id| - 8 <= i < |id| ==> Text.IsUpperHex(id[i])
  {
    var t := TransactionPrefix + Text.NatToDecimal(now) + Text.HexUpper(random);
    assert forall i :: 3 <= i < |t| - 8 ==> t[i] == Text.NatToDecimal(now)[i - 3];
    t
  }

  /** Reads a transaction id back into its time and random bytes. */
  function ParseTransactionId(id: string): (r: Option<(nat, seq<Text.Byte>)>)
    ensures r.Some? ==> |r.value.1| == 4
  {
    if |id| >= 12 && id[..3] == TransactionPrefix
       && Text.AllDigits(id[3..|id| - 8])
       && (forall i :: |id| - 8 <= i < |id| ==> Text.IsUpperHex(id[i]))
    then
      var hex := id[|id| - 8..];
      assert forall i :: 0 <= i < |hex| ==> Text.IsUpperHex(hex[i]);
      HexBytesLength(hex);
      Some((Text.DecimalValue(id[3..|id| - 8]), Text.HexBytes(hex)))
    else None
  }

  lemma {:induction false} HexBytesLength(s: string)
    requires |s| % 2 == 0
    requires forall i :: 0 <= i < |s| ==> Text.IsUpperHex(s[i])
    ensures |Text.HexBytes(s)| == |s| / 2
  {
    if s != [] {
      HexBytesLength(s[2..]);
    }
  }

  /** Parsing recovers the time and the random bytes of a transaction id. */
  lemma TransactionIdRoundTrip(now: nat, random: seq<Text.Byte>)
    requires |random| == 4
    ensures ParseTransactionId(TransactionId(now, random)) == Some((now, random))
  {
    var id := TransactionId(now, random);
    var digits := Text.NatToDecimal(now);
    assert id[3..|id| - 8] == digits;
    assert id[|id| - 8..] == Text.HexUpper(random);
    Text.DecimalRoundTrip(now);
    Text.HexRoundTrip(random);
  }

  /** Two transaction ids are equal only when made from the same time and bytes. */
  lemma TransactionIdInjective(now1: nat, random1: seq<Text.Byte>, now2: nat, random2: seq<Text.Byte>)
    requires |random1| == 4 && |random2| == 4
    requires TransactionId(now1, random1) == TransactionId(now2, random2)
    ensures now1 == now2 && random1 == random2
  {
    TransactionIdRoundTrip(now1, random1);
    TransactionIdRoundTrip(now2, random2);
  }

  /** `createPayment`: one pending payment carrying the split is appended;
      no user or booking changes. A missing payment method or a transaction
      id already in use fails the save, and the error propagates. */
  method CreatePayment(db: Database, bookingId: Id, clientId: Id, workerId: Id, amount: Cents,
                       paymentMethod: Option<string>, random: seq<Text.Byte>, now: nat)
    returns (payment: Option<Payment>)
    requires db.Valid() && |random| == 4
    modifies db
    ensures db.Valid()
    ensures payment.None? <==>
      !Truthy(paymentMethod) || IndexOfTransaction(old(db.payments), TransactionId(now, random)).Some?
    ensures payment.None? ==> db.Snapshot() == old(db.Snapshot())
    ensures payment.Some? ==>
      && payment.value == Payment(old(db.nextId), bookingId, clientId, workerId, amount,
                                  Money.Commission(amount), Money.Payout(amount), paymentMethod.value,
                                  TransactionId(now, random), PaymentPending, now, None)
      && db.Snapshot() == old(db.Snapshot()).(payments := old(db.payments) + [payment.value],
                                              nextId := old(db.nextId) + 1)
  {
    var split := CalculatePayment(amount);
    var txn := TransactionId(now, random);
    if !Truthy(paymentMethod) {
      return None;
    }
    var clash := IndexOfTransaction(db.payments, txn);
    if clash.Some? {
      return None;
    }
    ghost var s := db.Snapshot();
    var id := db.NewId();
    var p := Payment(id, bookingId, clientId, workerId, amount, split.commission, split.workerPayout,
                     paymentMethod.value, txn, PaymentPending, now, None);
    db.payments := db.payments + [p];
    AppendPaymentKeepsValid(s, p);
    return Some(p);
  }

  lemma AppendPaymentKeepsValid(s: State, p: Payment)
    requires ValidState(s)
    requires p.id == s.nextId && IndexOfTransaction(s.payments, p.transactionId).None?
    requires p.commission == Money.Commission(p.amount) && p.workerPayout == Money.Payout(p.amount)
    ensures ValidState(s.(payments := s.payments + [p], nextId := s.nextId + 1))
  {
    FreshIdKeepsValid(s);
    var ps := s.payments + [p];
    forall i, j | 0 <= i < j < |ps|
      ensures ps[i].id != ps[j].id && ps[i].transactionId != ps[j].transactionId
    {
      assert ps[i] == s.payments[i];
      if j < |s.payments| {
        assert ps[j] == s.payments[j];
      }
    }
    forall i | 0 <= i < |ps|
      ensures ps[i].id < s.nextId + 1
      ensures ps[i].commission == Money.Commission(ps[i].amount)
      ensures ps[i].workerPayout == Money.Payout(ps[i].amount)
    {
      if i < |s.payments| {
        assert ps[i] == s.payments[i];
      }
    }
  }

  /** `$inc: { totalEarnings }` on a user; no user, no change. */
  function Credited(users: map<Id, User>, worker: Id, amount: Cents): (users': map<Id, User>)
    ensures users'.Keys == users.Keys
  {
    if worker in users
    then users[worker := users[worker].(totalEarnings := users[worker].totalEarnings + amount)]
    else users
  }

  /** `findByIdAndUpdate(bookingId, { finalAmount })`; no booking, no change. */
  function WithFinalAmount(bookings: map<Id, Booking>, bookingId: Id, amount: Cents): (bookings': map<Id, Booking>)
    ensures bookings'.Keys == bookings.Keys
  {
    if bookingId in bookings
    then bookings[bookingId := bookings[bookingId].(finalAmount := amount)]
    else bookings
  }

  /** The state after `updatePaymentStatus` found the payment at index i:
      status and date replaced; on completion the worker's earnings grow
      by the payout and the booking's final amount becomes the amount. */
  function Settled(s: State, i: nat, status: PaymentStatus, now: Time): (s': State)
    requires i < |s.payments|
    ensures s'.reviews == s.reviews && s'.userOrder == s.userOrder && s'.nextId == s.nextId
    ensures |s'.payments| == |s.payments|
  {
    var p := s.payments[i].(status := status, paymentDate := now);
    if status != PaymentCompleted then s.(payments := s.payments[i := p])
    else s.(payments := s.payments[i := p],
            users := Credited(s.users, p.workerId, p.workerPayout),
            bookings := WithFinalAmount(s.bookings, p.bookingId, p.amount))
  }

  /** `updatePaymentStatus`. Nothing guards against settling twice: each
      call with `completed` adds the payout again. */
  method UpdatePaymentStatus(db: Database, txn: string, status: PaymentStatus, now: Time)
    returns (payment: Option<Payment>)
    requires db.Valid()
    modifies db
    ensures db.Valid()
    ensures payment.None? <==> IndexOfTransaction(old(db.payments), txn).None?
    ensures payment.None? ==> db.Snapshot() == old(db.Snapshot())
    ensures payment.Some? ==>
      var i := IndexOfTransaction(old(db.payments), txn).value;
      && payment.value == old(db.payments)[i].(status := status, paymentDate := now)
      && db.Snapshot() == Settled(old(db.Snapshot()), i, status, now)
  {
    var found := IndexOfTransaction(db.payments, txn);
    if found.None? {
      return None;
    }
    var i := found.value;
    ghost var s := db.Snapshot();
    SettledKeepsValid(s, i, status, now);
    var p := db.payments[i].(status := status, paymentDate := now);
    db.payments := db.payments[i := p];
    if status == PaymentCompleted {
      db.users := Credited(db.users, p.workerId, p.workerPayout);
      db.bookings := WithFinalAmount(db.bookings, p.bookingId, p.amount);
    }
    assert db.Snapshot() == Settled(s, i, status, now);
    return Some(p);
  }

  lemma SettledKeepsValid(s: State, i: nat, status: PaymentStatus, now: Time)
    requires ValidState(s) && i < |s.payments|
    ensures ValidState(Settled(s, i, status, now))
  {
    var p := s.payments[i].(status := status, paymentDate := now);
    var s1 := s.(payments := s.payments[i := p]);
    UpdatePaymentKeepsValid(s, i, p);
    if status == PaymentCompleted {
      var s2 := s1.(users := Credited(s1.users, p.workerId, p.workerPayout));
      CreditKeepsValid(s1, p.workerId, p.workerPayout);
      var s3 := s2.(bookings := WithFinalAmount(s2.bookings, p.bookingId, p.amount));
      SetFinalAmountKeepsValid(s2, p.bookingId, p.amount);
      assert Settled(s, i, status, now) == s3;
    } else {
      assert Settled(s, i, status, now) == s1;
    }
  }

  lemma CreditKeepsValid(s: State, worker: Id, amount: Cents)
    requires ValidState(s)
    ensures ValidState(s.(users := Credited(s.users, worker, amount)))
  {
    if worker in s.users {
      var w := s.users[worker];
      UpdateUserKeepsValid(s, worker, w.(totalEarnings := w.totalEarnings + amount));
      assert Credited(s.users, worker, amount) == s.users[worker := w.(totalEarnings := w.totalEarnings + amount)];
    } else {
      assert s.(users := Credited(s.users, worker, amount)) == s;
    }
  }

  lemma SetFinalAmountKeepsValid(s: State, bookingId: Id, amount: Cents)
    requires ValidState(s)
    ensures ValidState(s.(bookings := WithFinalAmount(s.bookings, bookingId, amount)))
  {
    if bookingId in s.bookings {
      UpdateBookingKeepsValid(s, bookingId, s.bookings[bookingId].(finalAmount := amount));
    } else {
      assert s.(bookings := WithFinalAmount(s.bookings, bookingId, amount)) == s;
    }
  }

  /** Settling the same completed payment twice credits the payout twice. */
  lemma SettlingTwiceCreditsTwice(s: State, i: nat, now1: Time, now2: Time)
    requires i < |s.payments| && s.payments[i].workerId in s.users
    ensures var s2 := Settled(Settled(s, i, PaymentCompleted, now1), i, PaymentCompleted, now2);
      s2.users[s.payments[i].workerId].totalEarnings
        == s.users[s.payments[i].workerId].totalEarnings + 2 * s.payments[i].workerPayout
  {
  }

  /** What `getWorkerEarningsSummary` returns. */
  datatype EarningsSummary = EarningsSummary(totalEarnings: Cents, totalCommission: Cents,
                                             totalPayout: Cents, transactionCount: nat)

  /** The payments the summary's query selects: the worker's completed
      payments dated within [start, end]. */
  function SettledFor(payments: seq<Payment>, worker: Id, start: Time, end: Time): (r: seq<Payment>)
    ensures forall i :: 0 <= i < |r| ==>
      r[i].workerId == worker && r[i].status == PaymentCompleted && start <= r[i].paymentDate <= end
    ensures forall i :: 0 <= i < |payments| && Selected(payments[i], worker, start, end) ==> payments[i] in r
  {
    Seqs.Filter(payments, (p: Payment) => Selected(p, worker, start, end))
  }

  predicate Selected(p: Payment, worker: Id, start: Time, end: Time)
  {
    p.workerId == worker && p.status == PaymentCompleted && start <= p.paymentDate <= end
  }

  function SumAmount(ps: seq<Payment>): int
  {
    if ps == [] then 0 else SumAmount(ps[..|ps| - 1]) + ps[|ps| - 1].amount
  }

  function SumCommission(ps: seq<Payment>): int
  {
    if ps == [] then 0 else SumCommission(ps[..|ps| - 1]) + ps[|ps| - 1].commission
  }

  function SumPayout(ps: seq<Payment>): int
  {
    if ps == [] then 0 else SumPayout(ps[..|ps| - 1]) + ps[|ps| - 1].workerPayout
  }

  /** Extending a prefix by one payment adds that payment to each total. */
  lemma SumsStep(ps: seq<Payment>, i: nat)
    requires i < |ps|
    ensures SumAmount(ps[..i + 1]) == SumAmount(ps[..i]) + ps[i].amount
    ensures SumCommission(ps[..i + 1]) == SumCommission(ps[..i]) + ps[i].commission
    ensures SumPayout(ps[..i + 1]) == SumPayout(ps[..i]) + ps[i].workerPayout
  {
    assert ps[..i + 1][..i] == ps[..i];
  }

  /** `getWorkerEarningsSummary`: the count and the three running totals
      over the selected payments. */
  method GetWorkerEarningsSummary(db: Database, worker: Id, start: Time, end: Time)
    returns (summary: EarningsSummary)
    ensures var ps := SettledFor(db.payments, worker, start, end);
      summary == EarningsSummary(SumAmount(ps), SumCommission(ps), SumPayout(ps), |ps|)
  {
    summary := Totals(SettledFor(db.payments, worker, start, end));
  }

  /** The `forEach` that accumulates the three totals. */
  method Totals(payments: seq<Payment>) returns (summary: EarningsSummary)
    ensures summary == EarningsSummary(SumAmount(payments), SumCommission(payments), SumPayout(payments), |payments|)
  {
    summary := EarningsSummary(0, 0, 0, |payments|);
    var i := 0;
    while i < |payments|
      invariant 0 <= i <= |payments|
      invariant summary == EarningsSummary(SumAmount(payments[..i]), SumCommission(payments[..i]),
                                           SumPayout(payments[..i]), |payments|)
    {
      var p := payments[i];
      SumsStep(payments, i);
      summary := summary.(totalEarnings := summary.totalEarnings + p.amount,
                          totalCommission := summary.totalCommission + p.commission,
                          totalPayout := summary.totalPayout + p.workerPayout);
      i := i + 1;
    }
    assert payments[..i] == payments;
  }

  /** For payments that carry their split, commission and payout together
      differ from the amounts by at most one cent per payment; when no
      amount is negative they never fall short of them. */
  lemma {:induction false} SummaryWithinOneCentEach(ps: seq<Payment>)
    requires forall i :: 0 <= i < |ps| ==>
      ps[i].commission == Money.Commission(ps[i].amount) && ps[i].workerPayout == Money.Payout(ps[i].amount)
    ensures SumAmount(ps) - |ps| <= SumCommission(ps) + SumPayout(ps) <= SumAmount(ps) + |ps|
    ensures (forall i :: 0 <= i < |ps| ==> ps[i].amount >= 0) ==> SumAmount(ps) <= SumCommission(ps) + SumPayout(ps)
  {
    if ps != [] {
      var last := ps[|ps| - 1];
      SummaryWithinOneCentEach(ps[..|ps| - 1]);
      Money.SplitSum(last.amount);
    }
  }
}
