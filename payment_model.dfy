/** The payment record of models/Payment.js. */
module PaymentModel {
  import opened Common
  import opened Constants
  import Seqs

  datatype Payment = Payment(
    id: Id,
    bookingId: Id,
    clientId: Id,
    workerId: Id,
    amount: Cents,
    commission: Cents,
    workerPayout: Cents,
    paymentMethod: string,
    transactionId: string,
    status: PaymentStatus,
    paymentDate: Time,
    payoutDate: Option<Time>)

  /** The schema's `required` validators on the string fields. */
  predicate HasRequiredFields(p: Payment)
  {
    p.paymentMethod != "" && p.transactionId != ""
  }

  /** The position of the payment with this id, as `findById` locates it. */
  function IndexOfId(payments: seq<Payment>, id: Id): Option<nat>
  {
    Seqs.FirstIndex(payments, (p: Payment) => p.id == id)
  }

  /** The first payment recorded for a booking: `Payment.findOne({ bookingId })`. */
  function IndexOfBooking(payments: seq<Payment>, bookingId: Id): Option<nat>
  {
    Seqs.FirstIndex(payments, (p: Payment) => p.bookingId == bookingId)
  }

  /** The payment carrying a transaction id: `findOneAndUpdate({ transactionId })`. */
  function IndexOfTransaction(payments: seq<Payment>, txn: string): Option<nat>
  {
    Seqs.FirstIndex(payments, (p: Payment) => p.transactionId == txn)
  }
}
