/** The booking record of models/Booking.js and the lifecycle it is meant to follow. */
module BookingModel {
  import opened Common
  import opened Constants

  /** The free-form `location` object a client may attach (`JSON.parse(location || '{}')`). */
  datatype Location = Location(address: Option<string>, latitude: Option<real>, longitude: Option<real>)

  const NoLocation: Location := Location(None, None, None)

  datatype Booking = Booking(
    clientId: Id,
    workerId: Id,
    serviceCategory: string,
    serviceDescription: string,
    requestedDate: Time,
    requestedTime: string,
    status: BookingStatus,
    budget: Cents,
    finalAmount: Cents,
    location: Location,
    acceptedAt: Option<Time>,
    completedAt: Option<Time>,
    cancelledAt: Option<Time>,
    cancellationReason: Option<string>,
    clientNotes: Option<string>,
    workerNotes: Option<string>)

  /** The schema's `required` validators: a required string must not be empty. */
  predicate HasRequiredFields(b: Booking)
  {
    b.serviceCategory != "" && b.serviceDescription != "" && b.requestedTime != ""
  }

  /** A booking as the schema creates it: the given fields, status `pending`
      and `finalAmount` 0 by default, every optional field unset. */
  function NewBooking(clientId: Id, workerId: Id, category: string, description: string,
                      date: Time, time: string, budget: Cents, location: Location): (b: Booking)
    ensures b.clientId == clientId && b.workerId == workerId
    ensures b.serviceCategory == category && b.serviceDescription == description
    ensures b.requestedDate == date && b.requestedTime == time && b.budget == budget
    ensures b.status == Pending && b.finalAmount == 0
    ensures b.acceptedAt.None? && b.completedAt.None? && b.cancelledAt.None?
    ensures b.cancellationReason.None? && b.clientNotes.None? && b.workerNotes.None?
  {
    Booking(clientId, workerId, category, description, date, time, Pending, budget, 0,
            location, None, None, None, None, None, None)
  }

  /** The intended lifecycle: pending -> accepted | rejected | cancelled;
      accepted -> in-progress | completed | cancelled; in-progress -> completed. */
  predicate LegalTransition(from: BookingStatus, to: BookingStatus)
  {
    match from
    case Pending => to == Accepted || to == Rejected || to == Cancelled
    case Accepted => to == InProgress || to == Completed || to == Cancelled
    case InProgress => to == Completed
    case _ => false
  }
}
