/** The enumerations and fixed rates of config/constants.js, with the string
    each one is stored as and the parser back from that string. */
module Constants {
  import opened Common

  // ---------------------------------------------------------------- roles

  datatype Role = Client | Worker | Admin

  const RoleNames: seq<string> := ["client", "worker", "admin"]

  function RoleName(r: Role): (name: string)
    ensures name in RoleNames
  {
    match r
    case Client => "client"
    case Worker => "worker"
    case Admin => "admin"
  }

  function RoleOf(s: string): (r: Option<Role>)
    ensures r.Some? <==> s in RoleNames
    ensures r.Some? ==> RoleName(r.value) == s
  {
    if s == "client" then Some(Client)
    else if s == "worker" then Some(Worker)
    else if s == "admin" then Some(Admin)
    else None
  }

  // ------------------------------------------------------ booking statuses

  datatype BookingStatus = Pending | Accepted | Rejected | InProgress | Completed | Cancelled

  const BookingStatusNames: seq<string> :=
    ["pending", "accepted", "rejected", "in-progress", "completed", "cancelled"]

  function BookingStatusName(s: BookingStatus): (name: string)
    ensures name in BookingStatusNames
  {
    match s
    case Pending => "pending"
    case Accepted => "accepted"
    case Rejected => "rejected"
    case InProgress => "in-progress"
    case Completed => "completed"
    case Cancelled => "cancelled"
  }

  /** The enum validator of the booking schema: only the six names are accepted. */
  function BookingStatusOf(s: string): (r: Option<BookingStatus>)
    ensures r.Some? <==> s in BookingStatusNames
    ensures r.Some? ==> BookingStatusName(r.value) == s
  {
    if s == "pending" then Some(Pending)
    else if s == "accepted" then Some(Accepted)
    else if s == "rejected" then Some(Rejected)
    else if s == "in-progress" then Some(InProgress)
    else if s == "completed" then Some(Completed)
    else if s == "cancelled" then Some(Cancelled)
    else None
  }

  // ------------------------------------------------------ payment statuses

  datatype PaymentStatus = PaymentPending | PaymentCompleted | PaymentFailed | PaymentRefunded

  const PaymentStatusNames: seq<string> := ["pending", "completed", "failed", "refunded"]

  function PaymentStatusName(s: PaymentStatus): (name: string)
    ensures name in PaymentStatusNames
  {
    match s
    case PaymentPending => "pending"
    case PaymentCompleted => "completed"
    case PaymentFailed => "failed"
    case PaymentRefunded => "refunded"
  }

  function PaymentStatusOf(s: string): (r: Option<PaymentStatus>)
    ensures r.Some? <==> s in PaymentStatusNames
    ensures r.Some? ==> PaymentStatusName(r.value) == s
  {
    if s == "pending" then Some(PaymentPending)
    else if s == "completed" then Some(PaymentCompleted)
    else if s == "failed" then Some(PaymentFailed)
    else if s == "refunded" then Some(PaymentRefunded)
    else None
  }

  // ------------------------------------------- worker verification statuses

  datatype VerificationStatus = VerificationPending | Verified | VerificationRejected

  const VerificationStatusNames: seq<string> := ["pending", "verified", "rejected"]

  function VerificationStatusName(s: VerificationStatus): (name: string)
    ensures name in VerificationStatusNames
  {
    match s
    case VerificationPending => "pending"
    case Verified => "verified"
    case VerificationRejected => "rejected"
  }

  function VerificationStatusOf(s: string): (r: Option<VerificationStatus>)
    ensures r.Some? <==> s in VerificationStatusNames
    ensures r.Some? ==> VerificationStatusName(r.value) == s
  {
    if s == "pending" then Some(VerificationPending)
    else if s == "verified" then Some(Verified)
    else if s == "rejected" then Some(VerificationRejected)
    else None
  }

  // ------------------------------------------------- availability statuses

  datatype AvailabilityStatus = Available | Busy | Unavailable

  const AvailabilityStatusNames: seq<string> := ["available", "busy", "unavailable"]

  function AvailabilityStatusName(s: AvailabilityStatus): (name: string)
    ensures name in AvailabilityStatusNames
  {
    match s
    case Available => "available"
    case Busy => "busy"
    case Unavailable => "unavailable"
  }

  // ------------------------------------------------------------- constants

  /** COMMISSION_RATE = 0.15, kept as a whole percentage so that money stays exact. */
  const CommissionPercent: nat := 15

  /** Page size of the search listing. */
  const PageSize: nat := 10

  /** Every name list above has pairwise distinct entries, so the enumerations
      have exactly as many members as names. */
  predicate DistinctNames(names: seq<string>)
  {
    forall i, j :: 0 <= i < j < |names| ==> names[i] != names[j]
  }

  /** Each stored name parses back to the value it was written from. */
  lemma NamesRoundTrip()
    ensures forall r: Role :: RoleOf(RoleName(r)) == Some(r)
    ensures forall s: BookingStatus :: BookingStatusOf(BookingStatusName(s)) == Some(s)
    ensures forall s: PaymentStatus :: PaymentStatusOf(PaymentStatusName(s)) == Some(s)
    ensures forall s: VerificationStatus :: VerificationStatusOf(VerificationStatusName(s)) == Some(s)
  {
  }

  lemma EnumerationSizes()
    ensures |RoleNames| == 3 && DistinctNames(RoleNames)
    ensures |BookingStatusNames| == 6 && DistinctNames(BookingStatusNames)
    ensures |PaymentStatusNames| == 4 && DistinctNames(PaymentStatusNames)
    ensures |VerificationStatusNames| == 3 && DistinctNames(VerificationStatusNames)
    ensures |AvailabilityStatusNames| == 3 && DistinctNames(AvailabilityStatusNames)
  {
  }
}
