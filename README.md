# ConsultWork marketplace engine, modelled in Dafny

ConsultWork is a marketplace where clients book workers for services. The
Express handlers behind it share one pattern: look up a record, run a fixed
sequence of guard checks that end in 404, 403 or 400, then change a few
fields and save. This project models that engine:

- the booking lifecycle;
- settlement of a completed booking, with the platform's 15% commission;
- reviews and the worker's average rating derived from them;
- worker search and the map view;
- the worker's profile lists (skills, service areas, availability, rates);
- the admin's account actions;
- registration, login and the token flows;
- the request validators and the role guards;
- the record schemas and the enumerations they draw on.

The persistent store is one object, `Store.Database`. It holds four fields:

- `users`, a map, with `userOrder` giving their natural order;
- `bookings`, a map;
- `payments`, a sequence in insertion order;
- `reviews`, a sequence in insertion order.

Each handler is a method that takes the database and the session user. It
returns a `Response` (Ok, BadRequest, Unauthorized, Forbidden, NotFound or
ServerError) and states its whole new state, as a function of the old one.
`Database.Valid()` holds before and after every handler. It bundles:

- ids below a counter, and the users' natural order listing each user once;
- unique emails;
- reviews that name an existing booking and its two parties, with a valid
  rating and at most one per booking;
- payments that carry the commission split of their amount, with unique
  ids and transaction ids;
- a derived-state invariant: every stored `averageRating` equals the value
  recomputed from the visible reviews.

Conventions used throughout:

- Money is whole cents. `toFixed(2)` is exact half-up rounding, halves away from zero. Amounts may be negative: createBooking never reads the validation errors a form post carries, so a budget such as "-0.10" is stored and can be settled.
- An average rating is stored in hundredths (0..500).
- Times are milliseconds.
- Request fields arrive parsed. An absent field is `None`.
- A user's `save()` validates every loaded path, so a stored availability
  outside its enumeration (which `updateOne` can leave behind) makes it fail.
- A dereference of a missing populated record, and a failed `save`
  validation, both end the request in the handler's `catch` (500) with
  nothing changed.

## Model

| member | source | states |
|---|---|---|
| Constants.RoleName | config/constants.js:2-6 | each role's stored name is one of the three listed names |
| Constants.RoleOf | models/User.js:18-22 | the role enum validator: accepts exactly the three role names, and inverts RoleName |
| Constants.BookingStatusName | config/constants.js:8-15 | each status's stored name is one of the six listed names |
| Constants.BookingStatusOf | models/Booking.js:31-35 | accepts exactly the six booking status names |
| Constants.PaymentStatusName | config/constants.js:17-22 | each status's stored name is one of the four listed names |
| Constants.PaymentStatusOf | models/Payment.js:41-45 | accepts exactly the four payment status names |
| Constants.VerificationStatusName | config/constants.js:45-49 | each status's stored name is one of pending, verified, rejected |
| Constants.VerificationStatusOf | models/User.js:95-99 | accepts exactly the three verification status names |
| Constants.AvailabilityStatusName | config/constants.js:51-55 | each status's stored name is one of available, busy, unavailable |
| Constants.NamesRoundTrip | config/constants.js:1-57 | every stored enum name parses back to the value it was written from |
| Constants.EnumerationSizes | config/constants.js:2-22 | there are exactly 3 roles, 6 booking statuses, 4 payment statuses, 3 verification statuses and 3 availability statuses, each list with distinct names |
| Money.RoundHalfUp | services/paymentService.js:18-19 | `toFixed(2)` on cents: the nearest integer to n/d, with halves rounded away from zero |
| Money.NearestIsUnique | services/paymentService.js:18-19 | only one integer satisfies the rounding bounds, so the rounding is determined |
| Money.RoundHalfUpOdd | services/paymentService.js:18-19 | rounding is symmetric about zero: -x rounds to minus the rounding of x |
| Money.Commission | services/paymentService.js:14-18 | amount × 15%, rounded half-up to the cent; between 0 and the amount whatever its sign (0 ≤ c ≤ amount, or amount ≤ c ≤ 0 for a negative amount) |
| Money.Payout | services/paymentService.js:15-19 | the amount less the unrounded commission (85% of it), rounded half-up to the cent; between 0 and the amount whatever its sign |
| Money.SplitSum | services/paymentService.js:13-21 | commission + payout equals the amount except when amount mod 20 = 10, where it is one cent over for a non-negative amount and one cent short for a negative one |
| Money.HundredSplits | services/paymentService.js:13-21 | 100.00 splits into 15.00 commission and 85.00 payout |
| Rating.VisibleRatings | controllers/reviewController.js:201 | the ratings of the worker's visible reviews, in store order; no more of them than reviews, and each within 1..5 when the stored ratings are |
| Rating.AverageRating | controllers/reviewController.js:199-215 | 0 without ratings, otherwise the mean rounded half-up to hundredths |
| Rating.AverageInRange | controllers/reviewController.js:205-212 | the mean of ratings in 1..5 lies in [1.00, 5.00]; the stored value lies within the schema's [0, 5] |
| Rating.VisibleRatingsAppend | controllers/reviewController.js:44-55 | appending a review adds exactly its own contribution at the end |
| Rating.VisibleRatingsUpdate | controllers/reviewController.js:129-141 | replacing a review by one that contributes the same leaves every worker's ratings unchanged |
| Rating.SingleRating | controllers/reviewController.js:205-212 | a single rating r averages to exactly r.00 |
| UserModel.NormalizeEmail | models/User.js:6-12 | the stored email is trimmed (no white space at either end) and has no upper-case letter; it is empty exactly when the given email is all white space |
| UserModel.NormalizeEmailIdempotent | models/User.js:6-12 | normalising a stored email again leaves it unchanged |
| UserModel.NewUser | models/User.js:5-117 | a new user: email normalised, names trimmed, the phone trimmed when given and absent otherwise, not verified, active, verification pending, availability within the enumeration (available), earnings and average 0, the verification token set, no reset token |
| UserModel.ServiceRadius | controllers/workerController.js:411 | `parseInt(radius) \|\| 10`: never 0, and 10 when absent |
| Text.Trim | models/User.js:23-36 | `trim`: no white space at either end, an infix of the input where the leading white space ends, and empty exactly when the input is all white space |
| Text.Utf16Length | controllers/bookingController.js:48 | JavaScript's `.length`: at least the number of characters and at most twice it, equal to it iff no character lies beyond U+FFFF and twice it iff every one does |
| Text.ParseIntOrZero | controllers/authController.js:62 | `parseInt(x) \|\| 0`: 0 when absent and 0 when the value holds no digit |
| Text.ParseIntOfDecimal | controllers/authController.js:62 | the decimal rendering of every natural number parses back to it |
| Text.ParseIntHexExample | controllers/authController.js:62 | after "0x" the digits are read in base 16: "0x1F" gives 31 |
| Text.ParseIntDecimalExample | controllers/authController.js:89 | leading white space and a sign are skipped and reading stops at the first non-digit: " -12px" gives -12 |
| BookingModel.NewBooking | models/Booking.js:5-56 | a new booking holds the given parties and fields, has status pending and finalAmount 0, and has no timestamps, reason or notes |
| ReviewModel.NewReview | models/Review.js:4-41 | a new review is visible, not edited, has no response, and its text is trimmed |
| Seqs.FirstIndex | controllers/paymentController.js:39 | the lookup behind `findById` and `findOne` on reviews and payments: the first position whose record matches, or none when no record matches |
| Store.Database.constructor | models/User.js:5-120 | an empty store satisfies every invariant |
| Store.Database.NewId | controllers/bookingController.js:56-71 | hands out the next unused id and changes nothing else |
| Store.Database.InsertBooking | controllers/bookingController.js:56-71 | stores the booking under the next id, keeps every invariant and changes nothing else |
| Store.Database.SaveUser | models/User.js:5-120 | writing back a user with the same id, email and average keeps every invariant and changes only that user |
| Store.Database.InsertUser | controllers/authController.js:120-121 | storing a new user under a fresh id, with an unused email and average 0, keeps every invariant and appends the user to the natural order |
| Store.InsertUserKeepsValid | controllers/authController.js:120-121 | a user with a fresh id and an unused email joins without breaking any invariant, since no review names the new id |
| Store.UpdateUserKeepsValid | models/User.js:5-120 | changing a user in place, with the same id, email and average, keeps every invariant |
| Store.AverageRatingsInRange | models/User.js:108-113 | in a valid store every average lies within [0, 5] |
| Store.NoReviewsNoRatings | controllers/reviewController.js:201-204 | a worker with no reviews has no visible ratings |
| Store.InsertBookingKeepsValid | controllers/bookingController.js:56-71 | a new booking under the next id, for a worker whose id is in use, keeps every invariant |
| Store.UpdateBookingKeepsValid | controllers/bookingController.js:133-135 | changing a booking's fields, keeping its parties, keeps every invariant |
| Store.UpdatePaymentKeepsValid | services/paymentService.js:52-56 | changing a payment's status or date, keeping its id, transaction id and split, keeps every invariant |
| Guards.Session.constructor | middleware/auth.js:4-10 | a new session has no user and no return address |
| Guards.IsAuthenticated | middleware/auth.js:4-10 | passes iff a user is logged in; otherwise it records the requested URL as returnTo and redirects to /login |
| Guards.IsNotAuthenticated | middleware/auth.js:13-18 | passes iff nobody is logged in, otherwise it redirects home |
| Guards.RequireRole | middleware/auth.js:21-75 | passes iff the session user's role is one of those allowed, otherwise 403 |
| Guards.IsClient | middleware/auth.js:21-32 | passes iff the role is client |
| Guards.IsWorker | middleware/auth.js:35-46 | passes iff the role is worker |
| Guards.IsAdmin | middleware/auth.js:49-60 | passes iff the role is admin |
| Guards.IsWorkerOrAdmin | middleware/auth.js:63-75 | passes iff the role is worker or admin |
| Guards.RoleGuardsPartition | middleware/auth.js:21-75 | every logged-in user passes exactly one single-role guard; worker-or-admin is the union of two of them |
| Validation.Check | middleware/validation.js:25-98 | one rule gives no error iff it holds |
| Validation.PasswordErrors | middleware/validation.js:29-39 | no errors iff the password has ≥ 8 characters, a lowercase letter, an uppercase letter, a digit and one of @$!%*?& |
| Validation.BookingErrors | middleware/validation.js:68-86 | no errors iff there is a category, a trimmed description of ≥ 10 characters, a valid date, a time and a budget ≥ 0 |
| Validation.ReviewErrors | middleware/validation.js:90-99 | no errors iff the rating is an integer in 1..5 and the trimmed text, if any, has ≤ 1000 characters |
| Validation.Request.constructor | middleware/validation.js:4-21 | a request starts without attached errors |
| Validation.Validate | middleware/validation.js:4-21 | 400 with the errors iff there are errors and the request is XHR or JSON; otherwise the errors are attached (if any) and the request continues |
| Validation.ValidDescriptionLongEnough | middleware/validation.js:72-76 | a booking that passes validation (at least 10 characters after trimming, a surrogate pair counting once) also passes the handler's `.length >= 10` test on the trimmed description the sanitiser leaves in the body |
| Validation.StrongPasswordIsStorable | middleware/validation.js:29-31 | a password the registration chain accepts also meets the schema's `minlength: 8`, which counts UTF-16 code units |
| Validation.AstralPasswordStorableNotStrong | models/User.js:13-17 | the converse fails: four emoji meet `minlength: 8` but are too short for the registration chain |
| BookingController.CreateBooking | controllers/bookingController.js:8-109 | 404 unless the worker is stored, a worker and active (checked before the fields); 400 on a falsy field (a zero JSON budget, but not the form's string "0") or a description under 10 UTF-16 code units; otherwise one pending booking from the actor to that worker is stored with the parsed budget |
| BookingController.ZeroBudgetPassesAsText | controllers/bookingController.js:40 | `!budget` lets the form's string "0" through and stops the number 0 |
| BookingController.AstralDescriptionIsLongEnough | controllers/bookingController.js:48 | `.length` counts UTF-16 code units: five emoji are five characters but length 10, so they pass the handler's test |
| BookingController.AcceptBooking | controllers/bookingController.js:112-164 | only the booking's worker, and only while the booking is pending; sets only status accepted and acceptedAt, a legal move of the lifecycle |
| BookingController.RejectBooking | controllers/bookingController.js:167-221 | the same checks as accept; sets status rejected, cancelledAt and the reason, a legal move of the lifecycle |
| BookingController.StatusUpdate | controllers/bookingController.js:254-266 | writes any status; sets completedAt when completing and keeps it otherwise; puts the notes in the worker's slot for a worker and the client's otherwise; changes no other field |
| BookingController.UpdateStatus | controllers/bookingController.js:224-282 | 404, then the party check (other roles pass); a name outside the enumeration fails the save (500, nothing changes); an absent status is saved unset and reads back as pending; otherwise the booking becomes StatusUpdate of the listed status |
| BookingController.ViewBooking | controllers/bookingController.js:285-330 | denies a client or worker who is not that party of the booking |
| BookingController.CancelBooking | controllers/bookingController.js:333-388 | 404, 403 for a client or worker who is not the party, 400 unless pending or accepted; otherwise status cancelled with the reason and the time, a legal move of the lifecycle |
| BookingController.UpdateStatusIgnoresLifecycle | controllers/bookingController.js:240-266 | updateStatus moves a completed booking back to pending, which the lifecycle forbids |
| ReviewController.Recomputed | controllers/reviewController.js:199-215 | only the worker's average changes, to the value recomputed from the visible reviews; an unknown worker changes nothing |
| ReviewController.RecomputeRestoresInvariant | controllers/reviewController.js:199-215 | recomputing the worker whose average is stale restores the derived-state invariant |
| ReviewController.RecomputeIdempotent | controllers/reviewController.js:199-215 | recomputing twice equals recomputing once |
| ReviewController.UpdateWorkerRating | controllers/reviewController.js:199-215 | one write of the recomputed average |
| ReviewController.CreateReview | controllers/reviewController.js:6-69 | 404, 403 unless the actor is the client, 400 unless completed, 400 if already reviewed; otherwise one visible, unedited review for the booking's worker, whose average is recomputed |
| ReviewController.SaveNewReview | controllers/reviewController.js:52-55 | the review joins the end under the next id, its worker's average is recomputed, and every invariant holds again |
| ReviewController.FindReviewFor | controllers/reviewController.js:35 | the review written for the booking, if any |
| ReviewController.UpdateReview | controllers/reviewController.js:72-113 | only the author; replaces the rating and the text (default ''), marks the review edited, recomputes the average |
| ReviewController.DeleteReview | controllers/reviewController.js:116-154 | only the author; the record stays but is hidden, and the average is recomputed without it |
| ReviewController.RespondToReview | controllers/reviewController.js:157-196 | only the reviewed worker; overwrites the single response slot and changes no rating |
| ReviewController.AppendReviewKeepsValid | controllers/reviewController.js:44-52 | a new review for a reviewable booking keeps every invariant except the worker's average |
| ReviewController.ReplaceReviewKeepsValid | controllers/reviewController.js:86-99 | an edited review keeps every invariant except its worker's average |
| ReviewController.ReplaceReviewKeepsRatings | controllers/reviewController.js:171-182 | a change that keeps rating and visibility keeps every invariant |
| ReviewController.SoleReviewDeterminesAverage | controllers/reviewController.js:86-99 | a worker's only visible review determines the worker's average |
| ReviewController.EditedSoleReview | controllers/reviewController.js:86-99 | a sole review edited from 5 to 3 leaves an average of 3.00 |
| PaymentService.CalculatePayment | services/paymentService.js:13-21 | the 15% split of an amount, each share rounded to the cent; for a non-negative amount both shares are non-negative and sum to the amount or one cent more, for a negative amount both are non-positive and sum to the amount or one cent less |
| PaymentService.TransactionId | services/paymentService.js:8-10 | "TXN", the decimal timestamp, then 8 upper-case hex digits |
| PaymentService.ParseTransactionId | services/paymentService.js:8-10 | reads a transaction id back into its timestamp and bytes |
| PaymentService.TransactionIdRoundTrip | services/paymentService.js:8-10 | parsing a generated id gives back its timestamp and bytes |
| PaymentService.TransactionIdInjective | services/paymentService.js:8-10 | different timestamps or bytes give different ids |
| PaymentService.CreatePayment | services/paymentService.js:24-47 | appends one pending payment carrying the split and the id; no user or booking changes; a clashing id or an absent method fails the save |
| PaymentService.Settled | services/paymentService.js:50-75 | the payment's new status and date; when completed, the worker's earnings grow by the payout and the booking's finalAmount becomes the amount |
| PaymentService.UpdatePaymentStatus | services/paymentService.js:50-75 | an unknown id returns null and changes nothing; otherwise the store becomes Settled |
| PaymentService.SettledKeepsValid | services/paymentService.js:50-75 | settling keeps every invariant |
| PaymentService.SettlingTwiceCreditsTwice | services/paymentService.js:58-63 | nothing makes completion idempotent: a second completion pays the worker again |
| PaymentService.GetWorkerEarningsSummary | services/paymentService.js:96-127 | the loop returns the sums of amount, commission and payout, and the count, over the worker's completed payments dated within [start, end] |
| PaymentService.Totals | services/paymentService.js:113-118 | the loop's running totals end as the sums of amount, commission and payout, with the count |
| PaymentService.SummaryWithinOneCentEach | services/paymentService.js:96-127 | summed commission + payout differ from the summed amount by at most one cent per payment, and never fall short of it when no amount is negative |
| PaymentController.SettledAmount | controllers/paymentController.js:48 | finalAmount when non-zero, else the budget |
| PaymentController.ProcessGuard | controllers/paymentController.js:14-45 | the guards in order; all pass iff the booking exists, is the actor's, is completed, its first payment is not completed and both parties are stored |
| PaymentController.NewPayment | controllers/paymentController.js:51-58 | the payment created: the actor as client, the booking's worker, the settled amount, pending |
| PaymentController.ProcessPayment | controllers/paymentController.js:8-95 | a failed guard answers with its response and changes nothing; otherwise exactly one payment is appended and finalised to completed |
| PaymentController.FoundAtEnd | services/paymentService.js:52-56 | an id that was absent is found at the end once appended |
| PaymentController.ProcessedCreditsOnce | controllers/paymentController.js:51-64 | a settlement appends one completed payment for the settled amount; the worker's earnings grow once by the payout; only that booking's finalAmount changes |
| PaymentController.RepeatSettlement | controllers/paymentController.js:39-45 | only the first payment found for the booking guards against a repeat: with none before, a repeat is refused; with a pending one before, a repeat passes every guard |
| PaymentController.ViewPayment | controllers/paymentController.js:98-142 | 404 when missing; a client or worker who is not the party is refused; an admin sees it |
| PaymentController.GenerateReceipt | controllers/paymentController.js:145-182 | Ok iff the payment exists and its stored client is the actor; 404 iff it is missing |
| ClientController.BuildSearchQuery | controllers/clientController.js:52-74 | the query built field by field matches a user iff the user is an active worker and satisfies every given filter |
| ClientController.PageCount | controllers/clientController.js:98-104 | ceil(total / 10) |
| ClientController.SearchMatches | controllers/clientController.js:76-96 | the matching workers in store order |
| ClientController.SearchWorkers | controllers/clientController.js:46-114 | a location the regular-expression engine rejects answers 500 "Search failed"; otherwise page p gives the matches from index (p-1)·10, at most 10, plus the page count; a page below 1 fails |
| ClientController.PagesPartitionMatches | controllers/clientController.js:49-50 | a page is exactly its slice of the matches |
| ClientController.Marker | controllers/clientController.js:162-172 | the projection: the worker's id, "first last" as the name, and coordinates; the city, or 'N/A'; the average; the hourly rate itself, or 'N/A' when absent or 0; the image, or the default avatar; the service areas |
| ClientController.ChosenForMap | controllers/clientController.js:119-159 | at most 100 active workers with coordinates; with a centre, each has non-zero coordinates within the radius |
| ClientController.WorkersForMap | controllers/clientController.js:117-179 | at most 100 markers, every one located, and each within the radius when a centre is given |
| ClientController.WorkersForMapKeepsOrder | controllers/clientController.js:143-172 | the markers keep the store order |
| ClientController.NoCentreKeepsLocatedCandidates | controllers/clientController.js:157-159 | without a centre, every located candidate among the first 100 is kept |
| WorkerController.NewSkill | controllers/workerController.js:328-332 | the pushed skill: subcategory `\|\| ''`, experience `parseInt \|\| 0` |
| WorkerController.AddSkill | controllers/workerController.js:310-341 | 400 without a category; 500 for a missing user; 400 when the category is listed; 500 with nothing saved when the stored availability is outside the enumeration; otherwise exactly one skill is appended |
| WorkerController.FindSkill | controllers/workerController.js:322 | the first skill with the category, if any |
| WorkerController.AddSkillKeepsCategoriesUnique | controllers/workerController.js:578-594 | adding keeps the categories unique |
| WorkerController.UpdateFirstSkill | controllers/workerController.js:355-357 | changes no category and no length |
| WorkerController.UpdateSkillReachesTheOnlyMatch | controllers/workerController.js:355-357 | with unique categories, the skill with the category is updated and the others are untouched |
| WorkerController.UpdateSkill | controllers/workerController.js:344-365 | 400 without a category; otherwise success, and the first skill with the category gets the new subcategory and experience, with nothing else changed |
| WorkerController.WithoutCategory | controllers/workerController.js:379-382 | `$pull`: no skill with the category remains, and every other skill is kept |
| WorkerController.DeleteSkillKeepsOrder | controllers/workerController.js:379-382 | the remaining skills keep their order and their unique categories |
| WorkerController.DeleteSkill | controllers/workerController.js:368-389 | 400 without a category; otherwise every skill with the category is removed and nothing else |
| WorkerController.AddServiceArea | controllers/workerController.js:392-431 | 400 without a city; otherwise one area is appended, with radius `parseInt \|\| 10` |
| WorkerController.WithoutCity | controllers/workerController.js:445-448 | no area with the city remains, and every other area is kept |
| WorkerController.DeleteServiceArea | controllers/workerController.js:434-456 | 400 without a city; otherwise every area with the city is removed and nothing else |
| WorkerController.AddThenDeleteArea | controllers/workerController.js:392-456 | deleting a city right after adding it gives the same list as deleting it before the add |
| WorkerController.UpdateAvailability | controllers/workerController.js:459-480 | 400 without a status; otherwise the given string is stored unchecked, so a value outside the enumeration makes every later `save()` of that user fail |
| WorkerController.UpdateRates | controllers/workerController.js:483-508 | rates become exactly the supplied hourly and daily values; an absent one is dropped |
| WorkerController.ProfileRates | controllers/workerController.js:138-153 | updateProfile replaces the rates when a rate is supplied and keeps them otherwise |
| WorkerController.RateHandlersCompared | controllers/workerController.js:138-153 | the two rate handlers agree iff a rate is supplied or the rates are empty; supplying only the hourly rate clears the daily one |
| AdminController.Decided | controllers/adminController.js:123-129 | approve verifies and sets isVerified; reject rejects and keeps isVerified; any other action changes nothing |
| AdminController.VerifyMessage | controllers/adminController.js:134 | "verified" iff the action is approve |
| AdminController.VerifyWorker | controllers/adminController.js:110-143 | 404 unless a stored worker; 500 with nothing saved when the stored availability is outside the enumeration; otherwise the decision is saved and success reported |
| AdminController.UnknownActionReportsRejection | controllers/adminController.js:123-134 | an unknown action changes nothing yet reports a rejection |
| AdminController.RejectKeepsVerifiedFlag | controllers/adminController.js:126-128 | rejecting an approved worker leaves isVerified true |
| AdminController.Toggled | controllers/adminController.js:158 | isActive flipped, nothing else changed |
| AdminController.ToggleUserStatus | controllers/adminController.js:146-173 | 404 for a missing id, with nothing changed; 500 with nothing saved when the stored availability is outside the enumeration; otherwise isActive is flipped and the new value returned |
| AdminController.ToggleTwiceRestores | controllers/adminController.js:158 | toggling twice restores the store exactly |
| AuthController.FindUser | controllers/authController.js:161 | `findOne`: the first user in natural order that satisfies the filter, or none only when no user in order does |
| AuthController.FindUserNoneMeansNobody | controllers/authController.js:32-33 | in a valid store, finding none means no stored user qualifies |
| AuthController.SessionFor | controllers/authController.js:127-133 | the session records the user's id, email and role |
| AuthController.RoleField | controllers/authController.js:52 | `role \|\| 'client'` |
| AuthController.SecondarySkillNames | controllers/authController.js:63-64 | split on commas, trimmed, empties dropped: each name is non-empty with no surrounding space |
| AuthController.PrimarySkills | controllers/authController.js:69-75 | the primary skill, with `parseInt(experience) \|\| 0` years, when given |
| AuthController.WorkerSkillsLayout | controllers/authController.js:59-83 | the primary skill comes first, then the secondary names in order, each with 0 years |
| AuthController.BuildWorkerSkills | controllers/authController.js:66-83 | the pushes build exactly WorkerSkills |
| AuthController.PushSecondarySkills | controllers/authController.js:78-83 | the `forEach` appends one skill per name, in order |
| AuthController.RegistrationMayDuplicateCategories | controllers/authController.js:59-83 | a primary skill repeated among the secondary skills is listed twice: registration does not keep categories unique |
| AuthController.ServiceAreasOf | controllers/authController.js:86-93 | one area with radius `parseInt \|\| 10` when a service city is given, else none |
| AuthController.RegisteredFields | controllers/authController.js:58-117 | workers get the skills, service area, rates and the geocoded coordinates; other roles get none and their address as given |
| AuthController.WorkerFields | controllers/authController.js:59-117 | the worker block computes exactly RegisteredFields |
| AuthController.RegisteredUser | controllers/authController.js:46-56 | the new user: the chosen role, normalised email, average 0, active, not verified, and a token expiring 24 hours later |
| AuthController.BuildUser | controllers/authController.js:41-118 | the record built before saving is exactly RegisteredUser |
| AuthController.SaveAndLogIn | controllers/authController.js:119-133 | the save appends the user under the next id and keeps every invariant; the session then holds that user and keeps its return address |
| AuthController.RegisterRejection | controllers/authController.js:11-39 | nothing is created iff there are validation errors, the confirmation differs, the email is taken or the schema rejects the record; the first three answer 400 |
| AuthController.Register | controllers/authController.js:8-144 | a rejection changes nothing; otherwise the new user is appended under the next id and logged in |
| AuthController.RoleDefaultsToClient | controllers/authController.js:52 | a form without a role registers a client, outside the worker branch |
| AuthController.RegisterAcceptsAdminRole | controllers/authController.js:52 | a visitor who asks for the admin role gets it |
| AuthController.LoginTargetIgnoresRole | controllers/authController.js:188-199 | the redirect is always returnTo or '/'; the role dashboards are never chosen |
| AuthController.Login | controllers/authController.js:147-207 | Ok iff there are no errors and an active user has the email and the password; then the session holds that user and the stored return address is consumed; otherwise 400 or 401 with the session untouched |
| AuthController.ForgotPassword | controllers/authController.js:220-252 | no user with the email: Ok and nothing changes; a known email gets a reset token valid for one hour, unless the stored availability is outside the enumeration, when the save fails (500) and nothing changes |
| AuthController.AfterReset | controllers/authController.js:272-274 | the new password, with both reset fields cleared and nothing else changed |
| AuthController.ResetPassword | controllers/authController.js:255-286 | only a matching, unexpired token works (otherwise nothing changes); a password under 8 UTF-16 code units or a stored availability outside the enumeration fails the save; otherwise the password is replaced and the token cleared |
| AuthController.ResetTokenSingleUse | controllers/authController.js:272-275 | after a reset the reset user no longer holds the used token, so no later lookup of it finds them |
| AuthController.AfterVerification | controllers/authController.js:305-307 | verified, with both verification fields cleared and nothing else changed |
| AuthController.VerifyEmail | controllers/authController.js:289-321 | only a matching, unexpired token verifies the user and clears the token, unless the stored availability is outside the enumeration, when the save fails (500); otherwise nothing changes |
| AuthController.RegistrationTokenLifetime | controllers/authController.js:42-43 | a new user's token verifies until exactly 24 hours after registration |

## Left out

- Floating point: `toFixed(2)` is modelled as exact half-up rounding on cents. Binary-float edge cases (a value such as 1.005 rounding down) are not reproduced.
- Money parsing: `parseFloat` of rate and budget strings (a string budget is carried with its parsed amount), `JSON.parse` of a booking's location, and date parsing are given as already-parsed values. `NaN` and unparsable numbers are not modelled.
- Hashing: bcrypt hashing and comparison are modelled as storing the password and comparing it by equality.
- Randomness and clocks: the random bytes of tokens and transaction ids, and `Date.now()`, are parameters.
- The network: geocoding is a parameter (the coordinates, or none on failure). The map filter's great-circle distance is a function parameter, not the trigonometry.
- Email and notifications: verification and reset emails, and notifications, are I/O and left out. A failure after a save, which answers 500 although the change persists, is not modelled.
- Concurrency: interleavings between the `await`s are not modelled. Each handler is one sequential step.
- Rendering: pages, redirects and flash messages are reduced to the `Response` kind.
- Read-only handlers: dashboards, list views, reports and `getPaymentHistory` are queries with nothing to prove.
- updateProfile: only its rates handling is modelled. Its other field assignments are not.
- Unused parts: the SupportTicket, Notification and ServiceCategory schemas are not modelled. Neither is the refunded payment status, which has no flow.
- models/AdminUser.js is not part of this model. The register and login flows are modelled as if that module loads.
- Absent request fields: an absent `email`, `token` or `password` field is not modelled. The code would hand `undefined` to a query, where the driver's treatment of it decides what matches.
- Email lookups: they compare normalised emails. The `lowercase`/`trim` setters are taken to apply to query filters as well.
- Validators: the checks `isEmail` and `isMobilePhone` are not modelled; their outcome reaches the handlers as the list of validation errors.
- Sanitisers: the validation chains rewrite the request body before the handler runs. `normalizeEmail` (registration and login) and `trim()` (names, booking description, review text) are given as already applied: the `email` of Register and Login, the names, and CreateBooking's `description` are the sanitised values. `normalizeEmail`'s own rules (lower-casing, dropping dots and `+tags` of Gmail addresses) are not modelled. forgotPassword has no sanitiser, so its raw email is compared after the schema's `trim`/`lowercase` only.
- Unicode: case folding covers ASCII letters only. White space is JavaScript's full set. Dafny strings are sequences of Unicode scalar values, so `|s|` counts a surrogate pair once, as validator.js's `isLength` does apart from its treatment of variation selectors (U+FE0E, U+FE0F), which is not modelled. JavaScript's `.length` and Mongoose's `minlength` count UTF-16 code units; `Text.Utf16Length` models that count, and UserModel.PasswordLongEnough (used by Register's `Storable` and ResetPassword) and BookingController.CreateBooking use it. Lone surrogates cannot occur in a Dafny string and are not modelled.
- ClientController.SearchWorkers / BuildSearchQuery: the location filter is `new RegExp(location, 'i')`. The model reads the location as a literal, case-insensitive substring (`ServesCity`), so metacharacters are not interpreted: "St. Louis" does not match "StX Louis" and "a|b" does not match either city. Whether the engine accepts the pattern is the parameter `locationCompiles`; a rejected pattern answers 500 before any query.
- Uploads, routes, server wiring and the browser script are not modelled.
