/** The request rules of middleware/validation.js and the `validate` step
    that acts on their outcome. */
module Validation {
  import opened Common
  import Text
  import UserModel

  /** One failed rule: the field it checks and the message it reports. */
  datatype FieldError = FieldError(field: string, msg: string)

  const DefaultMessage: string := "Invalid value"

  predicate HasLower(s: string) { exists i :: 0 <= i < |s| && 'a' <= s[i] <= 'z' }
  predicate HasUpper(s: string) { exists i :: 0 <= i < |s| && 'A' <= s[i] <= 'Z' }
  predicate HasDigit(s: string) { exists i :: 0 <= i < |s| && Text.IsDigit(s[i]) }
  predicate IsSpecial(c: char) { c in "@$!%*?&" }
  predicate HasSpecial(s: string) { exists i :: 0 <= i < |s| && IsSpecial(s[i]) }

  /** The password policy the registration form enforces. */
  predicate StrongPassword(p: string)
  {
    |p| >= 8 && HasLower(p) && HasUpper(p) && HasDigit(p) && HasSpecial(p)
  }

  function Check(ok: bool, field: string, msg: string): (errs: seq<FieldError>)
    ensures errs == [] <==> ok
    ensures |errs| <= 1 && forall e :: e in errs ==> e.field == field
  {
    if ok then [] else [FieldError(field, msg)]
  }

  /** The `password` chain of `validateRegistration`: one message per failed test. */
  function PasswordErrors(p: string): (errs: seq<FieldError>)
    ensures errs == [] <==> StrongPassword(p)
    ensures |errs| <= 5
    ensures forall e :: e in errs ==> e.field == "password"
  {
    Check(|p| >= 8, "password", "Password must be at least 8 characters long")
    + Check(HasLower(p), "password", "Password must contain at least one lowercase letter")
    + Check(HasUpper(p), "password", "Password must contain at least one uppercase letter")
    + Check(HasDigit(p), "password", "Password must contain at least one number")
    + Check(HasSpecial(p), "password", "Password must contain at least one special character (@$!%*?&)")
  }

  /** `validateBooking`. The date and budget arrive parsed: `None` stands
      for a value that is not an ISO 8601 date or not a number. A missing
      text field is `None` and fails `notEmpty`. */
  function BookingErrors(category: Option<string>, description: Option<string>,
                         date: Option<Time>, time: Option<string>, budget: Option<Cents>): (errs: seq<FieldError>)
    ensures errs == [] <==>
      && Truthy(category)
      && description.Some? && |Text.Trim(description.value)| >= 10
      && date.Some? && Truthy(time)
      && budget.Some? && budget.value >= 0
  {
    var desc := if description.Some? then Text.Trim(description.value) else "";
    Check(Truthy(category), "serviceCategory", "Service category is required")
    + Check(desc != "", "serviceDescription", DefaultMessage)
    + Check(|desc| >= 10, "serviceDescription", "Service description must be at least 10 characters")
    + Check(date.Some?, "requestedDate", "Please provide a valid date")
    + Check(Truthy(time), "requestedTime", "Time is required")
    + Check(budget.Some? && budget.value >= 0, "budget", "Budget must be a positive number")
  }

  /** `validateReview`: `rating` arrives parsed (`None` when not an integer);
      the optional review text is trimmed and limited to 1000 characters. */
  function ReviewErrors(rating: Option<int>, reviewText: Option<string>): (errs: seq<FieldError>)
    ensures errs == [] <==>
      rating.Some? && 1 <= rating.value <= 5 && (reviewText.Some? ==> |Text.Trim(reviewText.value)| <= 1000)
  {
    Check(rating.Some? && 1 <= rating.value <= 5, "rating", "Rating must be between 1 and 5")
    + Check(reviewText.None? || |Text.Trim(reviewText.value)| <= 1000, "reviewText",
            "Review text must not exceed 1000 characters")
  }

  /** The parts of the request `validate` looks at and writes. */
  class Request {
    var xhr: bool
    var contentType: Option<string>
    var validationErrors: Option<seq<FieldError>>

    constructor (xhr: bool, contentType: Option<string>)
      ensures this.xhr == xhr && this.contentType == contentType && validationErrors.None?
    {
      this.xhr, this.contentType, validationErrors := xhr, contentType, None;
    }
  }

  datatype ValidateOutcome = Continue | Reject(errors: seq<FieldError>)

  predicate WantsJson(xhr: bool, contentType: Option<string>)
  {
    xhr || (contentType.Some? && Text.Contains(contentType.value, "application/json"))
  }

  /** `validate`: an API request with errors is answered 400 with the
      errors; a form request carries them on to the handler; a request
      without errors passes untouched. */
  method Validate(req: Request, errors: seq<FieldError>) returns (o: ValidateOutcome)
    modifies req
    ensures req.xhr == old(req.xhr) && req.contentType == old(req.contentType)
    ensures o.Reject? <==> errors != [] && WantsJson(req.xhr, req.contentType)
    ensures o.Reject? ==> o.errors == errors
    ensures o.Reject? || errors == [] ==> req.validationErrors == old(req.validationErrors)
    ensures o.Continue? && errors != [] ==> req.validationErrors == Some(errors)
  {
    if errors != [] {
      if WantsJson(req.xhr, req.contentType) {
        return Reject(errors);
      }
      req.validationErrors := Some(errors);
      return Continue;
    }
    return Continue;
  }

  /** A booking that passes `validateBooking` also passes the handler's own
      length check, which sees the trimmed description. */
  lemma ValidDescriptionLongEnough(category: Option<string>, description: Option<string>,
                                   date: Option<Time>, time: Option<string>, budget: Option<Cents>)
    requires BookingErrors(category, description, date, time, budget) == []
    ensures description.Some? && |Text.Trim(description.value)| >= 10
    ensures Text.Utf16Length(Text.Trim(description.value)) >= 10
  {
  }

  /** A password the registration chain accepts (at least 8 characters,
      a surrogate pair counting once) also meets the schema's `minlength`,
      which counts a surrogate pair twice. */
  lemma StrongPasswordIsStorable(p: string)
    requires StrongPassword(p)
    ensures UserModel.PasswordLongEnough(p)
  {
  }

  /** The converse fails: four astral characters meet `minlength: 8`, so a
      password reset (which runs no validator) stores them, while the
      registration chain rejects them as too short. */
  lemma AstralPasswordStorableNotStrong()
    ensures var p := "\U{1F600}\U{1F600}\U{1F600}\U{1F600}";
      UserModel.PasswordLongEnough(p) && !StrongPassword(p)
  {
    var p := "\U{1F600}\U{1F600}\U{1F600}\U{1F600}";
    assert forall i :: 0 <= i < |p| ==> Text.IsAstral(p[i]);
  }
}
