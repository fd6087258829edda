/** Shared vocabulary of the marketplace model: optional values, identifiers,
    time, money and the outcome every request handler ends with. */
module Common {

  /** A value that may be absent (an unset document field, a missing form field). */
  datatype Option<+T> = None | Some(value: T)

  /** Document identifiers (Mongo ObjectIds), compared by value. */
  type Id = nat

  /** Milliseconds since the epoch, as `Date.now()` returns them. */
  type Time = int

  /** Money in integer cents: 12.34 is 1234. */
  type Cents = int

  /** The outcome a handler answers with. */
  datatype Response =
    | Ok            // 200, or the success redirect/render
    | BadRequest    // 400
    | Unauthorized  // 401
    | Forbidden     // 403
    | NotFound      // 404
    | ServerError   // 500: the store refused the write (schema validator, cast, duplicate key)

  /** JavaScript truthiness of an optional string: absent and "" are falsy. */
  predicate Truthy(s: Option<string>)
  {
    s.Some? && s.value != ""
  }
}
