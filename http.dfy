/**
 * What an Express handler can do with a request: send a response, or hand an
 * error to `next`; and, for a middleware, call `next()` to let the request through.
 */
module Http {
  import opened Wrappers

  /** One failing schema path and the message of its first failing validator. */
  datatype FieldError = FieldError(path: string, message: string)

  /**
   * The error a handler passes to `next`. The source wraps every failure as
   * `new Error(err.message)`; the kinds below keep apart what that message
   * is made from.
   */
  datatype Error =
    | Message(text: string)                   // a literal message, or one passed through from a library
    | ValidationFailed(errors: seq<FieldError>) // a Mongoose ValidationError
    | DuplicateKey(path: string)              // a unique-index violation reported by the database

  /** A handler either sends a response or calls `next(err)`. */
  datatype Outcome<P> = Sent(status: nat, payload: P) | NextError(error: Error)

  /** A middleware either calls `next()` or `next(err)`. */
  datatype Next = Proceed | NextWithError(error: Error)

  /** The request body, as a JSON object whose fields are strings. */
  type Body = map<string, string>

  /** `req.body.<key>`: `undefined` when the field is absent. */
  function Field(body: Body, key: string): Option<string>
  {
    if key in body then Some(body[key]) else None
  }
}
