/** The gateway client's error class (lib/PaymentServiceError.ts) and the
    values a JavaScript `catch` clause can receive. */
module ServiceError {
  import opened Wrappers

  /** A JSON error body. Only its `message` property is ever read; any other
      properties are carried along as opaque text. A `message` is truthy when
      it is present and not the empty string. */
  datatype ErrorData = ErrorData(message: Option<string>, otherProperties: map<string, string>)

  /** `new PaymentServiceError(message, statusCode?, responseData?)`: an `Error`
      whose message is passed to the `Error` constructor unchanged. */
  datatype PaymentServiceError = PaymentServiceError(
    message: string,
    statusCode: Option<int>,
    responseData: Option<ErrorData>)
  {
    /** The `name` property the constructor assigns. */
    function Name(): string {
      "PaymentServiceError"
    }
  }

  /** A value caught by a `catch` clause: a `PaymentServiceError`, any other
      `Error` (with its `name` and `message`), or a thrown non-`Error` value. */
  datatype Thrown =
    | ServiceFailure(error: PaymentServiceError)
    | PlainError(name: string, message: string)
    | NonError

  /** `value instanceof Error`: `PaymentServiceError` extends `Error`. */
  predicate IsError(t: Thrown) {
    t.ServiceFailure? || t.PlainError?
  }

  /** The `message` property of a caught `Error`. */
  function MessageOf(t: Thrown): string
    requires IsError(t)
  {
    match t
    case ServiceFailure(e) => e.message
    case PlainError(_, m) => m
  }

  /** The `name` property of a caught `Error`. */
  function NameOf(t: Thrown): string
    requires IsError(t)
  {
    match t
    case ServiceFailure(e) => e.Name()
    case PlainError(n, _) => n
  }

  /** `new PaymentServiceError(prefix + message)`, what each public gateway
      operation throws in place of the error it caught: the caught value is
      always an `Error`, so its message is kept, and no status code or body
      survives. */
  function Rewrap(prefix: string, e: PaymentServiceError): (r: PaymentServiceError)
    ensures |prefix| <= |r.message| && r.message[..|prefix|] == prefix && r.message[|prefix|..] == e.message
    ensures r.statusCode.None? && r.responseData.None?
  {
    var caught := ServiceFailure(e);
    PaymentServiceError(prefix + (if IsError(caught) then MessageOf(caught) else "Unknown error"), None, None)
  }
}
