/**
 * The exceptions the core raises or lets escape.
 *
 * `InstagramError` is the application's own exception class (a message and an
 * HTTP-like status code, 400 by default); `ValueError` is what the input
 * classifier raises.  The two other kinds stand for Python faults the source
 * does not raise on purpose but can meet: looking up a field of `None`
 * (AttributeError), indexing a missing key (KeyError), iterating or
 * multiplying `None` (TypeError), an undecodable body (JSONDecodeError), and
 * the exceptions of the HTTP library raised outside `_request`.
 */
module Errors {

  datatype ShapeFault = AttributeError | KeyError | TypeError | JsonDecodeError

  datatype TransportFault = TimedOut | ConnectionFailed | OtherRequestFailure

  datatype Exception =
    | InstagramError(message: string, status: int)
    | ValueError(message: string)
    | ShapeError(fault: ShapeFault)
    | TransportError(kind: TransportFault)
}
