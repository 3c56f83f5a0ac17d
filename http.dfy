/**
 * What one HTTP GET can come back with, as seen by the request code.
 * The network itself is not modelled: these values are inputs.
 */
module Http {

  /** The body of a response, once the client has tried to read it as text. */
  datatype Body =
    | Text(text: string)            // `response.text()` succeeded
    | Unreadable(message: string)   // `response.text()` failed; its error's display text

  /** The outcome of one call into the HTTP client. */
  datatype TransportOutcome =
    | NoResponse(cause: string)                // connection, DNS, TLS or timeout failure
    | Received(status: int, body: Body)        // the server answered with this status

  /** `StatusCode::is_success`: the 2xx range. */
  predicate IsSuccess(status: int) {
    200 <= status < 300
  }

  /** `StatusCode::is_server_error`: the 5xx range. */
  predicate IsServerError(status: int) {
    500 <= status < 600
  }

  /** HTTP 429 Too Many Requests. */
  const TooManyRequests: int := 429
}
