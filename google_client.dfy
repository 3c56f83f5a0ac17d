/**
 * The shared client context that every request holds by reference: its rate
 * limiter and its HTTP transport. Neither is modelled internally; each call
 * into them is recorded, in order, in the client's event log, and the
 * transport's answer is an input (a function of the URL and of the moment,
 * counted as the log's length, at which the call is made).
 */
module GoogleClient {
  import opened Http

  /** The rate-limiter categories (`crate::request_rate::api::Api`). */
  datatype Api = All | Directions | Elevation | Geocoding | Places | TimeZone

  /** One observable call into the client. */
  datatype Event =
    | RateLimited(apis: seq<Api>)   // `rate_limit.limit_apis(apis)`
    | HttpGet(url: string)          // `get_request(url)`

  /** `n` HTTP GETs of the same URL, one after the other. */
  function Gets(url: string, n: nat): (events: seq<Event>)
    ensures |events| == n
    ensures forall i :: 0 <= i < n ==> events[i] == HttpGet(url)
  {
    if n == 0 then [] else Gets(url, n - 1) + [HttpGet(url)]
  }

  class Client {
    /** What the server answers to a GET of a URL at a given log position. */
    const transport: (string, nat) -> TransportOutcome
    /** Every rate-limiter call and HTTP GET made through this client. */
    var log: seq<Event>

    constructor (transport: (string, nat) -> TransportOutcome)
      ensures this.transport == transport
      ensures log == []
    {
      this.transport := transport;
      log := [];
    }

    /** Waits until every named category has capacity, then takes a permit from each. */
    method LimitApis(apis: seq<Api>)
      modifies this
      ensures log == old(log) + [RateLimited(apis)]
    {
      log := log + [RateLimited(apis)];
    }

    /** Performs exactly one HTTP GET of `url`. */
    method GetRequest(url: string) returns (outcome: TransportOutcome)
      modifies this
      ensures outcome == transport(url, |old(log)|)
      ensures log == old(log) + [HttpGet(url)]
    {
      outcome := transport(url, |log|);
      log := log + [HttpGet(url)];
    }
  }
}
