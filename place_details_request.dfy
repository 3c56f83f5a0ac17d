/**
 * A Places API Place Details request: the `with_region` setter and `get`,
 * which builds the URL, observes the rate limiter once, then calls the server
 * until an attempt succeeds, fails permanently, or the retry budget is spent.
 */
module PlaceDetailsRequest {
  import opened Wrappers
  import opened Http
  import opened GoogleClient

  /** The status the Places API reports in its response body. */
  datatype PlacesStatus =
    | InvalidRequest | NotFound | Ok | OverQueryLimit | RequestDenied | UnknownError | ZeroResults

  /** A deserialised Place Details response: its status and the rest of the payload. */
  datatype Response = Response(status: PlacesStatus, details: string)

  /** `place_details::Error`, as far as `get` produces it. */
  datatype Error =
    | QueryNotBuilt                                                     // `get` before `build`
    | GoogleMapsService(status: PlacesStatus, message: Option<string>)  // the API said no
    | HttpUnsuccessful(httpStatus: int)                                 // a non-2xx HTTP status
    | Reqwest(cause: string)                                            // no response at all
    | ReqwestMessage(text: string)                                      // the body could not be read
    | SerdeJson(cause: string)                                          // the body did not deserialise

  /** The crate-wide error `get` returns: place-details errors converted by `?`. */
  datatype GoogleMapsError = PlaceDetails(error: Error)

  /** A ccTLD region code. */
  datatype Region = Region(code: string)

  /** What one attempt amounts to for the retry loop (`backoff::Error` or success). */
  datatype Attempt =
    | Success(response: Response)
    | Transient(err: Error, retryAfter: Option<nat>)
    | Permanent(err: Error)

  const ServiceUrl: string := "https://maps.googleapis.com/maps/api/place/details"
  const OutputFormat: string := "json"

  /** The part of every Place Details request URL that comes before the query. */
  const UrlStem: string := ServiceUrl + "/" + OutputFormat + "?"

  /** The rate-limiter categories a Place Details request draws on. */
  const Categories: seq<Api> := [All, Places]

  /**
   * The errors worth another attempt: no response at all, a server error or
   * 429 status, and the API's own "unknown error".
   */
  predicate Retryable(e: Error) {
    match e
    case Reqwest(_) => true
    case HttpUnsuccessful(code) => IsServerError(code) || code == TooManyRequests
    case GoogleMapsService(status, _) => status == UnknownError
    case _ => false
  }

  /** The per-attempt decision: success, retry, or stop. */
  function Classify(outcome: TransportOutcome, parse: string -> Result<Response, string>): (r: Attempt)
    ensures r.Success? <==>
              && outcome.Received? && IsSuccess(outcome.status) && outcome.body.Text?
              && parse(outcome.body.text).Ok? && parse(outcome.body.text).value.status == PlacesStatus.Ok
    ensures r.Success? ==> r.response == parse(outcome.body.text).value
    ensures r.Transient? ==> Retryable(r.err) && r.retryAfter.None?
    ensures r.Permanent? ==> !Retryable(r.err)
    ensures !r.Success? ==> r.err != QueryNotBuilt
    ensures outcome.Received? && !IsSuccess(outcome.status) ==> r.err == HttpUnsuccessful(outcome.status)
    // no response at all is worth another attempt
    ensures outcome.NoResponse? ==> r == Transient(Reqwest(outcome.cause), None)
    // a 2xx whose body cannot be read, or does not deserialise, is never retried
    ensures outcome.Received? && IsSuccess(outcome.status) && outcome.body.Unreadable? ==>
              r == Permanent(ReqwestMessage(outcome.body.message))
    ensures outcome.Received? && IsSuccess(outcome.status) && outcome.body.Text? && parse(outcome.body.text).Err? ==>
              r == Permanent(SerdeJson(parse(outcome.body.text).error))
    // a 2xx with an API status other than `Ok` is retried exactly for `UnknownError`
    ensures outcome.Received? && IsSuccess(outcome.status) && outcome.body.Text? && parse(outcome.body.text).Ok? &&
            parse(outcome.body.text).value.status != PlacesStatus.Ok ==>
              var status := parse(outcome.body.text).value.status;
              r.err == GoogleMapsService(status, None) && (r.Transient? <==> status == UnknownError)
  {
    match outcome
    case NoResponse(cause) => Transient(Reqwest(cause), None)
    case Received(status, body) =>
      if IsSuccess(status) then
        match body
        case Unreadable(message) => Permanent(ReqwestMessage(message))
        case Text(text) =>
          match parse(text)
          case Err(cause) => Permanent(SerdeJson(cause))
          case Ok(response) =>
            if response.status == PlacesStatus.Ok then Success(response)
            else
              var error := GoogleMapsService(response.status, None);
              if response.status == UnknownError then Transient(error, None) else Permanent(error)
      else if IsServerError(status) || status == TooManyRequests then
        Transient(HttpUnsuccessful(status), None)
      else
        Permanent(HttpUnsuccessful(status))
  }

  /** What `get` returns for an attempt that ends the loop. */
  function Verdict(a: Attempt): Result<Response, Error>
  {
    match a
    case Success(response) => Result.Ok(response)
    case Transient(err, _) => Err(err)
    case Permanent(err) => Err(err)
  }

  /** How a run of the retry loop ends, and after how many attempts. */
  datatype Run = Run(result: Result<Response, Error>, attempts: nat)

  /** The classification of attempt `k` of a GET of `url` whose first attempt is at log position `start`. */
  function AttemptAt(transport: (string, nat) -> TransportOutcome, parse: string -> Result<Response, string>,
                     url: string, start: nat, k: nat): Attempt
  {
    Classify(transport(url, start + k), parse)
  }

  /**
   * The retry loop from attempt `k` on, when `retries` attempts may follow
   * the first one: stop on success or a permanent error, go on after a
   * transient error while the budget lasts, else give up with that error.
   */
  function RetryFrom(transport: (string, nat) -> TransportOutcome, parse: string -> Result<Response, string>,
                     url: string, start: nat, retries: nat, k: nat): (run: Run)
    requires k <= retries
    ensures k < run.attempts <= retries + 1
    decreases retries - k
  {
    match AttemptAt(transport, parse, url, start, k)
    case Success(response) => Run(Result.Ok(response), k + 1)
    case Permanent(err) => Run(Err(err), k + 1)
    case Transient(err, _) =>
      if k < retries then RetryFrom(transport, parse, url, start, retries, k + 1)
      else Run(Err(err), k + 1)
  }

  /**
   * The loop stops at the first attempt that is not transient, or when the
   * budget is spent, and returns what that last attempt amounts to.
   */
  lemma {:induction false} RetryStopsAtFirstSettled(
    transport: (string, nat) -> TransportOutcome, parse: string -> Result<Response, string>,
    url: string, start: nat, retries: nat, k: nat)
    requires k <= retries
    ensures var run := RetryFrom(transport, parse, url, start, retries, k);
      && (forall j :: k <= j < run.attempts - 1 ==> AttemptAt(transport, parse, url, start, j).Transient?)
      && (run.attempts <= retries ==> !AttemptAt(transport, parse, url, start, run.attempts - 1).Transient?)
      && run.result == Verdict(AttemptAt(transport, parse, url, start, run.attempts - 1))
    decreases retries - k
  {
    if AttemptAt(transport, parse, url, start, k).Transient? && k < retries {
      RetryStopsAtFirstSettled(transport, parse, url, start, retries, k + 1);
    }
  }

  /** A retryable error is only ever returned once the budget is spent. */
  lemma RetryableOnlyWhenExhausted(
    transport: (string, nat) -> TransportOutcome, parse: string -> Result<Response, string>,
    url: string, start: nat, retries: nat)
    ensures var run := RetryFrom(transport, parse, url, start, retries, 0);
      run.result.Err? && Retryable(run.result.error) ==> run.attempts == retries + 1
  {
    RetryStopsAtFirstSettled(transport, parse, url, start, retries, 0);
  }

  /** Two transient attempts, then a success: the loop returns it after exactly three attempts. */
  lemma {:induction false} SucceedsOnThirdAttempt(
    transport: (string, nat) -> TransportOutcome, parse: string -> Result<Response, string>,
    url: string, start: nat, retries: nat)
    requires retries >= 2
    requires AttemptAt(transport, parse, url, start, 0).Transient?
    requires AttemptAt(transport, parse, url, start, 1).Transient?
    requires AttemptAt(transport, parse, url, start, 2).Success?
    ensures RetryFrom(transport, parse, url, start, retries, 0)
            == Run(Result.Ok(AttemptAt(transport, parse, url, start, 2).response), 3)
  {
    assert RetryFrom(transport, parse, url, start, retries, 0) == RetryFrom(transport, parse, url, start, retries, 1);
    assert RetryFrom(transport, parse, url, start, retries, 1) == RetryFrom(transport, parse, url, start, retries, 2);
  }

  /** When every attempt is transient, the loop gives up with the last error after `retries + 1` attempts. */
  lemma AlwaysTransientExhausts(
    transport: (string, nat) -> TransportOutcome, parse: string -> Result<Response, string>,
    url: string, start: nat, retries: nat)
    requires forall j :: 0 <= j <= retries ==> AttemptAt(transport, parse, url, start, j).Transient?
    ensures var run := RetryFrom(transport, parse, url, start, retries, 0);
      && run.attempts == retries + 1
      && run.result == Err(AttemptAt(transport, parse, url, start, retries).err)
  {
    RetryStopsAtFirstSettled(transport, parse, url, start, retries, 0);
  }

  class Request {
    /** The client every call goes through. */
    const client: Client
    /** The query string, once built. */
    var query: Option<string>
    /** The region parameter. */
    var region: Option<Region>

    constructor (client: Client)
      ensures this.client == client
      ensures query == None && region == None
    {
      this.client := client;
      query := None;
      region := None;
    }

    /** `with_region`: sets the region, leaves everything else alone, and returns this request. */
    method WithRegion(region: Region) returns (self: Request)
      modifies this`region
      ensures self == this
      ensures this.region == Some(region)
      ensures query == old(query)
    {
      this.region := Some(region);
      self := this;
    }

    /**
     * `get`. `parse` is the JSON deserialiser; `retries` is how many attempts
     * the backoff schedule allows after the first one.
     */
    method Get(parse: string -> Result<Response, string>, retries: nat)
      returns (r: Result<Response, GoogleMapsError>, attempts: nat)
      modifies client
      ensures query.None? ==> r == Err(PlaceDetails(QueryNotBuilt)) && attempts == 0
      ensures query.None? ==> client.log == old(client.log)
      ensures query.Some? ==>
        var url := UrlStem + query.value;
        var run := RetryFrom(client.transport, parse, url, |old(client.log)| + 1, retries, 0);
        && attempts == run.attempts
        && r == (match run.result case Ok(response) => Result.Ok(response) case Err(e) => Err(PlaceDetails(e)))
        && client.log == old(client.log) + [RateLimited(Categories)] + Gets(url, attempts)
    {
      var url := UrlStem;
      match query {
        case Some(q) =>
          url := url + q;
        case None =>
          return Err(PlaceDetails(QueryNotBuilt)), 0;
      }

      client.LimitApis(Categories);

      ghost var start := |client.log|;
      ghost var before := client.log;
      attempts := 0;
      var done := false;
      r := Err(PlaceDetails(QueryNotBuilt));
      while !done
        invariant attempts <= retries + 1
        invariant client.log == before + Gets(url, attempts)
        invariant !done ==> attempts <= retries
        invariant !done ==> RetryFrom(client.transport, parse, url, start, retries, attempts)
                             == RetryFrom(client.transport, parse, url, start, retries, 0)
        invariant done ==>
          var run := RetryFrom(client.transport, parse, url, start, retries, 0);
          && attempts == run.attempts
          && r == (match run.result case Ok(response) => Result.Ok(response) case Err(e) => Err(PlaceDetails(e)))
        decreases retries + 1 - attempts, !done
      {
        var outcome := client.GetRequest(url);
        assert outcome == client.transport(url, start + attempts);
        var attempt := Classify(outcome, parse);
        attempts := attempts + 1;
        match attempt {
          case Success(response) =>
            r := Result.Ok(response);
            done := true;
          case Permanent(err) =>
            r := Err(PlaceDetails(err));
            done := true;
          case Transient(err, _) =>
            if attempts > retries {
              r := Err(PlaceDetails(err));
              done := true;
            }
        }
      }
    }
  }

  /** Setting a region twice, or chaining two calls, leaves the last region and the query as they were meant. */
  method RegionChaining(request: Request, first: Region, second: Region)
    modifies request
    ensures request.region == Some(second)
    ensures request.query == old(request.query)
  {
    var same := request.WithRegion(first);
    var again := same.WithRegion(second);
    assert again == request;
  }
}
