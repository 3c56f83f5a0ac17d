/**
 * `directions::Request::get`: refuses to run without a built query string,
 * otherwise sends exactly one blocking HTTP GET of the fixed service URL
 * followed by the query, and deserialises whatever body comes back.
 */
module DirectionsGet {
  import opened Wrappers
  import opened Http

  const ServiceUrl: string := "https://maps.googleapis.com/maps/api/directions"
  const OutputFormat: string := "json"

  /** The part of every Directions request URL that comes before the query. */
  const UrlStem: string := ServiceUrl + "/" + OutputFormat + "?"

  /** The errors `get` can return. */
  datatype Error =
    | QueryNotBuilt           // no query string has been built yet
    | Reqwest(cause: string)  // the HTTP client failed, or the body did not deserialise

  /** The part of the request state that `get` reads. */
  datatype Request = Request(query: Option<string>)

  /**
   * `reqwest::blocking::get(uri)?.json()?` once the answer is in: a transport
   * failure, an unreadable body and a body that does not deserialise all
   * become `Reqwest`; the HTTP status is not looked at.
   */
  function Receive<R>(outcome: TransportOutcome, parse: string -> Result<R, string>): (r: Result<R, Error>)
    ensures r.Ok? <==> outcome.Received? && outcome.body.Text? && parse(outcome.body.text).Ok?
    ensures r.Ok? ==> r.value == parse(outcome.body.text).value
    ensures r.Err? ==> r.error.Reqwest?
  {
    match outcome
    case NoResponse(cause) => Err(Reqwest(cause))
    case Received(_, Unreadable(message)) => Err(Reqwest(message))
    case Received(_, Text(text)) =>
      match parse(text)
      case Ok(response) => Ok(response)
      case Err(message) => Err(Reqwest(message))
  }

  /** Two answers that differ only in their HTTP status are received alike. */
  lemma ReceiveIgnoresStatus<R>(s: int, t: int, body: Body, parse: string -> Result<R, string>)
    ensures Receive(Received(s, body), parse) == Receive(Received(t, body), parse)
  {
  }

  /**
   * `Request::get`. `fetch` is what the server answers to a GET of a URL;
   * `requested` lists the URLs fetched, in order.
   */
  method Get<R>(request: Request, fetch: string -> TransportOutcome, parse: string -> Result<R, string>)
    returns (r: Result<R, Error>, requested: seq<string>)
    ensures request.query.None? <==> r == Err(QueryNotBuilt)
    ensures request.query.None? ==> requested == []
    ensures request.query.Some? ==>
              && requested == [UrlStem + request.query.value]
              && r == Receive(fetch(requested[0]), parse)
  {
    var uri := UrlStem;
    requested := [];
    match request.query {
      case Some(query) =>
        uri := uri + query;
      case None =>
        return Err(QueryNotBuilt), requested;
    }
    var outcome := fetch(uri);
    requested := requested + [uri];
    r := Receive(outcome, parse);
  }
}
