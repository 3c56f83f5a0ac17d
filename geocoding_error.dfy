/**
 * The errors of the Geocoding API client: the variants, the text each one
 * displays as (`Display::fmt`), the underlying library error each one
 * exposes (`Error::source`) and the conversions that wrap library errors.
 */
module GeocodingError {
  import opened Wrappers

  /** The status the Geocoding API server reports. */
  datatype Status =
    | InvalidRequest | Ok | OverDailyLimit | OverQueryLimit | RequestDenied | UnknownError | ZeroResults

  /** A `reqwest::Error`, known here by the text it displays as. */
  datatype ReqwestError = ReqwestError(text: string)

  /** A `serde_json::Error`, known here by the text it displays as. */
  datatype SerdeJsonError = SerdeJsonError(text: string)

  datatype Error =
    | AddressOrComponentsRequired
    | GoogleMapsGeocodingServer(status: Status, message: Option<string>)
    | QueryNotBuilt
    | RequestNotValidated
    | Reqwest(reqwestError: ReqwestError)
    | SerdeJson(serdeJsonError: SerdeJsonError)

  /** The library error `source()` points at. */
  datatype Source = ReqwestSource(reqwestError: ReqwestError) | SerdeJsonSource(serdeJsonError: SerdeJsonError)

  /** Every message the client displays starts with this. */
  const Brand: string := "Google Maps Geocoding"

  /** The start of every message about what the server answered. */
  const ServerPrefix: string := Brand + " API server: "

  /** `Error::source`: only errors that wrap a library error have a source. */
  function ErrorSource(e: Error): (r: Option<Source>)
    ensures r.Some? <==> e.Reqwest? || e.SerdeJson?
    ensures e.Reqwest? ==> r == Some(ReqwestSource(e.reqwestError))
    ensures e.SerdeJson? ==> r == Some(SerdeJsonSource(e.serdeJsonError))
  {
    match e
    case AddressOrComponentsRequired => None
    case GoogleMapsGeocodingServer(_, _) => None
    case RequestNotValidated => None
    case Reqwest(error) => Some(ReqwestSource(error))
    case SerdeJson(error) => Some(SerdeJsonSource(error))
    case QueryNotBuilt => None
  }

  /** `From<reqwest::Error>`: the wrapped error is what `source()` gives back. */
  function FromReqwest(error: ReqwestError): (e: Error)
    ensures ErrorSource(e) == Some(ReqwestSource(error))
  {
    Reqwest(error)
  }

  /** `From<serde_json::Error>`: the wrapped error is what `source()` gives back. */
  function FromSerdeJson(error: SerdeJsonError): (e: Error)
    ensures ErrorSource(e) == Some(SerdeJsonSource(error))
  {
    SerdeJson(error)
  }

  /**
   * The message for each status when the server gave no message. The
   * `ZeroResults` text keeps, as the library writes it, a line break and the
   * indentation of the line that follows it.
   */
  function StatusMessage(status: Status): (r: string)
    ensures Brand <= r
  {
    match status
    case InvalidRequest =>
      ServerPrefix + "Invalid request. This may indicate that the query (address, components, or latlng) "
      + "is missing, an invalid result type, or an invalid location type."
    case Ok =>
      Brand + " server: Ok. The request was successful."
    case OverDailyLimit =>
      ServerPrefix + "Over daily limit. Usage cap has been exceeded, API key is invalid, "
      + "billing has not been enabled, or method of payment is no longer valid."
    case OverQueryLimit =>
      ServerPrefix + "Over query limit. Requestor has exceeded quota."
    case RequestDenied =>
      ServerPrefix + "Request denied Service did not complete the request."
    case UnknownError =>
      ServerPrefix + "Unknown error."
    case ZeroResults =>
      ServerPrefix + "Zero results.\n                        "
      + "This may occur if the geocoder was passed a non-existent address."
  }

  /** A message of this client: the brand, then the rest of the text. */
  function Branded(rest: string): (r: string)
    ensures Brand <= r
  {
    Brand + rest
  }

  const AddressOrComponentsRequiredText: string :=
    " API client library: Forward geocoding requests must specify an `address` or at least one "
    + "`component`. Ensure that the with_address() and/or with_component methods are being called "
    + "before run()."

  const RequestNotValidatedText: string :=
    " API client library: The request must be validated before a query string may be built. "
    + "Ensure the validate() method is called before build()."

  const QueryNotBuiltText: string :=
    " API client library: The query string must be built before the request may be sent to the "
    + "Google Cloud Maps Platform. Ensure the build() method is called before run()."

  /** `Display::fmt`. */
  function Display(e: Error): (r: string)
    ensures Brand <= r
    ensures e.GoogleMapsGeocodingServer? && e.message.Some? ==> r == ServerPrefix + e.message.value
    ensures e.GoogleMapsGeocodingServer? && e.message.None? ==> r == StatusMessage(e.status)
  {
    match e
    case AddressOrComponentsRequired => Branded(AddressOrComponentsRequiredText)
    case GoogleMapsGeocodingServer(status, message) =>
      (match message
       case Some(m) => ServerPrefix + m
       case None => StatusMessage(status))
    case RequestNotValidated => Branded(RequestNotValidatedText)
    case Reqwest(error) => Branded(" API client in the Reqwest library: " + error.text)
    case SerdeJson(error) => Branded(" API client in the Serde JSON library: " + error.text)
    case QueryNotBuilt => Branded(QueryNotBuiltText)
  }

  /**
   * The length of each status's message. This table is only a proof device:
   * no two lengths are alike, which is the cheapest way to show that no two
   * messages are alike.
   */
  function StatusMessageLength(status: Status): nat
  {
    match status
    case InvalidRequest => 181
    case Ok => 61
    case OverDailyLimit => 171
    case OverQueryLimit => 81
    case RequestDenied => 86
    case UnknownError => 48
    case ZeroResults => 137
  }

  lemma StatusMessageHasLength(status: Status)
    ensures |StatusMessage(status)| == StatusMessageLength(status)
  {
  }

  /** With no server message, each status has its own message. */
  lemma StatusMessagesDistinct(a: Status, b: Status)
    requires a != b
    ensures StatusMessage(a) != StatusMessage(b)
  {
    StatusMessageHasLength(a);
    StatusMessageHasLength(b);
  }

  /** The `ZeroResults` message breaks its line right after "Zero results.". */
  lemma ZeroResultsMessageBreaksLine()
    ensures ServerPrefix + "Zero results.\n" <= StatusMessage(ZeroResults)
  {
  }
}
