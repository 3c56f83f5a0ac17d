# google_maps request execution and query encoding, modelled in Dafny

This project models the request-execution core of the `google_maps` Rust client library and the
query-value encoders it relies on:

- **Place Details `get`**. It refuses to run without a built query string. It builds the URL as the
  service stem, `?` and the query, and observes the shared rate limiter once for the `All` and
  `Places` categories. Then it calls the server repeatedly. Each attempt is sorted into success,
  *transient* (try again) or *permanent* (stop), first by HTTP status and then by the API status in
  the body. The loop ends on success, on a permanent error, or when the retry budget is spent.
- **Directions `get`**. It has the same query guard, then makes exactly one blocking GET and
  deserialises whatever body comes back.
- **Place Details `with_region`**. It is an in-place setter that returns the request for chaining.
- **Directions `Location` encoding**. The value is UTF-8 encoded, then percent-encoded with every byte
  except ASCII letters and digits escaped as `%` plus two upper-case hex digits. This is
  percent-encoding as in section 2.1 of RFC 3986.
- **Elevation `Locations` serialisation**. Coordinates are rendered, each followed by `|`, and then
  every trailing `|` is trimmed. An encoded polyline is written as `enc:` followed by the polyline.
- **Geocoding errors**. The closed error enum, its display texts, `source()` and the `From`
  conversions.

The network, the rate limiter's internals and JSON deserialisation are not modelled. Their outcomes
are inputs:

- a `Client` records every rate-limiter call and every HTTP GET in an event log;
- the client's `transport` function gives the server's answer to each GET;
- `parse` functions stand for serde deserialisation.

Modules, one per file: `Wrappers` (Option/Result), `Http` (transport outcomes, status ranges),
`GoogleClient` (client, event log), `PercentEncoding` (UTF-8 and percent-encoding),
`DirectionsLocation`, `DirectionsGet`, `ElevationRequest`, `GeocodingError`, `PlaceDetailsRequest`.

Behaviour of the code that the model keeps as written:

- The rate limiter is observed once per `get`, before the retry loop. Retries are not
  rate-limited again, although a retry design usually has every attempt acquire a permit.
- No transient error carries a retry-after hint (`retry_after` is always `None`).
- Directions `get` neither retries nor looks at the HTTP status. A 4xx or 5xx answer whose body
  deserialises is returned as a response.
- The Geocoding `ZeroResults` message is written over two source lines without a line continuation.
  Its text therefore holds a line break followed by the 24 spaces of indentation of the next line.
  The model keeps that text as written.

## Model

| member | source | states |
|---|---|---|
| `PlaceDetailsRequest.Classify` | src/places/place_details/request/get.rs:52-139 | The whole decision table. Success exactly when the status is 2xx, the body reads, it deserialises and its API status is `Ok`; the success carries the deserialised response. No response at all is transient, as `Reqwest(cause)`. A 2xx body that cannot be read is permanent (`ReqwestMessage`), and so is one that does not deserialise (`SerdeJson`). A 2xx with another API status gives `GoogleMapsService(status)`, transient exactly for `UnknownError`. A non-2xx status gives `HttpUnsuccessful(status)`, transient exactly for 5xx and 429. A transient outcome never carries a retry-after hint, its error is always retryable, and a permanent outcome's never is. `QueryNotBuilt` never comes from an attempt. |
| `PlaceDetailsRequest.RetryFrom` | src/places/place_details/request/get.rs:42-46 | The loop makes at least one attempt and at most `retries + 1`. |
| `PlaceDetailsRequest.RetryStopsAtFirstSettled` | src/places/place_details/request/get.rs:42-46 | Every attempt before the last is transient. The loop ends early only on a non-transient attempt. The result is what the last attempt amounts to: its response, its permanent error, or the last transient error once the budget is spent. |
| `PlaceDetailsRequest.RetryableOnlyWhenExhausted` | src/places/place_details/request/get.rs:42-46 | `get` returns a retryable error only after using the whole budget. |
| `PlaceDetailsRequest.SucceedsOnThirdAttempt` | src/places/place_details/request/get.rs:46-141 | With two transient attempts followed by a success and a budget of at least two retries, the loop returns that success after exactly three attempts. |
| `PlaceDetailsRequest.AlwaysTransientExhausts` | src/places/place_details/request/get.rs:46-141 | When every attempt is transient, the loop makes `retries + 1` attempts and returns the last attempt's error. |
| `PlaceDetailsRequest.Request.Get` | src/places/place_details/request/get.rs:22-145 | Without a query it returns `QueryNotBuilt`, with no rate-limiter call and no GET. With query `q`, the client's log grows by exactly one rate-limiter call for `[All, Places]`, then `attempts` GETs of `stem + "?" + q`. The result and the attempt count are those of `RetryFrom`, with errors converted to the crate-wide error. |
| `PlaceDetailsRequest.Request.WithRegion` | src/places/place_details/request/with_region.rs:19-27 | Afterwards `region == Some(r)` whatever it was before. Only `region` may change; the query is kept. It returns the same request object. |
| `PlaceDetailsRequest.RegionChaining` | src/places/place_details/request/with_region.rs:24-26 | Two chained calls leave the second region (the last call wins) and the query unchanged. |
| `GoogleClient.Client.LimitApis` | src/places/place_details/request/get.rs:34-37 | One rate-limiter call is recorded with the categories it was given. |
| `GoogleClient.Client.GetRequest` | src/places/place_details/request/get.rs:49 | One GET of `url` is recorded, and the server's answer for that moment is returned. |
| `DirectionsGet.Get` | src/directions/request/get.rs:16-38 | `QueryNotBuilt` is returned exactly when there is no query; in that case nothing is fetched. Otherwise exactly one URL is fetched: `https://maps.googleapis.com/maps/api/directions/json?` followed by the query verbatim. The result is what that one answer gives. |
| `DirectionsGet.Receive` | src/directions/request/get.rs:36 | A response comes back exactly when the server answered, the body read and it deserialised, and it is the deserialised value. Every failure is a `Reqwest` error. |
| `DirectionsGet.ReceiveIgnoresStatus` | src/directions/request/get.rs:36 | The HTTP status does not affect the result. |
| `DirectionsLocation.ToQueryValue` | src/directions/request/location.rs:34-38 | The output uses only `A-Z`, `a-z`, `0-9` and `%`. Strict percent-decoding gives back the UTF-8 bytes of the location's text: the address, `lat,lng`, or `place_id:` followed by the ID. |
| `DirectionsLocation.ToQueryValueInjective` | src/directions/request/location.rs:34-38 | Locations with the same query value have the same plain text (`lat,lng`, `place_id:` + ID or the address). |
| `DirectionsLocation.PlaceIdQueryValue` | src/directions/request/location.rs:37 | A place ID encodes as `place%5Fid%3A` followed by the encoding of the ID. |
| `DirectionsLocation.PlaceIdPrefixEncoding` | src/directions/request/location.rs:37 | `place_id:` encodes as `place%5Fid%3A`. |
| `DirectionsLocation.LatLngEncoding` | src/directions/request/location.rs:36 | The text `lat,lng` encodes as the latitude's encoding, `%2C`, then the longitude's encoding. |
| `DirectionsLocation.LatLngQueryValue` | src/directions/request/location.rs:36 | A coordinate pair encodes as the latitude's encoding, `%2C`, then the longitude's encoding. |
| `PercentEncoding.Encode` | src/directions/request/location.rs:35 | Output length is the number of alphanumeric bytes plus three times the number of other bytes. Every output character is an ASCII letter, a digit or `%`. |
| `PercentEncoding.EncodeAlphanumeric` | src/directions/request/location.rs:35 | ASCII letters and digits are copied unchanged and in order. |
| `PercentEncoding.EncodeAppend` | src/directions/request/location.rs:35-37 | Encoding distributes over concatenation. |
| `PercentEncoding.DecodeEncode` | src/directions/request/location.rs:35 | Round trip: decoding the output gives back exactly the input bytes. |
| `PercentEncoding.EncodeDecode` | src/directions/request/location.rs:35 | Every string the strict decoder accepts is the encoding of what it decodes to. |
| `PercentEncoding.EncodeIffDecode` | src/directions/request/location.rs:35 | `Encode(bs) == s` if and only if `Decode(s) == Some(bs)`. |
| `PercentEncoding.Utf8Char` | src/directions/request/location.rs:35 | A character encodes as 1 to 4 bytes. An ASCII character is the single byte of its code. Every byte of a non-ASCII character is at least 0x80, so it is always escaped. |
| `PercentEncoding.Utf8` | src/directions/request/location.rs:35 | A text's UTF-8 bytes number at least one and at most four per character. |
| `PercentEncoding.Utf8Injective` | src/directions/request/location.rs:35 | Different texts have different UTF-8 bytes, so nothing is lost before percent-encoding. |
| `PercentEncoding.Utf8CharRoundTrip` | src/directions/request/location.rs:35 | Decoding a character's UTF-8 bytes gives back its code point. |
| `PercentEncoding.Utf8Append` | src/directions/request/location.rs:36-37 | UTF-8 encoding distributes over concatenation. |
| `PercentEncoding.Utf8OfAscii` | src/directions/request/location.rs:37 | An ASCII text's bytes are its character codes, one for one. |
| `ElevationRequest.TrimEndPipes` | src/elevation/request/mod.rs:83 | The result is the longest prefix of the input that does not end in `|`. Everything removed is `|`. |
| `ElevationRequest.ToQueryValue` | src/elevation/request/mod.rs:82-85 | A coordinate list's value never ends in `|`. A polyline's value is `enc:` followed by the polyline. |
| `ElevationRequest.Renderings` | src/elevation/request/mod.rs:83 | The coordinates' renderings keep list order and length. |
| `ElevationRequest.PipeTerminated` | src/elevation/request/mod.rs:83 | No renderings give the empty string. Otherwise the result is the renderings joined by `|`, with one more `|` at the end. |
| `ElevationRequest.LatLngsAreJoined` | src/elevation/request/mod.rs:83 | When every rendering is non-empty and has no `|`, the value is the renderings joined by single `|` characters. |
| `ElevationRequest.EmptyLatLngs` | src/elevation/request/mod.rs:83 | An empty list gives the empty string. |
| `ElevationRequest.SingleLatLng` | src/elevation/request/mod.rs:83 | A one-element list gives that rendering with its trailing `|` characters trimmed. A rendering not ending in `|` is returned unchanged. |
| `ElevationRequest.LatLngsSplitBack` | src/elevation/request/mod.rs:83 | For n >= 1 well-formed renderings, the value has exactly n - 1 `|` characters, and splitting it on `|` gives back the renderings. |
| `ElevationRequest.JoinSplit` | src/elevation/request/mod.rs:83 | Joined well-formed renderings have one fewer `|` than renderings and split back into them. |
| `GeocodingError.ErrorSource` | src/geocoding/error.rs:83-93 | `source()` is present exactly for `Reqwest` and `SerdeJson`, and is then the wrapped error. |
| `GeocodingError.FromReqwest` | src/geocoding/error.rs:106-114 | Wrapping a reqwest error gives back that error as `source()`. |
| `GeocodingError.FromSerdeJson` | src/geocoding/error.rs:116-124 | Wrapping a serde_json error gives back that error as `source()`. |
| `GeocodingError.Display` | src/geocoding/error.rs:30-75 | Every message starts with `Google Maps Geocoding`. A server error that carries a message `m` displays as `Google Maps Geocoding API server: ` followed by `m`, whatever the status. Without a message, the text is the status's message. |
| `GeocodingError.StatusMessage` | src/geocoding/error.rs:42-63 | Every status message, including the `Ok` one (which says `server:` without `API`), starts with `Google Maps Geocoding`. |
| `GeocodingError.StatusMessagesDistinct` | src/geocoding/error.rs:42-63 | Each of the seven statuses has its own message. |
| `GeocodingError.ZeroResultsMessageBreaksLine` | src/geocoding/error.rs:60-62 | The `ZeroResults` message starts with `Google Maps Geocoding API server: Zero results.` and a line break. |

## Left out

- HTTP transport: `get_request`, `response.text()` and `reqwest::blocking::get`. They are network I/O; their outcomes are inputs (`TransportOutcome`).
- JSON deserialisation (`serde_json::from_str`, `.json()`). It is a `parse` parameter. The Places response is reduced to its status and an opaque payload.
- The backoff schedule (`ExponentialBackoff::default()`). It uses wall-clock time, random jitter and floating-point multipliers. The model replaces it with an abstract budget, `retries`: the number of attempts allowed after the first one. Sleeping between attempts is not modelled.
- The rate limiter's implementation and its token buckets. The `request_rate` module is not part of this model; only the call site is recorded.
- `async`/`await`, concurrency, `tracing` logging and the `println!` in Directions `get`.
- `PlaceDetailsRequest.Classify`: `HttpUnsuccessful` carries the numeric status rather than the status's text rendering (`"404 Not Found"`).
- `PlaceDetailsRequest.Request.Get`: the Places `Status` enum, `crate::error::Error`, and the `SERVICE_URL` and `OUTPUT_FORMAT` constants are declared in files that are not part of this model. The model uses Google's documented Places statuses and the `https://maps.googleapis.com/maps/api/place/details` + `json` endpoint. It gives the crate-wide error a single place-details variant.
- `DirectionsGet.Get`: the Directions error enum and its `From` conversions are not part of this model. Transport, body and decoding failures are all modelled as `Reqwest`, because `.json()` reports them as `reqwest::Error`.
- Float formatting: `{:.7}` for Directions coordinates and the elevation `LatLng` rendering, whose source is not shown. A Directions coordinate is held as its rendered text. The elevation coordinate type and its rendering are parameters.
- `Region` and its `Into<Region>` conversion: their type is not shown, so a region is an opaque code.
- The Elevation `Request` record is declared with its fields. Nothing in its file changes them. The 0..=255 bound on `samples` is carried by its type, `U8`.
- `src/lib.rs` (module declarations and doc examples that make live calls) and `src/directions/response/distance.rs` (a plain data record).
- The builder state machine (`validate`, `build`) and the other per-API request files are not part of this model.
