/** The response shapes the handlers fetch and cache, the errors of the
    Google API clients, and what a handler writes back. */
module Api {
  import opened Wrappers
  import TtlCache
  import Time

  /** `Prediction`: one autocomplete suggestion. */
  datatype Prediction = Prediction(description: string, placeId: string)

  /** `AutocompleteResponse`. */
  datatype AutocompleteResponse =
    AutocompleteResponse(predictions: seq<Prediction>, status: string, errorMessage: string)

  /** `GeocodingResult`, without its floating-point geometry and its address
      components. */
  datatype GeocodingResult = GeocodingResult(formattedAddress: string, placeId: string, types: seq<string>)

  /** `GeocodingResponse`. */
  datatype GeocodingResponse = GeocodingResponse(results: seq<GeocodingResult>, status: string)

  /** The values the handlers put in the shared cache, which stores them as
      `interface{}`. */
  datatype Payload =
    | AutocompletePayload(autocomplete: AutocompleteResponse)
    | GeocodingPayload(geocoding: GeocodingResponse)

  /** Why fetching from an external API failed. `Transport` stands for every
      failure of the HTTP round trip: the request, reading the body, a
      non-200 status code, or a body that does not decode. */
  datatype FetchError =
    | MissingApiKey
    | ApiStatus(status: string)
    | Transport(message: string)

  /** The text of `err.Error()`. The two Google errors have fixed texts, and
      the status of a rejected answer can be read back from its text. */
  function ErrorText(e: FetchError): (t: string)
    ensures e.MissingApiKey? ==> t == "Google API key is not set"
    ensures e.ApiStatus? ==> |t| == |StatusErrorPrefix| + |e.status| &&
                             t[..|StatusErrorPrefix|] == StatusErrorPrefix && t[|StatusErrorPrefix|..] == e.status
    ensures e.Transport? ==> t == e.message
  {
    match e
    case MissingApiKey => "Google API key is not set"
    case ApiStatus(status) => StatusErrorPrefix + status
    case Transport(message) => message
  }

  /** What `fmt.Errorf("Google API error: %s", ...)` puts before the status. */
  const StatusErrorPrefix: string := "Google API error: "

  /** Two rejected statuses give the same error text only when they are the
      same status, and no status text is the missing-key text. */
  lemma StatusErrorTextInjective(s1: string, s2: string)
    ensures ErrorText(ApiStatus(s1)) == ErrorText(ApiStatus(s2)) ==> s1 == s2
    ensures ErrorText(ApiStatus(s1)) != ErrorText(MissingApiKey)
  {
    if ErrorText(ApiStatus(s1)) == ErrorText(ApiStatus(s2)) {
      assert s1 == ErrorText(ApiStatus(s1))[|StatusErrorPrefix|..];
    }
    assert ErrorText(MissingApiKey)[11] == 'k';
    assert ErrorText(ApiStatus(s1))[11] == StatusErrorPrefix[11] == 'e';
  }

  /** The two statuses the Google APIs report for a usable answer. */
  predicate StatusAccepted(status: string) {
    status == "OK" || status == "ZERO_RESULTS"
  }

  /** What a handler writes: the encoded body, an `http.Error` with status 400
      or 500, or a panic from a failed type assertion. */
  datatype Reply<+T> =
    | Ok(body: T)
    | BadRequest(message: string)
    | ServerError(message: string)
    | Panic

  /** One request served against the shared cache: the cache afterwards, the
      reply, and whether the lookup missed so that the handler ran its fetch
      function (`getGeocodingData` or `getAutocompleteSuggestions`). The fetch
      function itself makes no HTTP request when the API key is empty. */
  datatype Step<+T> = Step(cache: TtlCache.Cache<Payload>, reply: Reply<T>, fetched: bool)

  /** Twenty-four hours, the lifetime the handlers give every cached answer. */
  const CacheTtl: Time.Int64 := 24 * Time.Hour
}
