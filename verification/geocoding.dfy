/** `googleGeocodingHandler` and `getGeocodingData`: geocoding through the
    Google API with the shared cache in front of it. */
module GoogleGeocoding {
  import opened Wrappers
  import opened Time
  import opened Api
  import TtlCache

  const KeyPrefix: string := "google_geocoding:"

  /** The cache key of a geocoding request for `address`. */
  function CacheKey(address: string): (k: string)
    ensures |k| == |KeyPrefix| + |address|
    ensures k[..|KeyPrefix|] == KeyPrefix && k[|KeyPrefix|..] == address
  {
    KeyPrefix + address
  }

  /** Different addresses never share a cache entry. */
  lemma CacheKeyInjective(a: string, b: string)
    requires CacheKey(a) == CacheKey(b)
    ensures a == b
  {
    assert a == CacheKey(a)[|KeyPrefix|..];
  }

  /** The HTTP and JSON part of `getGeocodingData`, which this model does
      not contain: the decoded response for an address, or the error text. */
  type GeocodingCall = string -> Result<GeocodingResponse, string>

  /** `getGeocodingData`: refuses to run without an API key, and turns a
      response whose status is neither "OK" nor "ZERO_RESULTS" into an error. */
  function GetGeocodingData(apiKey: string, address: string, call: GeocodingCall): (r: Result<GeocodingResponse, FetchError>)
    ensures apiKey == "" ==> r == Failure(MissingApiKey)
    ensures r.Success? <==> apiKey != "" && call(address).Success? && StatusAccepted(call(address).value.status)
    ensures r.Success? ==> r.value == call(address).value && StatusAccepted(r.value.status)
    ensures apiKey != "" && call(address).Failure? ==> r == Failure(Transport(call(address).error))
    ensures apiKey != "" && call(address).Success? && !StatusAccepted(call(address).value.status) ==>
      r == Failure(ApiStatus(call(address).value.status))
    ensures r.Failure? && r.error.ApiStatus? ==> !StatusAccepted(r.error.status)
  {
    if apiKey == "" then Failure(MissingApiKey)
    else
      match call(address)
      case Failure(message) => Failure(Transport(message))
      case Success(response) =>
        if !StatusAccepted(response.status) then Failure(ApiStatus(response.status))
        else Success(response)
  }

  /** `googleGeocodingHandler` serving one request for `address`: an empty
      address is refused, a cached answer is served without calling the API,
      and a fresh answer is cached for a day. The clock is read twice: `now`
      by the lookup, `storedAt` by the store after the API call. */
  function Handle(c: TtlCache.Cache<Payload>, address: string, apiKey: string, call: GeocodingCall,
                  now: Int64, storedAt: Int64): (s: Step<GeocodingResponse>)
    ensures address == "" ==> s == Step(c, BadRequest("Missing 'address' query parameter"), false)
    ensures s.fetched <==> address != "" && TtlCache.Get(c, CacheKey(address), now).None?
    ensures !s.fetched ==> s.cache == c
    ensures address != "" && TtlCache.Get(c, CacheKey(address), now).Some? ==>
      var cached := TtlCache.Get(c, CacheKey(address), now).value;
      s == Step(c, if cached.GeocodingPayload? then Ok(cached.geocoding) else Panic, false)
    ensures s.fetched && GetGeocodingData(apiKey, address, call).Failure? ==>
      s.cache == c &&
      s.reply == ServerError("Error fetching geocoding data: " + ErrorText(GetGeocodingData(apiKey, address, call).error))
    ensures s.fetched && GetGeocodingData(apiKey, address, call).Success? ==>
      s.reply == Ok(GetGeocodingData(apiKey, address, call).value) &&
      s.cache == TtlCache.Set(c, CacheKey(address), GeocodingPayload(s.reply.body), CacheTtl, storedAt)
  {
    if address == "" then Step(c, BadRequest("Missing 'address' query parameter"), false)
    else
      var key := CacheKey(address);
      match TtlCache.Get(c, key, now)
      case Some(cached) =>
        Step(c, if cached.GeocodingPayload? then Ok(cached.geocoding) else Panic, false)
      case None =>
        match GetGeocodingData(apiKey, address, call)
        case Failure(e) => Step(c, ServerError("Error fetching geocoding data: " + ErrorText(e)), true)
        case Success(data) => Step(TtlCache.Set(c, key, GeocodingPayload(data), CacheTtl, storedAt), Ok(data), true)
  }

  /** On a hit the reply depends neither on the API key nor on what the API
      would answer: `getGeocodingData` is not run. */
  lemma HitIgnoresApi(c: TtlCache.Cache<Payload>, address: string, now: Int64,
                      apiKey1: string, call1: GeocodingCall, storedAt1: Int64,
                      apiKey2: string, call2: GeocodingCall, storedAt2: Int64)
    requires address != "" && TtlCache.Get(c, CacheKey(address), now).Some?
    ensures Handle(c, address, apiKey1, call1, now, storedAt1) == Handle(c, address, apiKey2, call2, now, storedAt2)
    ensures !Handle(c, address, apiKey1, call1, now, storedAt1).fetched
  {
  }

  /** A successful fetch is served from the cache by every repetition of the
      request during the 24 hours after it was stored, whatever the API would
      say then. */
  lemma SecondRequestHits(c: TtlCache.Cache<Payload>, address: string, apiKey: string, call: GeocodingCall,
                          now: Int64, storedAt: Int64,
                          apiKey': string, call': GeocodingCall, later: Int64, storedAt': Int64)
    requires Handle(c, address, apiKey, call, now, storedAt).fetched
    requires Handle(c, address, apiKey, call, now, storedAt).reply.Ok?
    requires storedAt <= later <= storedAt + CacheTtl
    ensures var s := Handle(c, address, apiKey, call, now, storedAt);
            Handle(s.cache, address, apiKey', call', later, storedAt') == Step(s.cache, s.reply, false)
  {
    var s := Handle(c, address, apiKey, call, now, storedAt);
    var key := CacheKey(address);
    assert s.cache == TtlCache.Set(c, key, GeocodingPayload(s.reply.body), CacheTtl, storedAt);
    assert TtlCache.Get(s.cache, key, later) == Some(GeocodingPayload(s.reply.body));
  }

  /** Once the day has passed, the same request misses the cache and runs
      `getGeocodingData` again. */
  lemma RefetchAfterExpiry(c: TtlCache.Cache<Payload>, address: string, apiKey: string, call: GeocodingCall,
                           now: Int64, storedAt: Int64,
                           apiKey': string, call': GeocodingCall, later: Int64, storedAt': Int64)
    requires Handle(c, address, apiKey, call, now, storedAt).fetched
    requires Handle(c, address, apiKey, call, now, storedAt).reply.Ok?
    requires 0 <= storedAt && storedAt + CacheTtl < later
    ensures Handle(Handle(c, address, apiKey, call, now, storedAt).cache, address, apiKey', call', later, storedAt').fetched
  {
    var s := Handle(c, address, apiKey, call, now, storedAt);
    var key := CacheKey(address);
    TtlCache.SetExpiry(c, key, GeocodingPayload(s.reply.body), CacheTtl, storedAt, later);
  }

  /** A failed fetch leaves the cache as it was, so every later request for
      the same address misses the cache and runs `getGeocodingData` again. */
  lemma FailureIsNotCached(c: TtlCache.Cache<Payload>, address: string, apiKey: string, call: GeocodingCall,
                           now: Int64, storedAt: Int64,
                           apiKey': string, call': GeocodingCall, later: Int64, storedAt': Int64)
    requires Handle(c, address, apiKey, call, now, storedAt).reply.ServerError?
    requires now <= later
    ensures Handle(c, address, apiKey, call, now, storedAt).cache == c
    ensures Handle(c, address, apiKey', call', later, storedAt').fetched
  {
    TtlCache.ExpiredStaysExpired(c, CacheKey(address), now, later);
  }

  /** Without an API key a miss never reaches the API: whatever the API would
      answer, the reply is the missing-key error and nothing is cached. */
  lemma MissingKeyIgnoresApi(c: TtlCache.Cache<Payload>, address: string, call1: GeocodingCall,
                             call2: GeocodingCall, now: Int64, storedAt: Int64)
    requires address != "" && TtlCache.Get(c, CacheKey(address), now).None?
    ensures Handle(c, address, "", call1, now, storedAt) == Handle(c, address, "", call2, now, storedAt)
    ensures Handle(c, address, "", call1, now, storedAt) ==
            Step(c, ServerError("Error fetching geocoding data: " + "Google API key is not set"), true)
  {
  }
}
