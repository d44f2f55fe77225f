/** `AddressAutocompleteHandler` and `getAutocompleteSuggestions`: address
    suggestions from the Google Places API, with state names abbreviated and
    the shared cache in front of the API. */
module AddressAutocomplete {
  import opened Wrappers
  import opened Time
  import opened Api
  import opened Strings
  import States
  import TtlCache

  const KeyPrefix: string := "address_autocomplete:"

  /** The cache key of an autocomplete request; the session token is not part
      of it. */
  function CacheKey(query: string): (k: string)
    ensures |k| == |KeyPrefix| + |query|
    ensures k[..|KeyPrefix|] == KeyPrefix && k[|KeyPrefix|..] == query
  {
    KeyPrefix + query
  }

  /** Different queries never share a cache entry. */
  lemma CacheKeyInjective(a: string, b: string)
    requires CacheKey(a) == CacheKey(b)
    ensures a == b
  {
    assert a == CacheKey(a)[|KeyPrefix|..];
  }

  /** The HTTP and JSON part of `getAutocompleteSuggestions`, which this model
      does not contain: the decoded response for an input and a session
      token, or the error text. */
  type AutocompleteCall = (string, string) -> Result<AutocompleteResponse, string>

  /** `getAutocompleteSuggestions`: refuses to run without an API key, and
      turns a response whose status is neither "OK" nor "ZERO_RESULTS" into an
      error. */
  function GetAutocompleteSuggestions(apiKey: string, input: string, sessionToken: string, call: AutocompleteCall)
    : (r: Result<AutocompleteResponse, FetchError>)
    ensures apiKey == "" ==> r == Failure(MissingApiKey)
    ensures r.Success? <==>
      apiKey != "" && call(input, sessionToken).Success? && StatusAccepted(call(input, sessionToken).value.status)
    ensures r.Success? ==> r.value == call(input, sessionToken).value && StatusAccepted(r.value.status)
    ensures apiKey != "" && call(input, sessionToken).Failure? ==>
      r == Failure(Transport(call(input, sessionToken).error))
    ensures apiKey != "" && call(input, sessionToken).Success? && !StatusAccepted(call(input, sessionToken).value.status) ==>
      r == Failure(ApiStatus(call(input, sessionToken).value.status))
    ensures r.Failure? && r.error.ApiStatus? ==> !StatusAccepted(r.error.status)
  {
    if apiKey == "" then Failure(MissingApiKey)
    else
      match call(input, sessionToken)
      case Failure(message) => Failure(Transport(message))
      case Success(response) =>
        if !StatusAccepted(response.status) then Failure(ApiStatus(response.status))
        else Success(response)
  }

  /** The session token sent to the API: the client's, or the generated one
      when the client sent none. */
  function SessionToken(given: string, generated: string): (t: string)
    ensures given != "" ==> t == given
    ensures given == "" ==> t == generated
  {
    if given == "" then generated else given
  }

  /** The iteration orders the handler's calls of `abbreviateState` visit
      the state map in: the `i`-th prediction is processed in order
      `orders(i)`. Go picks a fresh order for every `range` over a map. */
  type Orders = nat -> seq<States.State>

  /** Every order is one in which ranging over the map may visit it. */
  ghost predicate ValidOrders(orders: Orders) {
    forall i: nat :: States.IsIterationOrder(orders(i))
  }

  /** The loop of the handler over the predictions: each description is
      passed through `abbreviateState` as written, in its own iteration
      order; place identifiers and the order of predictions are kept. */
  function AbbreviatePredictions(predictions: seq<Prediction>, orders: Orders): (r: seq<Prediction>)
    requires ValidOrders(orders)
    ensures |r| == |predictions|
    ensures forall i :: 0 <= i < |r| ==>
      r[i].placeId == predictions[i].placeId &&
      r[i].description == States.AbbreviateState(predictions[i].description, orders(i))
  {
    seq(|predictions|, i requires 0 <= i < |predictions| =>
      predictions[i].(description := States.AbbreviateState(predictions[i].description, orders(i))))
  }

  /** The response as the handler caches and serves it: only the prediction
      descriptions change. A description that already holds an abbreviation,
      or holds no state name, is kept; any other has one contained state name
      replaced by its abbreviation. */
  function Abbreviated(response: AutocompleteResponse, orders: Orders): (r: AutocompleteResponse)
    requires ValidOrders(orders)
    ensures r.status == response.status && r.errorMessage == response.errorMessage
    ensures |r.predictions| == |response.predictions|
    ensures forall i :: 0 <= i < |r.predictions| ==>
      r.predictions[i].placeId == response.predictions[i].placeId
    ensures forall i :: 0 <= i < |r.predictions| ==>
      var d := response.predictions[i].description;
      States.HasAbbreviation(d) || !States.HasStateName(d) ==> r.predictions[i].description == d
    ensures forall i :: 0 <= i < |r.predictions| ==>
      var d := response.predictions[i].description;
      !States.HasAbbreviation(d) && States.HasStateName(d) ==>
        exists j :: 0 <= j < |States.StateTable| && Contains(d, States.StateTable[j].name) &&
                    r.predictions[i].description ==
                      ReplaceFirst(d, States.StateTable[j].name, States.StateTable[j].abbreviation)
  {
    response.(predictions := AbbreviatePredictions(response.predictions, orders))
  }

  /** Processing a response a second time, in any orders, changes nothing, so
      abbreviating an already abbreviated answer is harmless. */
  lemma AbbreviatedIdempotent(response: AutocompleteResponse, orders1: Orders, orders2: Orders)
    requires ValidOrders(orders1) && ValidOrders(orders2)
    ensures Abbreviated(Abbreviated(response, orders1), orders2) == Abbreviated(response, orders1)
  {
    var once := Abbreviated(response, orders1);
    var twice := Abbreviated(once, orders2);
    forall i | 0 <= i < |once.predictions|
      ensures twice.predictions[i] == once.predictions[i]
    {
      States.AbbreviateStateIdempotent(response.predictions[i].description, orders1(i), orders2(i));
    }
  }

  /** Any iteration order the map may take can be the one a prediction is
      processed in. */
  lemma AnyOrderForPrediction(p: Prediction, o: seq<States.State>)
    requires States.IsIterationOrder(o)
    ensures exists orders: Orders :: (ValidOrders(orders) &&
      AbbreviatePredictions([p], orders)[0].description == States.AbbreviateState(p.description, o))
  {
    var orders: Orders := i => o;
    assert forall i: nat :: orders(i) == o;
    assert AbbreviatePredictions([p], orders)[0].description == States.AbbreviateState(p.description, orders(0));
  }

  /** The order dependence reaches the cache: a prediction "Mato Grosso do
      Sul" may be stored and served as "MT do Sul" for a whole day. */
  lemma AbbreviatedMayKeepEmbeddedName(placeId: string)
    ensures exists orders: Orders :: (ValidOrders(orders) &&
      AbbreviatePredictions([Prediction("Mato Grosso do Sul", placeId)], orders)[0].description == "MT do Sul")
  {
    States.MatoGrossoDoSulDependsOnOrder();
    var o :| States.IsIterationOrder(o) && States.AbbreviateState("Mato Grosso do Sul", o) == "MT do Sul";
    AnyOrderForPrediction(Prediction("Mato Grosso do Sul", placeId), o);
  }

  /** `AddressAutocompleteHandler` serving one request for `query`: an empty
      query is refused, a cached answer is served without calling the API,
      and a fresh answer has its state names abbreviated and is cached for a
      day. The clock is read twice: `now` by the lookup, `storedAt` by the
      store after the API call. */
  function Handle(c: TtlCache.Cache<Payload>, query: string, sessionToken: string, generatedToken: string,
                  apiKey: string, call: AutocompleteCall, orders: Orders, now: Int64, storedAt: Int64)
    : (s: Step<AutocompleteResponse>)
    requires ValidOrders(orders)
    ensures query == "" ==> s == Step(c, BadRequest("Missing 'q' query parameter"), false)
    ensures s.fetched <==> query != "" && TtlCache.Get(c, CacheKey(query), now).None?
    ensures !s.fetched ==> s.cache == c
    ensures query != "" && TtlCache.Get(c, CacheKey(query), now).Some? ==>
      var cached := TtlCache.Get(c, CacheKey(query), now).value;
      s == Step(c, if cached.AutocompletePayload? then Ok(cached.autocomplete) else Panic, false)
    ensures s.fetched ==>
      var fetched := GetAutocompleteSuggestions(apiKey, query, SessionToken(sessionToken, generatedToken), call);
      && (fetched.Failure? ==>
            s.cache == c &&
            s.reply == ServerError("Error fetching autocomplete suggestions: " + ErrorText(fetched.error)))
      && (fetched.Success? ==>
            s.reply == Ok(Abbreviated(fetched.value, orders)) &&
            s.cache == TtlCache.Set(c, CacheKey(query), AutocompletePayload(s.reply.body), CacheTtl, storedAt))
  {
    if query == "" then Step(c, BadRequest("Missing 'q' query parameter"), false)
    else
      var key := CacheKey(query);
      match TtlCache.Get(c, key, now)
      case Some(cached) =>
        Step(c, if cached.AutocompletePayload? then Ok(cached.autocomplete) else Panic, false)
      case None =>
        var token := SessionToken(sessionToken, generatedToken);
        match GetAutocompleteSuggestions(apiKey, query, token, call)
        case Failure(e) =>
          Step(c, ServerError("Error fetching autocomplete suggestions: " + ErrorText(e)), true)
        case Success(suggestions) =>
          var processed := Abbreviated(suggestions, orders);
          Step(TtlCache.Set(c, key, AutocompletePayload(processed), CacheTtl, storedAt), Ok(processed), true)
  }

  /** On a hit the reply depends neither on the session token nor on the API
      nor on the map's iteration orders: the cache key ignores the token and
      `getAutocompleteSuggestions` is not run. */
  lemma HitIgnoresTokenAndApi(c: TtlCache.Cache<Payload>, query: string, now: Int64,
                              token1: string, generated1: string, apiKey1: string, call1: AutocompleteCall,
                              orders1: Orders, storedAt1: Int64,
                              token2: string, generated2: string, apiKey2: string, call2: AutocompleteCall,
                              orders2: Orders, storedAt2: Int64)
    requires ValidOrders(orders1) && ValidOrders(orders2)
    requires query != "" && TtlCache.Get(c, CacheKey(query), now).Some?
    ensures Handle(c, query, token1, generated1, apiKey1, call1, orders1, now, storedAt1) ==
            Handle(c, query, token2, generated2, apiKey2, call2, orders2, now, storedAt2)
    ensures !Handle(c, query, token1, generated1, apiKey1, call1, orders1, now, storedAt1).fetched
  {
  }

  /** On a miss `getAutocompleteSuggestions` runs with the client's session
      token, or with the generated one when the client sent none: two APIs that agree on that
      one question give the same step. */
  lemma MissAsksWithSessionToken(c: TtlCache.Cache<Payload>, query: string, sessionToken: string,
                                 generatedToken: string, apiKey: string, call1: AutocompleteCall,
                                 call2: AutocompleteCall, orders: Orders, now: Int64, storedAt: Int64)
    requires ValidOrders(orders)
    requires call1(query, SessionToken(sessionToken, generatedToken)) == call2(query, SessionToken(sessionToken, generatedToken))
    ensures Handle(c, query, sessionToken, generatedToken, apiKey, call1, orders, now, storedAt) ==
            Handle(c, query, sessionToken, generatedToken, apiKey, call2, orders, now, storedAt)
  {
  }

  /** A successful fetch is served from the cache by every repetition of the
      query during the 24 hours after it was stored, whatever token comes with
      it: the abbreviation chosen by the first request's iteration orders is
      the one served all day. */
  lemma SecondRequestHits(c: TtlCache.Cache<Payload>, query: string, sessionToken: string, generatedToken: string,
                          apiKey: string, call: AutocompleteCall, orders: Orders, now: Int64, storedAt: Int64,
                          sessionToken': string, generatedToken': string, apiKey': string, call': AutocompleteCall,
                          orders': Orders, later: Int64, storedAt': Int64)
    requires ValidOrders(orders) && ValidOrders(orders')
    requires Handle(c, query, sessionToken, generatedToken, apiKey, call, orders, now, storedAt).fetched
    requires Handle(c, query, sessionToken, generatedToken, apiKey, call, orders, now, storedAt).reply.Ok?
    requires storedAt <= later <= storedAt + CacheTtl
    ensures var s := Handle(c, query, sessionToken, generatedToken, apiKey, call, orders, now, storedAt);
            Handle(s.cache, query, sessionToken', generatedToken', apiKey', call', orders', later, storedAt') ==
            Step(s.cache, s.reply, false)
  {
    var s := Handle(c, query, sessionToken, generatedToken, apiKey, call, orders, now, storedAt);
    var key := CacheKey(query);
    assert s.cache == TtlCache.Set(c, key, AutocompletePayload(s.reply.body), CacheTtl, storedAt);
    assert TtlCache.Get(s.cache, key, later) == Some(AutocompletePayload(s.reply.body));
  }

  /** A failed fetch leaves the cache as it was, so every later request for
      the same query misses the cache and runs `getAutocompleteSuggestions`
      again. */
  lemma FailureIsNotCached(c: TtlCache.Cache<Payload>, query: string, sessionToken: string, generatedToken: string,
                           apiKey: string, call: AutocompleteCall, orders: Orders, now: Int64, storedAt: Int64,
                           sessionToken': string, generatedToken': string, apiKey': string, call': AutocompleteCall,
                           orders': Orders, later: Int64, storedAt': Int64)
    requires ValidOrders(orders) && ValidOrders(orders')
    requires Handle(c, query, sessionToken, generatedToken, apiKey, call, orders, now, storedAt).reply.ServerError?
    requires now <= later
    ensures Handle(c, query, sessionToken, generatedToken, apiKey, call, orders, now, storedAt).cache == c
    ensures Handle(c, query, sessionToken', generatedToken', apiKey', call', orders', later, storedAt').fetched
  {
    TtlCache.ExpiredStaysExpired(c, CacheKey(query), now, later);
  }

  /** Without an API key a miss never reaches the API: whatever the API would
      answer, the reply is the missing-key error and nothing is cached. */
  lemma MissingKeyIgnoresApi(c: TtlCache.Cache<Payload>, query: string, sessionToken: string,
                             generatedToken: string, call1: AutocompleteCall, call2: AutocompleteCall,
                             orders: Orders, now: Int64, storedAt: Int64)
    requires ValidOrders(orders)
    requires query != "" && TtlCache.Get(c, CacheKey(query), now).None?
    ensures Handle(c, query, sessionToken, generatedToken, "", call1, orders, now, storedAt) ==
            Handle(c, query, sessionToken, generatedToken, "", call2, orders, now, storedAt)
    ensures Handle(c, query, sessionToken, generatedToken, "", call1, orders, now, storedAt) ==
            Step(c, ServerError("Error fetching autocomplete suggestions: " + "Google API key is not set"), true)
  {
  }
}
