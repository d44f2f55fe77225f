# TTL cache and cache-aside handlers of the address and WHOIS service

This project is a Dafny model of the part of the Go service (`pkg/external`) that
does its own logic rather than forwarding HTTP. It has four parts.

- **The in-memory TTL cache** (`cache.go`). `Set` stores a value with an
  expiration of "now plus duration" in Go's `int64` nanoseconds. A
  non-positive duration stores 0, which means the entry never expires. `Get`
  hides an entry whose expiration is positive and *strictly* earlier than the
  current time. `Delete` and `Clear` remove entries. The periodic sweep
  deletes exactly the entries `Get` would hide. The clock is a parameter
  `now`. `time.Now().Add(d).UnixNano()` is modelled as a wrapping 64-bit sum
  (`Time.Wrap64`).
- **The cache-aside flow** of `googleGeocodingHandler` and
  `AddressAutocompleteHandler`. Each handler does the following:
  - It rejects an empty query parameter.
  - It builds a prefixed cache key.
  - On a hit it answers from the cache, with a type assertion on the cached
    value.
  - On a miss it runs its fetch function, which calls the Google API only
    when an API key is set. A failure is reported and nothing is cached. A
    success is stored for 24 hours. The clock is read twice: `now` at the
    lookup and `storedAt` at the store after the API call.
  - The autocomplete handler also abbreviates the state names in the
    prediction descriptions before storing.
  - The API-key and status checks of `getGeocodingData` and
    `getAutocompleteSuggestions` are modelled too. The HTTP exchange itself is
    a function parameter. The cache holds a sum type `Api.Payload`.
  - `SharedCache.WellTyped` says that the key prefix decides the payload
    variant. It is preserved by every operation, so neither type assertion
    can panic.
- **`abbreviateState`** with its 27-entry table of Brazilian states. Go
  iterates maps in an unspecified order, so that order is a parameter.
  `States.IsIterationOrder` says the order is as long as the table, holds
  every entry and holds nothing else. The entries are distinct
  (`States.StateTableDistinct`), so this means every entry exactly once.
  The name search of `abbreviateState` (its second `range` loop) ranges over
  the map once per prediction, each time in an order of its own
  (`AddressAutocomplete.Orders`).
- **`WhoisHandler`, `fetchWhoisData` and `parseRawData`**:
  - extraction of the domain after the last `/` of the path;
  - trimming of every regex match, where the last match wins for a repeated
    key;
  - the merge of the parsed fields into the decoded object, which overwrites
    fields of the same name and keeps the `raw` field.

The modules are `Wrappers` (`Option`, `Result`), `Time` (the `int64` clock),
`Strings` (the `strings` package functions the source uses), `TtlCache`,
`Api` (the response records, errors and replies shared by the handlers),
`GoogleGeocoding`, `AddressAutocomplete`, `States`, `Whois` and
`SharedCache`.

Two details of the code shape the model:
- `cache.go:77` and `cache.go:42` use a strict `item.expiration < now`. So an
  entry is still returned at the exact nanosecond of its expiration, and the
  sweep keeps it.
- `WhoisHandler` does not use the cache, so `Whois.Handle` has no cache.

## Model

| member | source | states |
|---|---|---|
| Time.Wrap64 | pkg/external/cache.go:57 | the result is the 64-bit two's-complement value of the sum: unchanged in range, shifted by 2^64 just past either end |
| Api.ErrorText | pkg/external/GoogleGeocodingHandler.go:91-122 | the missing key gives "Google API key is not set", a rejected status gives "Google API error: " followed by the status, and a transport error gives its own text |
| Api.StatusErrorTextInjective | pkg/external/GoogleGeocodingHandler.go:121-123 | different rejected statuses give different texts, and none of them is the missing-key text |
| TtlCache.NewCache | pkg/external/cache.go:21-30 | a new cache returns nothing for any key at any time |
| TtlCache.Set | pkg/external/cache.go:51-64 | the key maps to the value with expiration now+duration (wrapped) when the duration is positive and 0 otherwise; every other key is untouched; a Get at the same instant returns the value |
| TtlCache.Get | pkg/external/cache.go:67-82 | a value is returned exactly when the key is present and its expiration is non-positive or not earlier than now, and it is the stored value |
| TtlCache.Delete | pkg/external/cache.go:85-90 | the key is gone, every other entry is unchanged, and deleting an absent key changes nothing |
| TtlCache.Clear | pkg/external/cache.go:93-98 | afterwards no key is found at any time |
| TtlCache.Sweep | pkg/external/cache.go:40-45 | the entries kept are exactly those that are not expired at now, with their items unchanged |
| TtlCache.SweepExpired | pkg/external/cache.go:41-45 | the deleting loop over the map computes exactly Sweep |
| TtlCache.SetExpiry | pkg/external/cache.go:55-81 | when now+duration is positive and within `int64`, a value is visible up to and including now+duration and hidden after it; when the stored expiration is not positive (a non-positive duration, a clock before 1970, or a sum that wraps around) it is visible forever |
| TtlCache.SetOtherKey | pkg/external/cache.go:60-63 | Set does not change what Get returns for another key |
| TtlCache.SetOverwrites | pkg/external/cache.go:60-63 | a second Set of the same key replaces the first entirely |
| TtlCache.DeleteThenGet | pkg/external/cache.go:85-90 | after Delete the key is never found, and other keys read as before |
| TtlCache.ExpiredStaysExpired | pkg/external/cache.go:77 | once Get misses a present key because of expiry, it misses at every later time |
| TtlCache.SweepPreservesGet | pkg/external/cache.go:40-45 | a sweep at time s changes no Get at any time t >= s |
| TtlCache.SweepPreservesView | pkg/external/cache.go:40-45 | the visible contents at the sweep time are the same before and after |
| TtlCache.SweepRemovesOnlyMisses | pkg/external/cache.go:42 | every entry the sweep removes is one that Get at the sweep time does not return |
| TtlCache.SweepSubsumes | pkg/external/cache.go:41-45 | an earlier sweep followed by a later one equals the later one alone |
| TtlCache.SweepChangesEarlierReads | pkg/external/cache.go:42 | a read at a time before the sweep can change: an entry visible then is gone after the sweep |
| TtlCache.DayLongEntry | pkg/external/cache.go:51-82 | an entry stored for 24 hours is found at once and not found 25 hours later, even when no sweep ran |
| Strings.IndexOf | pkg/external/AddressAutocompleteHandler.go:152 | the index of the first occurrence of the pattern, or -1 exactly when there is none |
| Strings.Contains | pkg/external/AddressAutocompleteHandler.go:142-150 | true exactly when the pattern occurs at some index |
| Strings.LastIndexOf | pkg/external/whoisHandler.go:66 | the index of the last occurrence of the character, or -1 exactly when there is none |
| Strings.ReplaceFirst | pkg/external/AddressAutocompleteHandler.go:152 | with no occurrence the text is unchanged; otherwise the first occurrence and only it is replaced |
| Strings.TrimLeftIsSuffix | pkg/external/whoisHandler.go:56-57 | left trimming removes only a prefix of white space |
| Strings.TrimRightIsPrefix | pkg/external/whoisHandler.go:56-57 | right trimming removes only a suffix of white space |
| Strings.TrimSpace | pkg/external/whoisHandler.go:56-57 | the result is no longer than the input and neither starts nor ends with white space |
| Strings.TrimSpaceIsSlice | pkg/external/whoisHandler.go:56-57 | the result is a contiguous slice of the input with only white space cut from both ends |
| Strings.TrimSpaceIdempotent | pkg/external/whoisHandler.go:56-57 | trimming twice is trimming once |
| States.StateTableDistinct | pkg/external/AddressAutocompleteHandler.go:16-44 | no two entries of the table share an abbreviation, so the entries are distinct |
| States.MoveToFront | pkg/external/AddressAutocompleteHandler.go:149 | moving one entry of a table to the front gives an order of that table |
| States.FirstContainedIsFromTable | pkg/external/AddressAutocompleteHandler.go:149-155 | over any order of a table, the state found is an entry of the table whose name occurs, and none is found only when no name of the table occurs |
| States.FirstContained | pkg/external/AddressAutocompleteHandler.go:149-155 | the first state in iteration order whose name occurs in the text, or none exactly when no name occurs |
| States.AbbreviateState | pkg/external/AddressAutocompleteHandler.go:139-158 | a text that holds an abbreviation, or no state name, is unchanged; otherwise the first occurrence of some contained state's name is replaced by that state's abbreviation |
| States.ReplacementHoldsAbbreviation | pkg/external/AddressAutocompleteHandler.go:152 | after a replacement the text contains the abbreviation |
| States.AbbreviateStateIdempotent | pkg/external/AddressAutocompleteHandler.go:139-158 | abbreviating an abbreviated text leaves it unchanged, whatever the two iteration orders |
| States.SomeOrderFindsFirst | pkg/external/AddressAutocompleteHandler.go:149-155 | any state of the table can be put first in an iteration order |
| States.AnyContainedStateCanBeChosen | pkg/external/AddressAutocompleteHandler.go:149-155 | for every state whose name occurs in an unabbreviated text, some iteration order replaces that state's name |
| States.AbbreviationsAreCapitalPairs | pkg/external/AddressAutocompleteHandler.go:16-44 | every abbreviation in the table is two capital letters |
| States.NoCapitalPairNoAbbreviation | pkg/external/AddressAutocompleteHandler.go:141-146 | a text without two adjacent capital letters holds no abbreviation |
| States.MatoGrossoDoSulDependsOnOrder | pkg/external/AddressAutocompleteHandler.go:149-155 | for "Mato Grosso do Sul" one iteration order gives "MT do Sul" and another gives "MS" |
| States.LongestContained | pkg/external/AddressAutocompleteHandler.go:149-155 | the contained state with the longest name (earliest on ties), or none exactly when no name occurs |
| States.LongestAmong | pkg/external/AddressAutocompleteHandler.go:149-155 | over the first n states and any occurrence test, the index of an accepted state with the longest name, the earliest on ties, or -1 exactly when none is accepted |
| States.AbbreviateStateLongest | pkg/external/AddressAutocompleteHandler.go:139-158 | the same as AbbreviateState, except that the state replaced is one with a longest contained name |
| States.LongestIsAnAllowedChoice | pkg/external/AddressAutocompleteHandler.go:149-155 | the corrected result is one that the source produces under some iteration order |
| States.AbbreviateStateLongestIdempotent | pkg/external/AddressAutocompleteHandler.go:139-158 | the corrected abbreviation is idempotent |
| States.LongestSkipsEmbeddedNames | pkg/external/AddressAutocompleteHandler.go:149-155 | a state name is never replaced when a longer state name also occurs in the text |
| States.MatoGrossoDoSulLongest | pkg/external/AddressAutocompleteHandler.go:27-28 | of the table's names occurring in "Mato Grosso do Sul", that name itself is the longest |
| States.MatoGrossoDoSulCorrected | pkg/external/AddressAutocompleteHandler.go:27-28 | the corrected abbreviation turns "Mato Grosso do Sul" into "MS" |
| GoogleGeocoding.CacheKey | pkg/external/GoogleGeocodingHandler.go:63 | the key is the prefix followed by the address |
| GoogleGeocoding.CacheKeyInjective | pkg/external/GoogleGeocodingHandler.go:63 | different addresses get different keys |
| GoogleGeocoding.GetGeocodingData | pkg/external/GoogleGeocodingHandler.go:88-126 | an empty key fails with the key error and makes no call; a call failure passes its text on; success happens exactly when the call succeeds with OK or ZERO_RESULTS, and then is the API's answer; any other status fails with `ApiStatus` of exactly that status |
| GoogleGeocoding.Handle | pkg/external/GoogleGeocodingHandler.go:55-85 | an empty address is a 400 and touches nothing; `getGeocodingData` runs exactly on a miss at the lookup instant (and makes no request when the key is empty); a hit answers the cached value; a failure is a 500 with the error's text that caches nothing; a success is answered and cached for 24 hours from the store instant |
| GoogleGeocoding.HitIgnoresApi | pkg/external/GoogleGeocodingHandler.go:66-72 | on a hit, the reply and cache do not depend on the API key or the API |
| GoogleGeocoding.SecondRequestHits | pkg/external/GoogleGeocodingHandler.go:81 | after a successful fetch, the same address within 24 hours of the store is served from the cache with the same answer |
| GoogleGeocoding.RefetchAfterExpiry | pkg/external/GoogleGeocodingHandler.go:81 | more than 24 hours after the store, the same address misses the cache and `getGeocodingData` runs again |
| GoogleGeocoding.FailureIsNotCached | pkg/external/GoogleGeocodingHandler.go:74-78 | a failed fetch leaves the cache unchanged, and every later request for the same address misses the cache and runs `getGeocodingData` again |
| GoogleGeocoding.MissingKeyIgnoresApi | pkg/external/GoogleGeocodingHandler.go:89-92 | with an empty API key a miss replies with the missing-key 500, caches nothing, and does not depend on the API |
| AddressAutocomplete.CacheKey | pkg/external/AddressAutocompleteHandler.go:55 | the key is the prefix followed by the query |
| AddressAutocomplete.CacheKeyInjective | pkg/external/AddressAutocompleteHandler.go:55 | different queries get different keys |
| AddressAutocomplete.GetAutocompleteSuggestions | pkg/external/AddressAutocompleteHandler.go:95-135 | the same key and status checks as geocoding, with the call asked for the input and the session token; a rejected status fails with `ApiStatus` of exactly that status |
| AddressAutocomplete.SessionToken | pkg/external/AddressAutocompleteHandler.go:66-69 | the given token when non-empty, the generated one otherwise |
| AddressAutocomplete.AbbreviatePredictions | pkg/external/AddressAutocompleteHandler.go:78-80 | same number of predictions in the same order, same place ids, each description passed through the as-written `abbreviateState` in that prediction's own iteration order |
| AddressAutocomplete.Abbreviated | pkg/external/AddressAutocompleteHandler.go:78-80 | only descriptions change: status, error message, count and place ids are kept; a description that holds an abbreviation or no state name is kept, and any other has one contained state name replaced by its abbreviation, as `abbreviateState` (lines 137-155) does |
| AddressAutocomplete.AbbreviatedIdempotent | pkg/external/AddressAutocompleteHandler.go:78-80 | processing a processed answer again, in any iteration orders, changes nothing |
| AddressAutocomplete.AnyOrderForPrediction | pkg/external/AddressAutocompleteHandler.go:78-79 | any iteration order the map may take can be the one a prediction is processed in |
| AddressAutocomplete.AbbreviatedMayKeepEmbeddedName | pkg/external/AddressAutocompleteHandler.go:78-83 | a prediction "Mato Grosso do Sul" can be processed, and so cached, as "MT do Sul" |
| AddressAutocomplete.Handle | pkg/external/AddressAutocompleteHandler.go:47-87 | an empty query is a 400 and touches nothing; `getAutocompleteSuggestions` runs exactly on a miss at the lookup instant (and makes no request when the key is empty); a hit answers the cached value; a failure is a 500 with the error's text that caches nothing; a success is processed by the as-written abbreviation, answered, and cached for 24 hours from the store instant |
| AddressAutocomplete.HitIgnoresTokenAndApi | pkg/external/AddressAutocompleteHandler.go:55-64 | on a hit, the reply and cache do not depend on the session token, API key, API or iteration orders |
| AddressAutocomplete.MissAsksWithSessionToken | pkg/external/AddressAutocompleteHandler.go:66-71 | on a miss `getAutocompleteSuggestions` runs with the given token, or the generated one when none is given |
| AddressAutocomplete.SecondRequestHits | pkg/external/AddressAutocompleteHandler.go:83 | after a successful fetch, the same query within 24 hours of the store, with any token and any iteration orders, is served from the cache with the first request's processed answer |
| AddressAutocomplete.FailureIsNotCached | pkg/external/AddressAutocompleteHandler.go:71-75 | a failed fetch leaves the cache unchanged, and every later request for the same query misses the cache and runs `getAutocompleteSuggestions` again |
| AddressAutocomplete.MissingKeyIgnoresApi | pkg/external/AddressAutocompleteHandler.go:96-99 | with an empty API key a miss replies with the missing-key 500, caches nothing, and does not depend on the API |
| Whois.LastWins | pkg/external/whoisHandler.go:55-59 | the keys of the map are exactly the keys of the pairs |
| Whois.LastWinsValue | pkg/external/whoisHandler.go:55-59 | a key maps to the value of the last pair with that key |
| Whois.ParseRawData | pkg/external/whoisHandler.go:50-62 | the same, for the trimmed keys and values of the matches |
| Whois.MergeRaw | pkg/external/whoisHandler.go:35-44 | without a string "raw" field the object is unchanged; otherwise its keys gain the parsed keys, parsed values overwrite, and every other field is kept |
| Whois.FetchWhoisData | pkg/external/whoisHandler.go:12-47 | a call failure becomes the error; a success is the decoded object with the raw field merged |
| Whois.ExtractDomain | pkg/external/whoisHandler.go:65-71 | none exactly when the path has no '/' or ends with one; otherwise a non-empty suffix without '/' that follows a '/' |
| Whois.ExtractDomainOfPath | pkg/external/whoisHandler.go:66-71 | a prefix, a '/' and a non-empty domain without '/' give back that domain |
| Whois.Handle | pkg/external/whoisHandler.go:64-81 | no domain is a 400 "Domain not provided"; a fetch error is a 500 with its text; otherwise the merged object |
| Whois.HandleReportsParsedField | pkg/external/whoisHandler.go:36-58 | for a request that reaches the API, the last raw line with a given trimmed key shows up as a top-level field with its trimmed value |
| SharedCache.KeySpacesDisjoint | pkg/external/GoogleGeocodingHandler.go:63 | no geocoding key equals an autocomplete key |
| SharedCache.NewCacheWellTyped | pkg/external/cache.go:101 | the global cache starts well typed |
| SharedCache.GeocodingKeepsWellTyped | pkg/external/GoogleGeocodingHandler.go:66-81 | a geocoding request keeps the cache well typed and never panics on the type assertion |
| SharedCache.AutocompleteKeepsWellTyped | pkg/external/AddressAutocompleteHandler.go:58-83 | an autocomplete request keeps the cache well typed and never panics on the type assertion |
| SharedCache.RemovalsKeepWellTyped | pkg/external/cache.go:40-98 | sweep, Delete and Clear keep the cache well typed |

## Left out

- Locking (`sync.RWMutex`) and concurrency: every operation is one atomic step on an immutable cache value.
- The cleanup goroutine and its 5-minute ticker: `TtlCache.Sweep` is one tick, at a time the caller chooses.
- `time.Now()`: every clock reading is a parameter. The cached handlers read it twice, `now` at the lookup and `storedAt` at the store. Nothing relates two readings except the lemmas' own hypotheses, since Go's wall clock may step backwards.
- HTTP requests, URL encoding, headers, JSON encoding and decoding: the Google and WHOIS exchanges are function parameters returning a decoded record or an error text. A non-200 status, an I/O error and a decode error all arrive as that text (`Api.Transport`).
- `os.Getenv("GOOGLE_API_KEY")` is a parameter. `JSONWHOIS_APIKEY` only goes into a request header, so it is not modelled.
- `uuid.New()`: the generated session token is a parameter.
- The regular expression of `parseRawData`: its matches are the output of a `RawScanner` parameter. The model proves what happens to whatever matches it returns.
- JSON values other than strings are opaque (`Whois.JsonOther`).
- Geometry (floating-point coordinates, viewport) and address components of geocoding results are not modelled. They are only carried from the API to the reply.
- Go strings are UTF-8 bytes, while the model uses sequences of characters. Containment, first-occurrence replacement and trimming give the same text either way. Byte offsets are not modelled.
- `unicode.IsSpace` is modelled for the Latin-1 white-space characters and the Unicode `White_Space` code points `Strings.IsSpace` lists.
- The Geoapify, MapTiler and Nominatim handlers, the e-mail handler, route registration and the `main` program are not part of this model. Neither is the manual cache test program.
- The autocomplete handler model calls the as-written, order-dependent `States.AbbreviateState`, as the code does. The corrected `States.AbbreviateStateLongest` from the finding below is stated and proved on its own. `States.LongestIsAnAllowedChoice` shows its result is one the handler may already produce.

## Findings

| source | as written | input that shows it | evidently intended | confidence | as-written member | corrected member |
|---|---|---|---|---|---|---|
| pkg/external/AddressAutocompleteHandler.go:149-155 | the first state name in Go's random map order that occurs in the text is replaced; "Mato Grosso" occurs inside "Mato Grosso do Sul", so the outcome depends on the iteration order | "Mato Grosso do Sul" becomes "MT do Sul" or "MS" depending on the run | "MS": replace the longest state name that occurs | not executed | States.MatoGrossoDoSulDependsOnOrder | States.MatoGrossoDoSulCorrected |

`States.AbbreviateState` models the code as written over every iteration order.
`AddressAutocomplete.AbbreviatedMayKeepEmbeddedName` shows that the bug reaches
the cached answer.
`States.AbbreviateStateLongest` is the corrected definition. It always picks a
longest contained name (`States.LongestSkipsEmbeddedNames`), and it is still a
result the source can produce (`States.LongestIsAnAllowedChoice`).
