/** `WhoisHandler`, `fetchWhoisData` and `parseRawData`: a WHOIS lookup whose
    free-text "raw" field is split into extra top-level fields. */
module Whois {
  import opened Wrappers
  import opened Strings
  import opened Api

  /** A decoded JSON value: a string, or any other value, which the model
      keeps opaque. */
  datatype Json = JsonString(text: string) | JsonOther(id: nat)

  /** One match of the `key: value` pattern over the raw text: its two
      capture groups. */
  datatype RawMatch = RawMatch(key: string, value: string)

  /** The regular-expression scan of the raw text, which this model does not
      contain. */
  type RawScanner = string -> seq<RawMatch>

  /** The HTTP and JSON part of `fetchWhoisData`, which this model does not
      contain: the decoded object for a domain, or the error text. */
  type WhoisCall = string -> Result<map<string, Json>, string>

  /** The matches with their keys and values trimmed. */
  function TrimMatches(matches: seq<RawMatch>): (r: seq<RawMatch>)
    ensures |r| == |matches|
  {
    seq(|matches|, i requires 0 <= i < |matches| => RawMatch(TrimSpace(matches[i].key), TrimSpace(matches[i].value)))
  }

  /** The key of the `index`-th pair. */
  function KeyAt(pairs: seq<RawMatch>, index: int): string
    requires 0 <= index < |pairs|
  {
    pairs[index].key
  }

  /** The value of the `index`-th pair. */
  function ValueAt(pairs: seq<RawMatch>, index: int): string
    requires 0 <= index < |pairs|
  {
    pairs[index].value
  }

  /** No later pair has the same key as the `index`-th one. */
  predicate IsLastWithKey(pairs: seq<RawMatch>, index: int)
    requires 0 <= index < |pairs|
  {
    forall j :: index < j < |pairs| ==> KeyAt(pairs, j) != KeyAt(pairs, index)
  }

  /** The map the loop of `parseRawData` builds from already trimmed pairs:
      every key of a pair appears, and nothing else. Which value a key gets is
      `LastWinsValue`. */
  function LastWins(pairs: seq<RawMatch>): (data: map<string, string>)
    ensures forall i :: 0 <= i < |pairs| ==> KeyAt(pairs, i) in data
    ensures forall k :: k in data ==> exists i :: 0 <= i < |pairs| && KeyAt(pairs, i) == k
  {
    if |pairs| == 0 then map[]
    else
      var n := |pairs| - 1;
      var data := LastWins(pairs[..n]);
      assert forall i :: 0 <= i < n ==> KeyAt(pairs[..n], i) == KeyAt(pairs, i);
      data[KeyAt(pairs, n) := ValueAt(pairs, n)]
  }

  /** Of several pairs with the same key, the last one wins. */
  lemma {:induction false} LastWinsValue(pairs: seq<RawMatch>, i: int)
    requires 0 <= i < |pairs| && IsLastWithKey(pairs, i)
    ensures LastWins(pairs)[KeyAt(pairs, i)] == ValueAt(pairs, i)
  {
    var n := |pairs| - 1;
    if i < n {
      var init := pairs[..n];
      assert KeyAt(pairs, n) != KeyAt(pairs, i);
      assert KeyAt(init, i) == KeyAt(pairs, i) && ValueAt(init, i) == ValueAt(pairs, i);
      assert IsLastWithKey(init, i) by {
        forall j | i < j < n ensures KeyAt(init, j) != KeyAt(init, i) {
          assert KeyAt(init, j) == KeyAt(pairs, j);
        }
      }
      LastWinsValue(init, i);
    }
  }

  /** `parseRawData` over the matches the scan found: keys and values are
      trimmed, and of several matches with the same trimmed key the last one
      wins. */
  function ParseRawData(matches: seq<RawMatch>): (data: map<string, string>)
    ensures forall i :: 0 <= i < |matches| ==> TrimSpace(matches[i].key) in data
    ensures forall k :: k in data ==> exists i :: 0 <= i < |matches| && TrimSpace(matches[i].key) == k
    ensures forall i {:trigger IsLastWithKey(TrimMatches(matches), i)} ::
      0 <= i < |matches| && IsLastWithKey(TrimMatches(matches), i) ==>
        data[TrimSpace(matches[i].key)] == TrimSpace(matches[i].value)
  {
    var trimmed := TrimMatches(matches);
    assert forall i :: 0 <= i < |matches| ==> KeyAt(trimmed, i) == TrimSpace(matches[i].key);
    assert forall i :: 0 <= i < |matches| ==> ValueAt(trimmed, i) == TrimSpace(matches[i].value);
    forall i | 0 <= i < |matches| && IsLastWithKey(trimmed, i)
      ensures LastWins(trimmed)[KeyAt(trimmed, i)] == ValueAt(trimmed, i)
    {
      LastWinsValue(trimmed, i);
    }
    LastWins(trimmed)
  }

  /** The merge step of `fetchWhoisData`: when "raw" holds a string, every
      parsed pair becomes a top-level string field, overwriting a field of the
      same name; every other field is kept. */
  function MergeRaw(result: map<string, Json>, scan: RawScanner): (r: map<string, Json>)
    ensures !("raw" in result && result["raw"].JsonString?) ==> r == result
    ensures "raw" in result && result["raw"].JsonString? ==>
      var parsed := ParseRawData(scan(result["raw"].text));
      && r.Keys == result.Keys + parsed.Keys
      && (forall k :: k in parsed ==> r[k] == JsonString(parsed[k]))
      && (forall k :: k in result && k !in parsed ==> r[k] == result[k])
  {
    if "raw" in result && result["raw"].JsonString? then
      var parsed := ParseRawData(scan(result["raw"].text));
      var fields := map k | k in parsed :: JsonString(parsed[k]);
      assert fields.Keys == parsed.Keys;
      result + fields
    else result
  }

  /** `fetchWhoisData`: the decoded answer for `domain` with its raw field
      merged in, or the error of the call. */
  function FetchWhoisData(domain: string, call: WhoisCall, scan: RawScanner): (r: Result<map<string, Json>, FetchError>)
    ensures r.Failure? <==> call(domain).Failure?
    ensures r.Failure? ==> r.error == Transport(call(domain).error)
    ensures r.Success? ==> r.value == MergeRaw(call(domain).value, scan)
  {
    match call(domain)
    case Failure(message) => Failure(Transport(message))
    case Success(result) => Success(MergeRaw(result, scan))
  }

  /** The domain of a request path: what follows its last '/', provided there
      is a '/' and something follows it. */
  function ExtractDomain(path: string): (r: Option<string>)
    ensures r.None? <==> '/' !in path || path[|path| - 1] == '/'
    ensures r.Some? ==>
      && r.value != []
      && '/' !in r.value
      && |r.value| < |path|
      && path[|path| - |r.value| - 1] == '/'
      && path[|path| - |r.value|..] == r.value
  {
    var lastSlash := LastIndexOf(path, '/');
    if lastSlash == -1 || lastSlash == |path| - 1 then None
    else
      var domain := path[lastSlash + 1..];
      assert forall k :: 0 <= k < |domain| ==> domain[k] == path[lastSlash + 1 + k];
      Some(domain)
  }

  /** Extraction inverts building a path: any prefix, a '/', and a non-empty
      domain without '/' give back that domain. */
  lemma {:induction false} ExtractDomainOfPath(prefix: string, domain: string)
    requires domain != [] && '/' !in domain
    ensures ExtractDomain(prefix + "/" + domain) == Some(domain)
  {
    var path := prefix + "/" + domain;
    var r := ExtractDomain(path);
    assert path[|prefix|] == '/';
    assert r.Some?;
    assert r.value == path[|prefix| + 1..];
  }

  /** `WhoisHandler` serving one request for `path`. */
  function Handle(path: string, call: WhoisCall, scan: RawScanner): (r: Reply<map<string, Json>>)
    ensures ExtractDomain(path).None? ==> r == BadRequest("Domain not provided")
    ensures ExtractDomain(path).Some? ==>
      var fetched := FetchWhoisData(ExtractDomain(path).value, call, scan);
      && (fetched.Failure? ==> r == ServerError(ErrorText(fetched.error)))
      && (fetched.Success? ==> r == Ok(fetched.value))
  {
    match ExtractDomain(path)
    case None => BadRequest("Domain not provided")
    case Some(domain) =>
      match FetchWhoisData(domain, call, scan)
      case Failure(e) => ServerError(ErrorText(e))
      case Success(data) => Ok(data)
  }

  /** A request for `prefix/domain` whose answer carries a raw string reports,
      as a top-level field, the trimmed value of the last raw line for each
      trimmed key. */
  lemma HandleReportsParsedField(prefix: string, domain: string, call: WhoisCall, scan: RawScanner, i: int)
    requires domain != [] && '/' !in domain
    requires call(domain).Success? && "raw" in call(domain).value && call(domain).value["raw"].JsonString?
    requires 0 <= i < |scan(call(domain).value["raw"].text)|
    requires IsLastWithKey(TrimMatches(scan(call(domain).value["raw"].text)), i)
    ensures
      var m := scan(call(domain).value["raw"].text)[i];
      var r := Handle(prefix + "/" + domain, call, scan);
      r.Ok? && TrimSpace(m.key) in r.body && r.body[TrimSpace(m.key)] == JsonString(TrimSpace(m.value))
  {
    ExtractDomainOfPath(prefix, domain);
  }
}
