/**
 * The client's API helper: the request URL and merged options of
 * `apiCall`, the endpoint `getAll` builds, the error a failed response
 * raises, and the text `handleAPIError` shows for an error. `fetch`
 * itself is abstract: a response is given by its `ok` flag, status and
 * parsed JSON body.
 */
module ApiClient {
  import opened Wrappers
  import opened Strings
  import opened Js

  const DefaultBaseUrl: string := "http://localhost:5000/api"
  const JsonContentType: string := "application/json"
  const NetworkError: string := "Network error. Please check your connection and try again."
  const UnexpectedError: string := "An unexpected error occurred."
  const HttpErrorPrefix: string := "HTTP error! status: "

  /** `API_BASE_URL`: `VITE_API_URL` when it is set and not empty, else the local default. */
  function BaseUrl(viteApiUrl: Option<string>): (r: string)
    ensures viteApiUrl.Some? && viteApiUrl.value != "" ==> r == viteApiUrl.value
    ensures viteApiUrl.None? || viteApiUrl.value == "" ==> r == DefaultBaseUrl
  {
    if viteApiUrl.Some? && viteApiUrl.value != "" then viteApiUrl.value else DefaultBaseUrl
  }

  /** The headers a caller passed in `options.headers`; a value that is not an object adds none. */
  function CallerHeaders(options: Record): Record {
    match Get(options, "headers")
    case Obj(fields) => fields
    case _ => map[]
  }

  /**
   * `finalOptions`: the default options, then the caller's, then headers
   * made of the default `Content-Type` overridden by the caller's headers.
   */
  function FinalOptions(options: Record): Record {
    var defaultHeaders := map["Content-Type" := Str(JsonContentType)];
    Spread(Spread(map["headers" := Obj(defaultHeaders)], options),
           map["headers" := Obj(Spread(defaultHeaders, CallerHeaders(options)))])
  }

  /**
   * What the merge promises: every option of the caller but `headers` is
   * kept as given; the headers are exactly the caller's plus
   * `Content-Type`, each caller header keeps its value, and `Content-Type`
   * is "application/json" unless the caller set it.
   */
  lemma FinalOptionsMerge(options: Record)
    ensures var r := FinalOptions(options);
      && r.Keys == options.Keys + {"headers"}
      && (forall k :: k in options && k != "headers" ==> r[k] == options[k])
      && r["headers"].Obj?
      && r["headers"].fields.Keys == CallerHeaders(options).Keys + {"Content-Type"}
      && (forall k :: k in CallerHeaders(options) ==> r["headers"].fields[k] == CallerHeaders(options)[k])
      && ("Content-Type" !in CallerHeaders(options) ==> r["headers"].fields["Content-Type"] == Str(JsonContentType))
  {
  }

  /** The endpoint of `getAll` for a collection path: the path alone for an empty query string, else path, "?" and query. */
  function ListEndpoint(collection: string, queryString: string): string {
    if queryString != "" then "/" + collection + "?" + queryString else "/" + collection
  }

  /**
   * The endpoint has a "?" exactly when there is a query string, and the
   * query string is everything after the first "?": nothing is lost.
   */
  lemma ListEndpointParts(collection: string, queryString: string)
    requires '?' !in collection
    ensures var e := ListEndpoint(collection, queryString);
      && ('?' in e <==> queryString != "")
      && e[..|collection| + 1] == "/" + collection
      && (queryString != "" ==> IndexOf(e, '?') == |collection| + 1 && e[|collection| + 2..] == queryString)
  {
    var e := ListEndpoint(collection, queryString);
    if queryString != "" {
      assert e[|collection| + 1] == '?';
      assert e[..|collection| + 1] == "/" + collection;
      IndexOfFirst(e, '?', |collection| + 1);
    } else {
      assert e == "/" + collection;
      assert forall i :: 1 <= i < |e| ==> e[i] == collection[i - 1];
    }
  }

  /** `${API_BASE_URL}${endpoint}`. */
  function Url(viteApiUrl: Option<string>, endpoint: string): string {
    BaseUrl(viteApiUrl) + endpoint
  }

  /**
   * The URL `getAll` fetches starts with the base URL, has a "?" exactly
   * when there is a query string, and everything after its first "?" is
   * that query string, provided neither the base URL nor the collection
   * path holds a "?".
   */
  lemma GetAllUrlQuery(viteApiUrl: Option<string>, collection: string, queryString: string)
    requires '?' !in BaseUrl(viteApiUrl) && '?' !in collection
    ensures var u := Url(viteApiUrl, ListEndpoint(collection, queryString));
      && u[..|BaseUrl(viteApiUrl)|] == BaseUrl(viteApiUrl)
      && ('?' in u <==> queryString != "")
      && (queryString != "" ==> u[IndexOf(u, '?') + 1..] == queryString)
  {
    ListEndpointParts(collection, queryString);
    var e := ListEndpoint(collection, queryString);
    if queryString != "" {
      QueryAfterPrefix(BaseUrl(viteApiUrl), e, |collection| + 1);
    }
  }

  /** Behind a prefix without "?", the first "?" of a string is the first "?" of its tail. */
  lemma QueryAfterPrefix(b: string, e: string, k: nat)
    requires '?' !in b && k < |e| && e[k] == '?' && '?' !in e[..k]
    ensures var u := b + e; '?' in u && IndexOf(u, '?') == |b| + k && u[|b| + k + 1..] == e[k + 1..]
  {
    var u := b + e;
    assert u[|b| + k] == '?';
    assert u[..|b| + k] == b + e[..k];
    IndexOfFirst(u, '?', |b| + k);
    assert u[|b| + k + 1..] == e[k + 1..];
  }

  /** The message of the error a failed response raises: the body's `message` when truthy, as `new Error` turns it into a string, else the status text. */
  function HttpErrorMessage(data: Record, status: int): string {
    var message := Get(data, "message");
    if Truthy(message) then ToString(message) else HttpErrorPrefix + IntToString(status)
  }

  /** `apiCall` once `fetch` has answered: the data when `ok`, else the error it throws. */
  function CallResult(ok: bool, status: int, data: Record): (r: Result<Record, string>)
    ensures ok <==> r.Ok?
    ensures r.Ok? ==> r.value == data
    ensures !ok && Truthy(Get(data, "message")) ==> r.error == ToString(Get(data, "message"))
    ensures !ok && !Truthy(Get(data, "message")) ==> r.error == HttpErrorPrefix + IntToString(status)
  {
    if ok then Ok(data) else Err(HttpErrorMessage(data, status))
  }

  /** `handleAPIError`: a message mentioning "fetch" is a network error; otherwise the message, or the fallback when it is empty. */
  function HandleApiError(message: string): (r: string)
    ensures Contains(message, "fetch") ==> r == NetworkError
    ensures !Contains(message, "fetch") && message != "" ==> r == message
    ensures !Contains(message, "fetch") && message == "" ==> r == UnexpectedError
  {
    if Contains(message, "fetch") then NetworkError
    else if message != "" then message
    else UnexpectedError
  }

  /** `handleAPIError` never answers with an empty text. */
  lemma HandleApiErrorNonEmpty(message: string)
    ensures HandleApiError(message) != ""
  {
  }

  /** A string without an "f" cannot contain "fetch". */
  lemma NoFNoFetch(s: string)
    requires 'f' !in s
    ensures !Contains(s, "fetch")
  {
    forall i | 0 <= i < |s| ensures !("fetch" <= s[i..]) {
      assert s[i..][0] == s[i] != 'f';
    }
  }

  /**
   * A failed response whose body has no message reaches the user as
   * "HTTP error! status: N": the status text has no "fetch" in it, so it
   * is not mistaken for a network error.
   */
  lemma StatusErrorShownAsIs(data: Record, status: int)
    requires !Truthy(Get(data, "message"))
    ensures HandleApiError(HttpErrorMessage(data, status)) == HttpErrorPrefix + IntToString(status)
  {
    var digits := NatToString(if status < 0 then -status else status);
    assert forall i :: 0 <= i < |digits| ==> digits[i] != 'f';
    assert 'f' !in HttpErrorPrefix + IntToString(status);
    NoFNoFetch(HttpErrorPrefix + IntToString(status));
  }
}
