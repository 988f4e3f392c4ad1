/** `APIEndpoint`: the two upstream resources, their paths, and the authorised
    `URLRequest` built for each against the configured base URL. */
module Endpoints {
  import opened Wrappers
  import Decimal

  datatype HttpMethod = GET | POST

  /** The `String` raw value of an `HTTPMethod`, which `URLRequest.httpMethod` receives. */
  function MethodName(m: HttpMethod): string {
    match m
    case GET => "GET"
    case POST => "POST"
  }

  datatype APIEndpoint = Movies(category: string) | MovieDetail(id: int)

  const DetailPrefix: string := "/movie/"

  /** `path`: a list endpoint carries its path verbatim; a detail path is "/movie/"
      followed by the decimal id, from which the id can be read back. */
  function Path(e: APIEndpoint): (p: string)
    ensures e.Movies? ==> p == e.category
    ensures e.MovieDetail? ==> |p| > |DetailPrefix| && p[..|DetailPrefix|] == DetailPrefix
    ensures e.MovieDetail? ==> Decimal.ParseInt(p[|DetailPrefix|..]) == Some(e.id)
  {
    match e
    case Movies(category) => category
    case MovieDetail(id) =>
      var digits := Decimal.IntToString(id);
      Decimal.IntRoundTrip(id);
      assert (DetailPrefix + digits)[|DetailPrefix|..] == digits;
      DetailPrefix + digits
  }

  /** `method`: the protocol's default, which neither case overrides. */
  function Method(e: APIEndpoint): HttpMethod {
    GET
  }

  /** The parts of a URL that `URLComponents` is given: scheme, host and path. */
  datatype Url = Url(scheme: Option<string>, host: Option<string>, path: string)

  /** `Configuration.baseURL`, "https://api.themoviedb.org/3", taken apart. */
  const BaseURL: Url := Url(Some("https"), Some("api.themoviedb.org"), "/3")

  /** Whether `URLComponents.url` yields a URL: with a host, a non-empty path must
      start with "/"; without one, the path must not start with "//". */
  predicate FormsUrl(u: Url) {
    && (u.host.Some? ==> u.path == [] || u.path[0] == '/')
    && (u.host.None? ==> !(|u.path| >= 2 && u.path[..2] == "//"))
  }

  datatype Request = Request(url: Url, httpMethod: string, headers: map<string, string>)

  const AuthorizationField: string := "Authorization"
  const BearerPrefix: string := "Bearer "

  /** The value of the `Authorization` header: the bearer scheme of section 2.1 of
      RFC 6750 followed by the API key. */
  function BearerCredentials(apiKey: string): (v: string)
    ensures |v| == |BearerPrefix| + |apiKey| && v[..|BearerPrefix|] == BearerPrefix
    ensures v[|BearerPrefix|..] == apiKey
  {
    BearerPrefix + apiKey
  }

  /** The request `urlRequest` builds: scheme and host from the base URL, the
      endpoint's path after the base path, the endpoint's method and the bearer
      header; None when those parts do not form a URL. */
  function UrlRequest(e: APIEndpoint, base: Url, apiKey: string): (r: Option<Request>)
    ensures r.Some? <==> FormsUrl(Url(base.scheme, base.host, base.path + Path(e)))
    ensures r.Some? ==> r.value.url == Url(base.scheme, base.host, base.path + Path(e))
    ensures r.Some? ==> r.value.httpMethod == MethodName(Method(e))
    ensures r.Some? ==> r.value.headers.Keys == {AuthorizationField}
    ensures r.Some? ==> r.value.headers[AuthorizationField] == BearerCredentials(apiKey)
  {
    var components := Url(base.scheme, base.host, base.path + Path(e));
    if !FormsUrl(components) then None
    else Some(Request(components, MethodName(Method(e)), map[AuthorizationField := BearerCredentials(apiKey)]))
  }

  /** Against the configured base URL every endpoint forms a URL, so `badURL` never
      arises from these two endpoints; the path is "/3" followed by the endpoint's. */
  lemma ConfiguredRequestsForm(e: APIEndpoint, apiKey: string)
    ensures UrlRequest(e, BaseURL, apiKey).Some?
    ensures UrlRequest(e, BaseURL, apiKey).value.url.path == "/3" + Path(e)
    ensures UrlRequest(e, BaseURL, apiKey).value.url.host == Some("api.themoviedb.org")
  {
    assert (BaseURL.path + Path(e))[0] == '/';
  }

  /** The request for a movie's details: "https://api.themoviedb.org/3/movie/5" for id 5. */
  lemma DetailRequestExample(apiKey: string)
    ensures UrlRequest(MovieDetail(5), BaseURL, apiKey).value.url.path == "/3/movie/5"
  {
    ConfiguredRequestsForm(MovieDetail(5), apiKey);
  }
}
