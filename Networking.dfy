/** `NetworkManager.fetch`: the connectivity gate, the request check, the transport
    call, status validation, decoding, and the mapping of every failure into
    `AppError`. The session, the decoder and the connectivity monitor are inputs. */
module Networking {
  import opened Wrappers
  import AppErrors
  import Endpoints

  /** What the connectivity monitor reports. */
  datatype NetworkStatus = Undetermined | Connected | Disconnected

  /** A response body (`Data`). */
  type Body = seq<bv8>

  datatype Response = HttpResponse(statusCode: int) | NonHttpResponse

  datatype UrlErrorCode = NotConnectedToInternet | NetworkConnectionLost | OtherUrlErrorCode(rawValue: int)

  /** What the session's `data(for:)` does with a request: returns a body and a
      response, throws a `URLError`, throws an `AppError` (an injected session
      may), or throws some other error. */
  datatype Transport =
    | Received(body: Body, response: Response)
    | UrlFailure(code: UrlErrorCode, localizedDescription: string)
    | AppFailure(error: AppErrors.AppError)
    | OtherFailure(localizedDescription: string)

  /** What the JSON decoder makes of a body. */
  datatype Decoded<T> = Decoded(value: T) | DecodingError

  /** The outcome of one fetch, and the requests handed to the session on the way. */
  datatype Fetched<T> = Fetched(result: Result<T, AppErrors.AppError>, sent: seq<Endpoints.Request>)

  const InvalidResponseMessage: string := "Invalid response type"

  /** The error a `URLError` becomes: losing connectivity counts as being offline. */
  function MapUrlError(code: UrlErrorCode, localizedDescription: string): (e: AppErrors.AppError)
    ensures e == AppErrors.Offline || e == AppErrors.Unknown(None, localizedDescription)
    ensures e == AppErrors.Offline <==> (code.NotConnectedToInternet? || code.NetworkConnectionLost?)
  {
    match code
    case NotConnectedToInternet => AppErrors.Offline
    case NetworkConnectionLost => AppErrors.Offline
    case OtherUrlErrorCode(_) => AppErrors.Unknown(None, localizedDescription)
  }

  /** The body of the `do` block once a response has arrived. */
  function Receive<T>(body: Body, response: Response, decode: Body -> Decoded<T>): (r: Result<T, AppErrors.AppError>)
    // success exactly on a 2xx HTTP response whose body decodes, with the decoded value
    ensures r.Success? <==>
              response.HttpResponse? && 200 <= response.statusCode <= 299 && decode(body).Decoded?
    ensures r.Success? ==> r.value == decode(body).value
    // a failing status surfaces as the error its code maps to
    ensures response.HttpResponse? && AppErrors.ValidateStatusCode(response.statusCode).Fail? ==>
              r == Failure(AppErrors.ValidateStatusCode(response.statusCode).error)
    // once a response has arrived, the failure is never about connectivity
    ensures r.Failure? ==> !r.error.Offline? && !r.error.BadURL? && !r.error.EmptyData?
  {
    match response
    case NonHttpResponse => Failure(AppErrors.Unknown(None, InvalidResponseMessage))
    case HttpResponse(statusCode) =>
      match AppErrors.ValidateStatusCode(statusCode)
      case Fail(e) => Failure(e)
      case Pass =>
        match decode(body)
        case Decoded(v) => Success(v)
        case DecodingError => Failure(AppErrors.DecodingFailed)
  }

  /** `fetch(endpoint:)`, given the monitor's status, the endpoint's `urlRequest`,
      the session and the decoder. */
  function Fetch<T>(monitor: NetworkStatus, request: Option<Endpoints.Request>,
                    session: Endpoints.Request -> Transport, decode: Body -> Decoded<T>): (f: Fetched<T>)
    // the session is called at most once, and only when connected with a request
    ensures f.sent == (if monitor == Connected && request.Some? then [request.value] else [])
    // any status but `connected` fails fast as offline
    ensures monitor != Connected ==> f.result == Failure(AppErrors.Offline)
    // `badURL` exactly when connected and the endpoint yields no request, or the
    // session itself throws `badURL`
    ensures f.result == Failure(AppErrors.BadURL) <==>
              monitor == Connected && (request.None? || session(request.value) == AppFailure(AppErrors.BadURL))
    // success exactly on a 2xx HTTP response whose body decodes, with the decoded value
    ensures f.result.Success? <==>
              && monitor == Connected && request.Some?
              && session(request.value).Received?
              && session(request.value).response.HttpResponse?
              && 200 <= session(request.value).response.statusCode <= 299
              && decode(session(request.value).body).Decoded?
    ensures f.result.Success? ==> f.result.value == decode(session(request.value).body).value
    // the error kind that only the app's caches produce comes from the network only
    // when the session itself throws it
    ensures f.result == Failure(AppErrors.EmptyData) ==>
              monitor == Connected && request.Some? && session(request.value) == AppFailure(AppErrors.EmptyData)
  {
    if monitor != Connected then
      Fetched(Failure(AppErrors.Offline), [])
    else if request.None? then
      Fetched(Failure(AppErrors.BadURL), [])
    else
      var result :=
        match session(request.value)
        case Received(body, response) => Receive(body, response, decode)
        case UrlFailure(code, description) => Failure(MapUrlError(code, description))
        case AppFailure(e) => Failure(e)
        case OtherFailure(description) => Failure(AppErrors.Unknown(None, description));
      Fetched(result, [request.value])
  }

  /** How each failure after the request has been sent is reported. */
  lemma FetchFailureCases<T>(request: Endpoints.Request, session: Endpoints.Request -> Transport,
                             decode: Body -> Decoded<T>)
    ensures var t, r := session(request), Fetch(Connected, Some(request), session, decode).result;
      && (t.Received? && t.response.NonHttpResponse? ==>
            r == Failure(AppErrors.Unknown(None, InvalidResponseMessage)))
      && (t.Received? && t.response.HttpResponse? && AppErrors.ValidateStatusCode(t.response.statusCode).Fail? ==>
            r == Failure(AppErrors.ValidateStatusCode(t.response.statusCode).error))
      && ((t.Received? && t.response.HttpResponse? && 200 <= t.response.statusCode <= 299
           && decode(t.body).DecodingError?) ==> r == Failure(AppErrors.DecodingFailed))
      && (t.UrlFailure? ==> r == Failure(MapUrlError(t.code, t.localizedDescription)))
      && (t.AppFailure? ==> r == Failure(t.error))
      && (t.OtherFailure? ==> r == Failure(AppErrors.Unknown(None, t.localizedDescription)))
  {
  }
}
