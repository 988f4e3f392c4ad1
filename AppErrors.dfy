/** The app's closed error taxonomy, its user-facing descriptions and the
    classification of HTTP status codes into it. */
module AppErrors {
  import opened Wrappers
  import Decimal

  /** `AppError`. The `unknown` case defaults its status code to nil. */
  datatype AppError =
    | RateLimitExceeded
    | InvalidAPIKey
    | BadURL
    | Offline
    | DecodingFailed
    | ServerError(statusCode: int)
    | ClientError(statusCode: int)
    | EmptyData
    | Unknown(code: Option<int>, message: string)

  /** The message `unknown` carries when none is given. */
  const DefaultUnknownMessage: string := "An unknown error occurred."

  /** Any Swift `Error`: an `AppError`, or some other error known only by its
      `localizedDescription` (a Core Data or Foundation error, say). */
  datatype ThrownError = App(appError: AppError) | Other(localizedDescription: string)

  /** The text a user is shown for an error: `errorDescription` for an `AppError`,
      `localizedDescription` for any other error. */
  function DisplayMessage(e: ThrownError): (s: string)
    ensures e.App? ==> s == ErrorDescription(e.appError)
    ensures e.Other? ==> s == e.localizedDescription
  {
    match e
    case App(a) => ErrorDescription(a)
    case Other(d) => d
  }

  // ---------------------------------------------------------------------------
  // Descriptions

  const GenericClientPrefix: string := "Request failed (code "
  const GenericClientSuffix: string := ")."

  /** `clientErrorMessage(for:)`: four codes have their own text; any other code is
      written into a generic message. */
  function ClientErrorMessage(statusCode: int): (s: string)
    ensures statusCode !in {400, 401, 404, 429} ==>
              s == GenericClientPrefix + Decimal.IntToString(statusCode) + GenericClientSuffix
  {
    if statusCode == 400 then "Bad request."
    else if statusCode == 401 then "Unauthorized. Invalid API key."
    else if statusCode == 404 then "Resource not found."
    else if statusCode == 429 then "Too many requests."
    else GenericClientPrefix + Decimal.IntToString(statusCode) + GenericClientSuffix
  }

  /** `errorDescription`: only an `unknown` error can be described by the empty text,
      and then only when its message is empty. */
  function ErrorDescription(e: AppError): (s: string)
    ensures e.Unknown? ==> s == e.message
    ensures !e.Unknown? ==> |s| > 0
  {
    match e
    case RateLimitExceeded => "Rate limit exceeded. Please try again later."
    case InvalidAPIKey => "Invalid API key. Contact support."
    case BadURL => "Invalid URL."
    case Offline => "The internet connection appears offline."
    case DecodingFailed => "Failed to parse server response."
    case ServerError(_) => "Server error. Try again later."
    case ClientError(code) => ClientErrorMessage(code)
    case EmptyData => "No data available."
    case Unknown(_, message) => message
  }

  /** The description of a server error does not depend on its status code. */
  lemma ServerDescriptionIgnoresCode(a: int, b: int)
    ensures ErrorDescription(ServerError(a)) == ErrorDescription(ServerError(b))
  {
  }

  /** Client errors outside the four named codes are told apart by their descriptions. */
  lemma ClientDescriptionInjective(a: int, b: int)
    requires a !in {400, 401, 404, 429} && b !in {400, 401, 404, 429}
    requires ErrorDescription(ClientError(a)) == ErrorDescription(ClientError(b))
    ensures a == b
  {
    var sa, sb := Decimal.IntToString(a), Decimal.IntToString(b);
    var da, db := ErrorDescription(ClientError(a)), ErrorDescription(ClientError(b));
    var p, q := |GenericClientPrefix|, |GenericClientSuffix|;
    assert da == GenericClientPrefix + sa + GenericClientSuffix;
    assert db == GenericClientPrefix + sb + GenericClientSuffix;
    assert |sa| == |sb|;
    assert sa == da[p..p + |sa|];
    assert sb == db[p..p + |sb|];
    Decimal.IntToStringInjective(a, b);
  }

  // ---------------------------------------------------------------------------
  // Context and equality

  /** `with(context:)`: a decoding failure becomes an `unknown` error whose message
      carries the context; every other error is returned as it is. */
  function WithContext(e: AppError, context: string): (r: AppError)
    ensures !r.DecodingFailed?
    ensures !e.DecodingFailed? ==> r == e
    ensures e.DecodingFailed? ==> r.Unknown? && r.code.None?
    ensures e.DecodingFailed? ==> ErrorDescription(r) == "Decoding failed: " + context
  {
    match e
    case DecodingFailed => Unknown(None, "Decoding failed: " + context)
    case _ => e
  }

  /** Attaching a second context changes nothing: the first one has already
      replaced the only case it rewrites. */
  lemma WithContextIdempotent(e: AppError, first: string, second: string)
    ensures WithContext(WithContext(e, first), second) == WithContext(e, first)
  {
  }

  /** The hand-written `==`: same case and equal payloads; for `unknown`, both the
      status code and the message. */
  function Equal(a: AppError, b: AppError): (r: bool)
    ensures r <==> a == b
  {
    match (a, b)
    case (RateLimitExceeded, RateLimitExceeded) => true
    case (InvalidAPIKey, InvalidAPIKey) => true
    case (BadURL, BadURL) => true
    case (Offline, Offline) => true
    case (DecodingFailed, DecodingFailed) => true
    case (EmptyData, EmptyData) => true
    case (ServerError(x), ServerError(y)) => x == y
    case (ClientError(x), ClientError(y)) => x == y
    case (Unknown(x, m), Unknown(y, n)) => x == y && m == n
    case _ => false
  }

  // ---------------------------------------------------------------------------
  // Status classification

  const UnexpectedStatusPrefix: string := "Unexpected HTTP status: "

  /** The status code an error produced by `ValidateStatusCode` stands for. */
  function StatusCodeOf(e: AppError): Option<int> {
    match e
    case InvalidAPIKey => Some(401)
    case RateLimitExceeded => Some(429)
    case ClientError(code) => Some(code)
    case ServerError(code) => Some(code)
    case Unknown(code, _) => code
    case _ => None
  }

  /** `HTTPURLResponse.validateStatusCode()`: passes exactly on a 2xx code, and
      otherwise fails with an error from which the code can be read back. */
  function ValidateStatusCode(statusCode: int): (r: Outcome<AppError>)
    ensures r.Pass? <==> 200 <= statusCode <= 299
    ensures r.Fail? ==> StatusCodeOf(r.error) == Some(statusCode)
  {
    if 200 <= statusCode <= 299 then Pass
    else if 400 <= statusCode <= 499 then
      if statusCode == 401 then Fail(InvalidAPIKey)
      else if statusCode == 429 then Fail(RateLimitExceeded)
      else Fail(ClientError(statusCode))
    else if 500 <= statusCode <= 599 then Fail(ServerError(statusCode))
    else Fail(Unknown(Some(statusCode), UnexpectedStatusPrefix + Decimal.IntToString(statusCode)))
  }

  /** The error for each kind of failing status code. */
  lemma ValidateStatusCodeCases(statusCode: int)
    ensures statusCode == 401 ==> ValidateStatusCode(statusCode) == Fail(InvalidAPIKey)
    ensures statusCode == 429 ==> ValidateStatusCode(statusCode) == Fail(RateLimitExceeded)
    ensures 400 <= statusCode <= 499 && statusCode != 401 && statusCode != 429 ==>
              ValidateStatusCode(statusCode) == Fail(ClientError(statusCode))
    ensures 500 <= statusCode <= 599 ==> ValidateStatusCode(statusCode) == Fail(ServerError(statusCode))
    ensures (statusCode < 200 || 300 <= statusCode <= 399 || 600 <= statusCode) ==>
              ValidateStatusCode(statusCode) ==
                Fail(Unknown(Some(statusCode), UnexpectedStatusPrefix + Decimal.IntToString(statusCode)))
  {
  }

  /** Two failing status codes never give the same error. */
  lemma ValidateStatusCodeInjective(a: int, b: int)
    requires ValidateStatusCode(a).Fail? && ValidateStatusCode(a) == ValidateStatusCode(b)
    ensures a == b
  {
  }

  /** The status classes of section 15 of RFC 9110, by first digit. */
  datatype StatusClass = Informational | Successful | Redirection | ClientFault | ServerFault | Unclassified

  function ClassOf(statusCode: int): StatusClass {
    if statusCode < 100 || 599 < statusCode then Unclassified
    else [Informational, Successful, Redirection, ClientFault, ServerFault][statusCode / 100 - 1]
  }

  /** The errors validation gives for a client-side (4xx) status. */
  predicate IsClientSideError(e: AppError) {
    e.InvalidAPIKey? || e.RateLimitExceeded? || e.ClientError?
  }

  /** Validation follows the RFC 9110 classes: success exactly on the 2xx class,
      a client-side error exactly on 4xx, a server error exactly on 5xx, and an
      `unknown` error carrying the code on everything else. */
  lemma ValidateFollowsStatusClass(statusCode: int)
    ensures ValidateStatusCode(statusCode).Pass? <==> ClassOf(statusCode) == Successful
    ensures (ValidateStatusCode(statusCode).Fail? && IsClientSideError(ValidateStatusCode(statusCode).error))
              <==> ClassOf(statusCode) == ClientFault
    ensures (ValidateStatusCode(statusCode).Fail? && ValidateStatusCode(statusCode).error.ServerError?)
              <==> ClassOf(statusCode) == ServerFault
    ensures (ValidateStatusCode(statusCode).Fail? && ValidateStatusCode(statusCode).error.Unknown?)
              <==> ClassOf(statusCode) in {Informational, Redirection, Unclassified}
  {
    if 100 <= statusCode <= 599 {
      var k := statusCode / 100;
      assert 1 <= k <= 5;
      assert k == 1 <==> statusCode <= 199;
      assert k == 2 <==> 200 <= statusCode <= 299;
      assert k == 3 <==> 300 <= statusCode <= 399;
      assert k == 4 <==> 400 <= statusCode <= 499;
      assert k == 5 <==> 500 <= statusCode;
    }
  }
}
