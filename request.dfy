/**
 * The outcome classification of `InstagramClient._request`: one GET against
 * the private API either yields the decoded JSON body (status 200) or raises
 * an `InstagramError` whose code follows the HTTP status or the kind of
 * transport failure.  The session, its headers, cookies and retry policy and
 * the random delay before each call are not modelled: what the session
 * finally hands back is the input.
 */
module ApiRequest {
  import opened Wrappers
  import opened Errors
  import opened PyText

  /**
   * A response body: JSON that decoded to a value of type P, with the value of
   * its "message" key when it has one, or text that is not JSON.
   */
  datatype Body<P> = Json(payload: P, message: Option<string>) | NotJson(text: string, decodeError: string)

  /** What the HTTP session produced for one request. */
  datatype Transport<P> =
    | Response(status: int, body: Body<P>)
    | Timeout
    | ConnectionFailure
    | RequestFailure(detail: string)

  const SessionExpiredMessage := "Session expired - please update session credentials"
  const RateLimitedMessage := "Rate limited - please wait before trying again"

  /**
   * `_request`: 200 returns the decoded body; 400, 401, 404 and 429 raise their
   * own messages; every other status raises "Request failed with status N" with
   * code N.  A timeout is 504, a connection error 503, any other failure of the
   * HTTP library 500.  A 200 whose body is not JSON makes `response.json()`
   * raise the library's decode error, which `_request` reports as 500.
   */
  function Request<P>(t: Transport<P>): (r: Result<P, Exception>)
    ensures r.Success? <==> t.Response? && t.status == 200 && t.body.Json?
    ensures r.Success? ==> r.value == t.body.payload
    ensures r.Failure? ==> r.error.InstagramError?
    ensures t.Response? && t.status != 200 ==> r.Failure? && r.error.status == t.status
    ensures t.Timeout? ==> r == Failure(InstagramError("Request timed out", 504))
    ensures t.ConnectionFailure? ==> r == Failure(InstagramError("Connection error", 503))
    ensures t.RequestFailure? || (t.Response? && t.status == 200) ==> r.Failure? ==> r.error.status == 500
  {
    match t
    case Response(status, body) =>
      if status == 200 then
        match body
        case Json(payload, _) => Success(payload)
        case NotJson(_, reason) => Failure(InstagramError("Request failed: " + reason, 500))
      else if status == 400 then
        match body
        case Json(_, message) => Failure(InstagramError(message.GetOr("Bad request"), 400))
        case NotJson(text, _) => Failure(InstagramError("Bad request: " + Take(text, 200), 400))
      else if status == 401 then Failure(InstagramError(SessionExpiredMessage, 401))
      else if status == 404 then Failure(InstagramError("Not found", 404))
      else if status == 429 then Failure(InstagramError(RateLimitedMessage, 429))
      else Failure(InstagramError("Request failed with status " + IntToDecimal(status), status))
    case Timeout => Failure(InstagramError("Request timed out", 504))
    case ConnectionFailure => Failure(InstagramError("Connection error", 503))
    case RequestFailure(detail) => Failure(InstagramError("Request failed: " + detail, 500))
  }
}
