/** The payment-gateway client (lib/paymentService.ts): one cached bearer
    token, an authorisation decision made before every request, a fixed
    translation of transport outcomes into `PaymentServiceError`s, and four
    public operations that rewrap every failure under their own prefix.

    The network is an oracle: every operation takes the outcome the gateway
    gives to the token request (`authReply`, consulted only if a token request
    is actually made) and the outcome of the operation's own request (`reply`).
    Every call returns the client's next state, what the operation returns or
    throws, and the requests it sent, in order. */
module PaymentService {
  import opened Wrappers
  import opened PaymentTypes
  import opened ServiceError

  const ApiBaseUrl := "https://pay.pesapal.com/v3/"

  /** The margin `isTokenExpired` keeps before the real expiry: 5 minutes. */
  const TokenBufferMs := 5 * 60 * 1000

  /** The largest magnitude of a valid JavaScript time value (ECMA-262, section 21.4.1.31). */
  const MaxTimeMs := 8_640_000_000_000_000

  const TokenEndpoint := "api/Auth/RequestToken"
  const SubmitOrderEndpoint := "api/Transactions/SubmitOrderRequest"
  const RegisterIpnEndpoint := "api/URLSetup/RegisterIPN"
  const OrderStatusEndpoint := "api/Transactions/GetTransactionStatus?orderTrackingId="

  const AuthenticationPrefix := "Authentication failed: "
  const SubmissionPrefix := "Order submission failed: "
  const IpnPrefix := "IPN registration failed: "
  const OrderStatusPrefix := "Failed to get order status: "

  const UnparseableBodyMessage := "Failed to parse error response"
  const TimeoutMessage := "Request timeout"
  const UnknownErrorMessage := "Unknown error occurred"

  /** The current time, and `new Date(text)` for the token's expiry text. */
  datatype Clock = Clock(now: int, parseDate: string -> Date)

  /** The client's only state: the cached token, if any. */
  datatype Client = Client(tokenInfo: Option<TokenInfo>)

  datatype Payload =
    | NoBody
    | CredentialsBody(credentials: Credentials)
    | OrderBody(order: PaymentOrderRequest)
    | IpnBody(ipn: PaymentIPNRegister)

  datatype HttpRequest = HttpRequest(verb: string, url: string, headers: map<string, string>, body: Payload)

  /** What `fetch` and `response.json()` produce for one request: a 2xx
      response with its JSON body; a non-2xx response with its status, status
      text and JSON body (`None` when the body is not JSON); or a value thrown
      by `fetch` or by `response.json()` (the abort of the 10-second timer, a
      network `TypeError`, a `SyntaxError` from a malformed 2xx body, ...). */
  datatype Outcome<T> =
    | Ok(body: T)
    | NotOk(status: int, statusText: string, errorBody: Option<ErrorData>)
    | Threw(thrown: Thrown)

  /** The rejection `fetch` produces once the 10-second timer aborts the request. */
  function Timeout<T>(): Outcome<T> {
    Threw(PlainError("AbortError", "This operation was aborted"))
  }

  datatype Call<T> = Call(client: Client, result: Result<T, PaymentServiceError>, sent: seq<HttpRequest>)

  /* ------------------------------------------------------------ token */

  /** `new Date(ms)`: out of the representable range it is the Invalid Date. */
  function DateFromMs(ms: int): Date {
    if -MaxTimeMs <= ms <= MaxTimeMs then ValidDate(ms) else InvalidDate
  }

  /** `now >= date`: any comparison with the Invalid Date (NaN) is false. */
  predicate NotBefore(now: int, d: Date) {
    d.ValidDate? && now >= d.ms
  }

  /** `isTokenExpired()`: no token, or the time is at least five minutes
      before the recorded expiry. */
  predicate IsTokenExpired(c: Client, now: int) {
    match c.tokenInfo
    case None => true
    case Some(info) =>
      match info.expiryDate
      case InvalidDate => NotBefore(now, InvalidDate)
      case ValidDate(ms) => NotBefore(now, DateFromMs(ms - TokenBufferMs))
  }

  /** A cached token with a valid expiry `e` is reused up to, but not
      including, `e - 300000` ms, and is expired from then on. */
  lemma TokenFreshnessWindow(c: Client, now: int, e: int)
    requires c.tokenInfo.Some? && c.tokenInfo.value.expiryDate == ValidDate(e)
    requires -MaxTimeMs <= e - TokenBufferMs <= MaxTimeMs
    ensures IsTokenExpired(c, now) <==> now >= e - 300000
  {
  }

  /** Once expired, a token stays expired as time goes on. */
  lemma ExpiryIsPermanent(c: Client, now: int, later: int)
    requires now <= later
    requires IsTokenExpired(c, now)
    ensures IsTokenExpired(c, later)
  {
  }

  /** A token whose expiry text did not parse is never considered expired. */
  lemma UnparsedExpiryNeverExpires(c: Client, now: int)
    requires c.tokenInfo.Some? && c.tokenInfo.value.expiryDate.InvalidDate?
    ensures !IsTokenExpired(c, now)
  {
  }

  /* ----------------------------------------------------------- request */

  function BaseHeaders(): map<string, string> {
    map["Content-Type" := "application/json", "Cache-Control" := "no-cache"]
  }

  /** The request `fetchWithConfig` sends; with a token it carries an
      `Authorization: Bearer <token>` header (section 2.1 of RFC 6750). */
  function Request(verb: string, endpoint: string, body: Payload, token: Option<string>): HttpRequest {
    var headers := if token.Some? then BaseHeaders()["Authorization" := "Bearer " + token.value] else BaseHeaders();
    HttpRequest(verb, ApiBaseUrl + endpoint, headers, body)
  }

  /** The Authorization header of a request, if it has one. */
  function Authorization(r: HttpRequest): Option<string> {
    if "Authorization" in r.headers then Some(r.headers["Authorization"]) else None
  }

  /* ------------------------------------------------- error translation */

  /** The error thrown for a non-2xx response: the body's message when it is
      truthy, else the status text; an unparseable body is replaced by one
      whose message is `'Failed to parse error response'`. */
  function NotOkError(status: int, statusText: string, errorBody: Option<ErrorData>): PaymentServiceError {
    var errorData := errorBody.GetOr(ErrorData(Some(UnparseableBodyMessage), map[]));
    var message := if errorData.message.Some? && errorData.message.value != "" then errorData.message.value else statusText;
    PaymentServiceError(message, Some(status), Some(errorData))
  }

  /** The `catch` of `fetchWithConfig`. */
  function CaughtError(t: Thrown): PaymentServiceError {
    if t.ServiceFailure? then t.error
    else if IsError(t) then
      if NameOf(t) == "AbortError" then PaymentServiceError(TimeoutMessage, None, None)
      else PaymentServiceError(MessageOf(t), None, None)
    else PaymentServiceError(UnknownErrorMessage, None, None)
  }

  /** The `try` block of `fetchWithConfig` and its `catch`: a 2xx body is
      returned, everything else is thrown as a `PaymentServiceError`. */
  function Translate<T>(o: Outcome<T>): Result<T, PaymentServiceError> {
    match o
    case Ok(body) => Success(body)
    case NotOk(status, statusText, errorBody) => Failure(CaughtError(ServiceFailure(NotOkError(status, statusText, errorBody))))
    case Threw(t) => Failure(CaughtError(t))
  }

  /** What the translation makes of each outcome. Only a 2xx response
      succeeds. A non-2xx response keeps its status and its (parsed or
      substituted) body, with the body's truthy message or else the status
      text; an unparseable body gives `'Failed to parse error response'`. The
      timer's abort becomes `'Request timeout'`, any other `Error` keeps its
      message, a non-`Error` becomes `'Unknown error occurred'`, and none of
      these carries a status code or a body; a `PaymentServiceError` passes
      through unchanged. */
  lemma TranslationTable<T>(o: Outcome<T>)
    ensures Translate(o).Success? <==> o.Ok?
    ensures o.Ok? ==> Translate(o).value == o.body
    ensures o.NotOk? && o.errorBody.Some? ==>
      var m := o.errorBody.value.message;
      Translate(o) == Failure(PaymentServiceError(
        if m.Some? && m.value != "" then m.value else o.statusText, Some(o.status), o.errorBody))
    ensures o.NotOk? && o.errorBody.None? ==>
      Translate(o) == Failure(PaymentServiceError(
        UnparseableBodyMessage, Some(o.status), Some(ErrorData(Some(UnparseableBodyMessage), map[]))))
    ensures o.Threw? && o.thrown.PlainError? && o.thrown.name == "AbortError" ==>
      Translate(o) == Failure(PaymentServiceError(TimeoutMessage, None, None))
    ensures o.Threw? && o.thrown.PlainError? && o.thrown.name != "AbortError" ==>
      Translate(o) == Failure(PaymentServiceError(o.thrown.message, None, None))
    ensures o == Threw(NonError) ==> Translate(o) == Failure(PaymentServiceError(UnknownErrorMessage, None, None))
    ensures o.Threw? && o.thrown.ServiceFailure? ==> Translate(o) == Failure(o.thrown.error)
  {
  }

  /** A status code and a response body appear on a translated error only
      when the gateway answered with a non-2xx status (or when a
      `PaymentServiceError` carrying them was rethrown). */
  lemma StatusCodeOnlyFromResponses<T>(o: Outcome<T>)
    requires Translate(o).Failure?
    requires !(o.Threw? && o.thrown.ServiceFailure?)
    ensures Translate(o).error.statusCode.Some? <==> o.NotOk?
    ensures Translate(o).error.responseData.Some? <==> o.NotOk?
    ensures o.NotOk? ==> Translate(o).error.statusCode == Some(o.status)
  {
  }

  /* ------------------------------------------------- fetchWithConfig */

  /** `fetchWithConfig`: with a usable cached token the request carries it;
      otherwise, given credentials, exactly one token request precedes it and
      the request carries the freshly stored token without its expiry being
      looked at again, while a failed token request ends the call with the
      authentication error; without credentials the request goes out with no
      Authorization header. */
  function FetchWithConfig<T>(
    c: Client, clock: Clock, verb: string, endpoint: string, body: Payload,
    credentials: Option<Credentials>, authReply: Outcome<PaymentAuth>, reply: Outcome<T>): (call: Call<T>)
    decreases if credentials.Some? then 2 else 0
    ensures !IsTokenExpired(c, clock.now) ==>
      && call.client == c
      && call.sent == [Request(verb, endpoint, body, Some(c.tokenInfo.value.token))]
      && call.result == Translate(reply)
    ensures IsTokenExpired(c, clock.now) && credentials.None? ==>
      && call.client == c
      && call.sent == [Request(verb, endpoint, body, None)]
      && call.result == Translate(reply)
    ensures IsTokenExpired(c, clock.now) && credentials.Some? && authReply.Ok? ==>
      var token := authReply.body.token;
      && call.client == Client(Some(TokenInfo(token, clock.parseDate(authReply.body.expiryDate))))
      && call.sent == [Request("POST", TokenEndpoint, CredentialsBody(credentials.value), None),
                       Request(verb, endpoint, body, Some(token))]
      && call.result == Translate(reply)
    ensures IsTokenExpired(c, clock.now) && credentials.Some? && !authReply.Ok? ==>
      && call.client == c
      && call.sent == [Request("POST", TokenEndpoint, CredentialsBody(credentials.value), None)]
      && call.result == Failure(Rewrap(AuthenticationPrefix, Translate(authReply).error))
  {
    if c.tokenInfo.Some? && !IsTokenExpired(c, clock.now) then
      Call(c, Translate(reply), [Request(verb, endpoint, body, Some(c.tokenInfo.value.token))])
    else if credentials.Some? then
      var auth := Authenticate(c, clock, credentials.value, authReply);
      match auth.result
      case Failure(e) => Call(auth.client, Failure(e), auth.sent)
      case Success(_) =>
        Call(auth.client, Translate(reply), auth.sent + [Request(verb, endpoint, body, Some(auth.client.tokenInfo.value.token))])
    else
      Call(c, Translate(reply), [Request(verb, endpoint, body, None)])
  }

  /* --------------------------------------------------- public operations */

  /** `authenticate(credentials)`: one POST of the credentials to the token
      endpoint, which (passing no credentials on) never authenticates again
      itself. Success replaces the cached token wholesale with the returned
      token and its expiry converted to a `Date`; failure leaves the cache as
      it was and throws `'Authentication failed: ' + message`. */
  function Authenticate(c: Client, clock: Clock, credentials: Credentials, reply: Outcome<PaymentAuth>): (call: Call<PaymentAuth>)
    decreases 1
    ensures |call.sent| == 1
    ensures call.sent[0].verb == "POST" && call.sent[0].url == ApiBaseUrl + TokenEndpoint
    ensures call.sent[0].body == CredentialsBody(credentials)
    ensures IsTokenExpired(c, clock.now) ==> Authorization(call.sent[0]).None?
    ensures reply.Ok? ==>
      && call.result == Success(reply.body)
      && call.client == Client(Some(TokenInfo(reply.body.token, clock.parseDate(reply.body.expiryDate))))
    ensures !reply.Ok? ==>
      && call.client == c
      && call.result == Failure(Rewrap(AuthenticationPrefix, Translate(reply).error))
  {
    var fetched := FetchWithConfig(c, clock, "POST", TokenEndpoint, CredentialsBody(credentials), None, reply, reply);
    match fetched.result
    case Success(auth) =>
      Call(Client(Some(TokenInfo(auth.token, clock.parseDate(auth.expiryDate)))), Success(auth), fetched.sent)
    case Failure(e) =>
      Call(fetched.client, Failure(Rewrap(AuthenticationPrefix, e)), fetched.sent)
  }

  /** The `try`/`catch` every public operation wraps around its request. */
  function Guarded<T>(prefix: string, call: Call<T>): Call<T> {
    Call(call.client, call.result.MapFailure(e => Rewrap(prefix, e)), call.sent)
  }

  /** `submitOrder(order, credentials)`: the order is POSTed, authenticating
      first when needed. It returns the gateway's answer as it is; every
      failure is a new error `'Order submission failed: ' + message` with no
      status code. The cached token changes only through a successful token
      request. */
  function SubmitOrder(
    c: Client, clock: Clock, order: PaymentOrderRequest, credentials: Credentials,
    authReply: Outcome<PaymentAuth>, reply: Outcome<PaymentOrderResponse>): (call: Call<PaymentOrderResponse>)
    ensures 1 <= |call.sent| <= 2
    ensures call.result.Success? ==> reply.Ok? && call.result.value == reply.body && (!IsTokenExpired(c, clock.now) || authReply.Ok?)
    ensures (!IsTokenExpired(c, clock.now) || authReply.Ok?) && reply.Ok? ==> call.result == Success(reply.body)
    ensures call.result.Success? ==>
      var last := call.sent[|call.sent| - 1];
      last.verb == "POST" && last.url == ApiBaseUrl + SubmitOrderEndpoint && last.body == OrderBody(order)
    ensures call.result.Failure? ==>
      && call.result.error.statusCode.None?
      && call.result.error.responseData.None?
      && SubmissionPrefix <= call.result.error.message
    ensures call.client == c || (authReply.Ok? && call.client.tokenInfo == Some(TokenInfo(authReply.body.token, clock.parseDate(authReply.body.expiryDate))))
  {
    Guarded(SubmissionPrefix,
      FetchWithConfig(c, clock, "POST", SubmitOrderEndpoint, OrderBody(order), Some(credentials), authReply, reply))
  }

  /** `registerIPN(details, credentials)`: the `{url, ipnNotificationType}`
      body is POSTed, authenticating first when needed; every failure is a new
      error `'IPN registration failed: ' + message` with no status code. */
  function RegisterIPN(
    c: Client, clock: Clock, details: PaymentIPNRegister, credentials: Credentials,
    authReply: Outcome<PaymentAuth>, reply: Outcome<PaymentIPNResponse>): (call: Call<PaymentIPNResponse>)
    ensures 1 <= |call.sent| <= 2
    ensures call.result.Success? ==> reply.Ok? && call.result.value == reply.body && (!IsTokenExpired(c, clock.now) || authReply.Ok?)
    ensures (!IsTokenExpired(c, clock.now) || authReply.Ok?) && reply.Ok? ==> call.result == Success(reply.body)
    ensures call.result.Success? ==>
      var last := call.sent[|call.sent| - 1];
      last.verb == "POST" && last.url == ApiBaseUrl + RegisterIpnEndpoint && last.body == IpnBody(details)
    ensures call.result.Failure? ==>
      && call.result.error.statusCode.None?
      && call.result.error.responseData.None?
      && IpnPrefix <= call.result.error.message
    ensures call.client == c || (authReply.Ok? && call.client.tokenInfo == Some(TokenInfo(authReply.body.token, clock.parseDate(authReply.body.expiryDate))))
  {
    Guarded(IpnPrefix,
      FetchWithConfig(c, clock, "POST", RegisterIpnEndpoint, IpnBody(details), Some(credentials), authReply, reply))
  }

  /** `getOrderStatus(trackingId, credentials)`: a GET with the tracking id
      appended to the query as it is, authenticating first when needed; every
      failure is a new error `'Failed to get order status: ' + message` with no
      status code. */
  function GetOrderStatus(
    c: Client, clock: Clock, orderTrackingId: string, credentials: Credentials,
    authReply: Outcome<PaymentAuth>, reply: Outcome<PaymentOrderStatus>): (call: Call<PaymentOrderStatus>)
    ensures 1 <= |call.sent| <= 2
    ensures call.result.Success? ==> reply.Ok? && call.result.value == reply.body && (!IsTokenExpired(c, clock.now) || authReply.Ok?)
    ensures (!IsTokenExpired(c, clock.now) || authReply.Ok?) && reply.Ok? ==> call.result == Success(reply.body)
    ensures call.result.Success? ==>
      var last := call.sent[|call.sent| - 1];
      last.verb == "GET" && last.url == ApiBaseUrl + OrderStatusEndpoint + orderTrackingId && last.body == NoBody
    ensures call.result.Failure? ==>
      && call.result.error.statusCode.None?
      && call.result.error.responseData.None?
      && OrderStatusPrefix <= call.result.error.message
    ensures call.client == c || (authReply.Ok? && call.client.tokenInfo == Some(TokenInfo(authReply.body.token, clock.parseDate(authReply.body.expiryDate))))
  {
    Guarded(OrderStatusPrefix,
      FetchWithConfig(c, clock, "GET", OrderStatusEndpoint + orderTrackingId, NoBody, Some(credentials), authReply, reply))
  }

  /* -------------------------------------------------------- properties */

  /** With a usable cached token, an operation sends a single request that
      carries `Bearer <cached token>` and makes no token request. */
  lemma FreshTokenIsReused(c: Client, clock: Clock, order: PaymentOrderRequest, credentials: Credentials,
                           authReply: Outcome<PaymentAuth>, reply: Outcome<PaymentOrderResponse>)
    requires !IsTokenExpired(c, clock.now)
    ensures var call := SubmitOrder(c, clock, order, credentials, authReply, reply);
      && |call.sent| == 1
      && call.sent[0].url == ApiBaseUrl + SubmitOrderEndpoint
      && Authorization(call.sent[0]) == Some("Bearer " + c.tokenInfo.value.token)
      && call.client == c
  {
  }

  /** With no usable token, exactly one token request precedes the order,
      and the order carries the token that request returned. */
  lemma ExpiredTokenAuthenticatesOnce(c: Client, clock: Clock, order: PaymentOrderRequest, credentials: Credentials,
                                      auth: PaymentAuth, reply: Outcome<PaymentOrderResponse>)
    requires IsTokenExpired(c, clock.now)
    ensures var call := SubmitOrder(c, clock, order, credentials, Ok(auth), reply);
      && |call.sent| == 2
      && call.sent[0].url == ApiBaseUrl + TokenEndpoint
      && Authorization(call.sent[0]).None?
      && call.sent[1].url == ApiBaseUrl + SubmitOrderEndpoint
      && Authorization(call.sent[1]) == Some("Bearer " + auth.token)
      && call.client.tokenInfo == Some(TokenInfo(auth.token, clock.parseDate(auth.expiryDate)))
  {
  }

  /** The freshly stored token is used even if its own expiry is already
      within the five-minute margin: the check is not repeated. */
  lemma StoredTokenUsedUnchecked(c: Client, clock: Clock, order: PaymentOrderRequest, credentials: Credentials,
                                 auth: PaymentAuth, reply: Outcome<PaymentOrderResponse>)
    requires IsTokenExpired(c, clock.now)
    requires 0 <= clock.now <= MaxTimeMs
    requires clock.parseDate(auth.expiryDate) == ValidDate(clock.now)
    ensures var call := SubmitOrder(c, clock, order, credentials, Ok(auth), reply);
      && IsTokenExpired(call.client, clock.now)
      && Authorization(call.sent[1]) == Some("Bearer " + auth.token)
  {
  }

  /** Without credentials no token is requested: the request goes out bare
      and the cache is untouched. This is the token request's own situation,
      so `authenticate` never authenticates recursively. */
  lemma NoCredentialsNoHeader<T>(c: Client, clock: Clock, verb: string, endpoint: string, body: Payload,
                                 authReply: Outcome<PaymentAuth>, reply: Outcome<T>)
    requires IsTokenExpired(c, clock.now)
    ensures var call := FetchWithConfig(c, clock, verb, endpoint, body, None, authReply, reply);
      && |call.sent| == 1
      && Authorization(call.sent[0]).None?
      && call.client == c
  {
  }

  /** A failed token request stops the operation before its own request:
      only the token request was sent, the cache is unchanged, and the error
      reads `'Order submission failed: Authentication failed: ' + cause`. */
  lemma AuthenticationFailureStopsSubmission(c: Client, clock: Clock, order: PaymentOrderRequest, credentials: Credentials,
                                             authReply: Outcome<PaymentAuth>, reply: Outcome<PaymentOrderResponse>)
    requires IsTokenExpired(c, clock.now)
    requires !authReply.Ok?
    ensures var call := SubmitOrder(c, clock, order, credentials, authReply, reply);
      && |call.sent| == 1
      && call.sent[0].url == ApiBaseUrl + TokenEndpoint
      && call.client == c
      && call.result == Failure(PaymentServiceError(
           SubmissionPrefix + AuthenticationPrefix + Translate(authReply).error.message, None, None))
  {
    var call := SubmitOrder(c, clock, order, credentials, authReply, reply);
    assert SubmissionPrefix + (AuthenticationPrefix + Translate(authReply).error.message)
        == SubmissionPrefix + AuthenticationPrefix + Translate(authReply).error.message;
  }

  /** A timed-out order submission (no token request needed, or one that
      succeeded) fails with exactly `'Order submission failed: Request timeout'`. */
  lemma SubmissionTimeoutMessage(c: Client, clock: Clock, order: PaymentOrderRequest, credentials: Credentials,
                                 authReply: Outcome<PaymentAuth>)
    requires !IsTokenExpired(c, clock.now) || authReply.Ok?
    ensures SubmitOrder(c, clock, order, credentials, authReply, Timeout()).result
      == Failure(PaymentServiceError(SubmissionPrefix + TimeoutMessage, None, None))
  {
  }

  /** An order the gateway refuses (no token request needed, or one that
      succeeded) fails with `'Order submission failed: '` and the message of
      the gateway's error body, whatever the status. */
  lemma SubmissionRejectionMessage(c: Client, clock: Clock, order: PaymentOrderRequest, credentials: Credentials,
                                   authReply: Outcome<PaymentAuth>, status: int, statusText: string,
                                   message: string, otherProperties: map<string, string>)
    requires !IsTokenExpired(c, clock.now) || authReply.Ok?
    requires message != ""
    ensures SubmitOrder(c, clock, order, credentials, authReply,
              NotOk(status, statusText, Some(ErrorData(Some(message), otherProperties)))).result
      == Failure(PaymentServiceError(SubmissionPrefix + message, None, None))
  {
  }
}
