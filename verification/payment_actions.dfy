/** The server action that places an order (lib/payment-actions.ts): read the
    gateway credentials from the environment, refuse when either is missing,
    submit the order through the shared gateway client, and turn whatever that
    throws into a user-facing message with an HTTP-like status. */
module PaymentActions {
  import opened Wrappers
  import opened Strings
  import opened PaymentTypes
  import opened ServiceError
  import opened PaymentService

  const MissingCredentialsMessage := "Payment configuration error: Missing credentials"
  const AuthenticationMessage := "Payment authentication failed. Please check your payment configuration."
  const TimeoutUserMessage := "Payment request timed out. Please try again."
  const ProcessingPrefix := "Payment processing failed: "
  const UnexpectedMessage := "An unexpected error occurred. Please try again."

  /** The two environment variables holding the consumer key and secret. */
  datatype Environment = Environment(consumerKey: Option<string>, consumerSecret: Option<string>)

  /** What `handlePaymentRequest` returns: `{success: true, ...}` with the
      gateway's answer, or `{success: false, error, status?}`. */
  datatype ActionResult =
    | Submitted(redirect_url: string, order_tracking_id: string, merchant_reference: string, status: string)
    | Rejected(error: string, httpStatus: Option<int>)
  {
    predicate Success() {
      Submitted?
    }
  }

  /** The action's answer together with the shared client's next state and
      the requests that went to the gateway. */
  datatype ActionCall = ActionCall(client: Client, result: ActionResult, sent: seq<HttpRequest>)

  /** The credentials `process.env.X ?? ""` yields. */
  function CredentialsFrom(env: Environment): Credentials {
    Credentials(env.consumerKey.GetOr(""), env.consumerSecret.GetOr(""))
  }

  /** Both credentials are truthy, i.e. set and non-empty. */
  predicate HasCredentials(env: Environment) {
    var creds := CredentialsFrom(env);
    creds.consumer_key != "" && creds.consumer_secret != ""
  }

  /** The `catch` of the action. An `Error` whose message contains
      `'Authentication failed'` is reported as 401; otherwise one containing
      `'timeout'` as 408; any other `Error` as 500 with its message; a
      non-`Error` value as 500 with a generic message. */
  function Classify(t: Thrown): (r: ActionResult)
    ensures r.Rejected? && r.httpStatus.Some?
    ensures r.httpStatus == Some(401) <==> IsError(t) && Contains(MessageOf(t), "Authentication failed")
    ensures r.httpStatus == Some(408) <==>
      IsError(t) && !Contains(MessageOf(t), "Authentication failed") && Contains(MessageOf(t), "timeout")
    ensures r.httpStatus == Some(500) <==>
      !IsError(t) || (!Contains(MessageOf(t), "Authentication failed") && !Contains(MessageOf(t), "timeout"))
    ensures r.httpStatus == Some(500) && IsError(t) ==>
      ProcessingPrefix <= r.error && r.error[|ProcessingPrefix|..] == MessageOf(t)
    ensures !IsError(t) ==> r.error == UnexpectedMessage
  {
    if IsError(t) then
      if Contains(MessageOf(t), "Authentication failed") then Rejected(AuthenticationMessage, Some(401))
      else if Contains(MessageOf(t), "timeout") then Rejected(TimeoutUserMessage, Some(408))
      else Rejected(ProcessingPrefix + MessageOf(t), Some(500))
    else Rejected(UnexpectedMessage, Some(500))
  }

  /** `handlePaymentRequest(orderDetails)`. Missing credentials are refused
      before anything is sent and without a status; otherwise the order is
      submitted once (authenticating first when needed), success is reported
      exactly when the submission returned, and then it carries the gateway's
      four fields unchanged (a missing `redirect_url` included: the action
      does not check it); a failed submission is classified. */
  function HandlePaymentRequest(
    c: Client, clock: Clock, env: Environment, order: PaymentOrderRequest,
    authReply: Outcome<PaymentAuth>, reply: Outcome<PaymentOrderResponse>): (call: ActionCall)
    ensures !HasCredentials(env) ==>
      call == ActionCall(c, Rejected(MissingCredentialsMessage, None), [])
    ensures HasCredentials(env) ==>
      var submission := SubmitOrder(c, clock, order, CredentialsFrom(env), authReply, reply);
      && call.client == submission.client
      && call.sent == submission.sent
      && (call.result.Success() <==> submission.result.Success?)
    ensures call.result.Success() ==>
      && reply.Ok?
      && call.result == Submitted(reply.body.redirect_url, reply.body.order_tracking_id,
                                  reply.body.merchant_reference, reply.body.status)
    ensures HasCredentials(env) && call.result.Rejected? ==>
      call.result.httpStatus == Some(401) || call.result.httpStatus == Some(408) || call.result.httpStatus == Some(500)
  {
    var credentials := CredentialsFrom(env);
    if credentials.consumer_key == "" || credentials.consumer_secret == "" then
      ActionCall(c, Rejected(MissingCredentialsMessage, None), [])
    else
      var submission := SubmitOrder(c, clock, order, credentials, authReply, reply);
      match submission.result
      case Success(response) =>
        ActionCall(submission.client,
          Submitted(response.redirect_url, response.order_tracking_id, response.merchant_reference, response.status),
          submission.sent)
      case Failure(e) => ActionCall(submission.client, Classify(ServiceFailure(e)), submission.sent)
  }

  /* -------------------------------------------------------- end to end */

  /** A failed submission is classified by the message it was thrown with. */
  lemma FailedSubmissionClassified(c: Client, clock: Clock, env: Environment, order: PaymentOrderRequest,
                                   authReply: Outcome<PaymentAuth>, reply: Outcome<PaymentOrderResponse>)
    requires HasCredentials(env)
    requires SubmitOrder(c, clock, order, CredentialsFrom(env), authReply, reply).result.Failure?
    ensures var e := SubmitOrder(c, clock, order, CredentialsFrom(env), authReply, reply).result.error;
      HandlePaymentRequest(c, clock, env, order, authReply, reply).result == Classify(ServiceFailure(e))
  {
  }

  /** Every authentication failure, rewrapped by the submission, mentions
      `'Authentication failed'`. */
  lemma AuthenticationFailureMentioned(cause: string)
    ensures Contains(SubmissionPrefix + AuthenticationPrefix + cause, "Authentication failed")
  {
    var s := SubmissionPrefix + AuthenticationPrefix + cause;
    assert s[|SubmissionPrefix|..|SubmissionPrefix| + 21] == "Authentication failed";
    assert OccursAt(s, "Authentication failed", |SubmissionPrefix|);
  }

  /** The submission's timeout message mentions `'timeout'` but not
      `'Authentication failed'`. */
  lemma SubmissionTimeoutMentioned()
    ensures !Contains(SubmissionPrefix + TimeoutMessage, "Authentication failed")
    ensures Contains(SubmissionPrefix + TimeoutMessage, "timeout")
  {
    var s := SubmissionPrefix + TimeoutMessage;
    assert 'A' !in s;
    NotContainsFirstChar(s, "Authentication failed");
    assert s[|s| - 7..] == "timeout";
    assert OccursAt(s, "timeout", |s| - 7);
  }

  /** A failed token request is reported as an authentication failure (401)
      whatever its cause, a timeout included: the submission's message then
      contains `'Authentication failed'`, which is tested first. */
  lemma AuthenticationFailureIs401(c: Client, clock: Clock, env: Environment, order: PaymentOrderRequest,
                                   authReply: Outcome<PaymentAuth>, reply: Outcome<PaymentOrderResponse>)
    requires HasCredentials(env)
    requires IsTokenExpired(c, clock.now)
    requires !authReply.Ok?
    ensures HandlePaymentRequest(c, clock, env, order, authReply, reply).result
      == Rejected(AuthenticationMessage, Some(401))
  {
    AuthenticationFailureStopsSubmission(c, clock, order, CredentialsFrom(env), authReply, reply);
    FailedSubmissionClassified(c, clock, env, order, authReply, reply);
    AuthenticationFailureMentioned(Translate(authReply).error.message);
  }

  /** A submission that times out (after a token that was cached or freshly
      obtained) is reported as 408. */
  lemma SubmissionTimeoutIs408(c: Client, clock: Clock, env: Environment, order: PaymentOrderRequest,
                               authReply: Outcome<PaymentAuth>)
    requires HasCredentials(env)
    requires !IsTokenExpired(c, clock.now) || authReply.Ok?
    ensures HandlePaymentRequest(c, clock, env, order, authReply, Timeout()).result
      == Rejected(TimeoutUserMessage, Some(408))
  {
    SubmissionTimeoutMessage(c, clock, order, CredentialsFrom(env), authReply);
    FailedSubmissionClassified(c, clock, env, order, authReply, Timeout());
    SubmissionTimeoutMentioned();
  }

  /** A gateway rejection of the order itself, whatever its HTTP status (401
      included), is reported as a processing failure (500) carrying the
      gateway's message, unless that message mentions `'Authentication
      failed'` or `'timeout'`. */
  lemma ProviderRejectionIs500(c: Client, clock: Clock, env: Environment, order: PaymentOrderRequest,
                               authReply: Outcome<PaymentAuth>, status: int, statusText: string, message: string,
                               other: map<string, string>)
    requires HasCredentials(env)
    requires !IsTokenExpired(c, clock.now) || authReply.Ok?
    requires message != ""
    requires !Contains(message, "Authentication failed") && !Contains(message, "timeout")
    ensures HandlePaymentRequest(c, clock, env, order, authReply,
              NotOk(status, statusText, Some(ErrorData(Some(message), other)))).result
      == Rejected(ProcessingPrefix + (SubmissionPrefix + message), Some(500))
  {
    var reply := NotOk(status, statusText, Some(ErrorData(Some(message), other)));
    SubmissionRejectionMessage(c, clock, order, CredentialsFrom(env), authReply, status, statusText, message, other);
    FailedSubmissionClassified(c, clock, env, order, authReply, reply);
    RejectionMentions(message);
  }

  /** A gateway rejection whose message mentions `'timeout'` (but not
      `'Authentication failed'`) is reported as a timeout (408), whatever the
      HTTP status: the classification reads only the message. */
  lemma ProviderTimeoutTextIs408(c: Client, clock: Clock, env: Environment, order: PaymentOrderRequest,
                                 authReply: Outcome<PaymentAuth>, status: int, statusText: string, message: string,
                                 other: map<string, string>)
    requires HasCredentials(env)
    requires !IsTokenExpired(c, clock.now) || authReply.Ok?
    requires !Contains(message, "Authentication failed") && Contains(message, "timeout")
    ensures HandlePaymentRequest(c, clock, env, order, authReply,
              NotOk(status, statusText, Some(ErrorData(Some(message), other)))).result
      == Rejected(TimeoutUserMessage, Some(408))
  {
    var reply := NotOk(status, statusText, Some(ErrorData(Some(message), other)));
    assert message != "";
    SubmissionRejectionMessage(c, clock, order, CredentialsFrom(env), authReply, status, statusText, message, other);
    FailedSubmissionClassified(c, clock, env, order, authReply, reply);
    RejectionMentions(message);
  }

  /** Prefixing `'Order submission failed: '` neither adds nor removes a
      mention of authentication or of a timeout: the prefix holds no `A` and
      no `t`, the first letters of the two markers. */
  lemma RejectionMentions(message: string)
    ensures Contains(SubmissionPrefix + message, "Authentication failed") <==> Contains(message, "Authentication failed")
    ensures Contains(SubmissionPrefix + message, "timeout") <==> Contains(message, "timeout")
  {
    assert 'A' !in SubmissionPrefix && 't' !in SubmissionPrefix;
    PrefixAddsNoOccurrence(SubmissionPrefix, message, "Authentication failed");
    PrefixAddsNoOccurrence(SubmissionPrefix, message, "timeout");
  }
}
