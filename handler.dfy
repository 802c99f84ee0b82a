/**
 * The subscription request handler: one invocation maps an HTTP request to
 * an HTTP response, forwarding subscribe and unsubscribe actions to a
 * notification topic service.
 *
 * The service is abstracted away. What a call to it returns or rejects with
 * is an input (`SnsService`); the calls the handler makes, in order and
 * including one that rejects, are part of the output (`Outcome.calls`).
 * Parsing the request body is abstracted to its result (`ParsedBody`).
 */
module SubscriptionHandler {
  import opened Wrappers
  import opened EmailCheck

  // ---------------------------------------------------------------------------
  // Requests

  /** The object the body parses to; `email` and `action` may be absent. */
  datatype RequestBody = RequestBody(email: Option<string>, action: Option<string>)

  /** The result of parsing the raw body: an object, or a parse error with its message. */
  datatype ParsedBody = Parsed(fields: RequestBody) | Unparsable(error: string)

  datatype Request = Request(httpMethod: string, body: ParsedBody)

  // ---------------------------------------------------------------------------
  // The notification service

  /** One entry of the topic's subscription listing. */
  datatype Subscription = Subscription(endpoint: string, protocol: string, subscriptionArn: string)

  /** What listing the topic's subscriptions yields: the first page of entries, or a rejection. */
  datatype Listing = Listed(subscriptions: seq<Subscription>) | ListFailed(error: string)

  /**
   * How the service answers each kind of call: `None` when the call
   * succeeds, `Some(m)` when it rejects with error message m.
   */
  datatype SnsService = SnsService(
    subscribeError: Option<string>,
    listing: Listing,
    unsubscribeError: Option<string>)

  /** A request the handler sends to the service. */
  datatype SnsCall =
    | Subscribe(protocol: string, topicArn: string, endpoint: string)
    | ListSubscriptionsByTopic(topicArn: string)
    | Unsubscribe(subscriptionArn: string)

  // ---------------------------------------------------------------------------
  // Responses

  /** The JSON object of a response; `email` and `error` are omitted when `None`. */
  datatype Payload = Payload(success: bool, message: string, email: Option<string>, error: Option<string>)

  datatype ResponseBody = EmptyBody | Json(payload: Payload)

  datatype Response = Response(statusCode: int, headers: seq<(string, string)>, body: ResponseBody)

  /** A response together with the service calls made while computing it. */
  datatype Outcome = Outcome(response: Response, calls: seq<SnsCall>)

  /** The header set every response carries: JSON content, any origin allowed. */
  const CorsHeaders: seq<(string, string)> := [
    ("Content-Type", "application/json"),
    ("Access-Control-Allow-Origin", "*"),
    ("Access-Control-Allow-Headers", "Content-Type"),
    ("Access-Control-Allow-Methods", "POST, OPTIONS")
  ]

  const PendingConfirmation := "PendingConfirmation"
  const EmailProtocol := "email"

  const InvalidEmailMessage := "Valid email is required"
  const SubscribedMessage := "Subscription request sent! Please check your email to confirm."
  const UnsubscribedMessage := "Successfully unsubscribed"
  const NotFoundMessage := "Subscription not found or pending confirmation"
  const InvalidActionMessage := "Invalid action. Use \"subscribe\" or \"unsubscribe\""
  const FailedMessage := "Operation failed"

  // ---------------------------------------------------------------------------
  // The unsubscribe search

  /**
   * The listing entry is an email-protocol subscription of `email`: strict
   * equality of the endpoint with the email (no case folding, no trimming)
   * and a protocol of exactly "email".
   */
  predicate IsEmailSubscriptionOf(sub: Subscription, email: string) {
    sub.endpoint == email && sub.protocol == EmailProtocol
  }

  /** `k` is the first email-protocol subscription of `email` in the listing. */
  ghost predicate IsFirstMatch(subs: seq<Subscription>, email: string, k: int) {
    0 <= k < |subs| && IsEmailSubscriptionOf(subs[k], email)
    && forall j :: 0 <= j < k ==> !IsEmailSubscriptionOf(subs[j], email)
  }

  /** The position of the first email-protocol subscription of `email` in the listing. */
  function FindFirst(subs: seq<Subscription>, email: string): (r: Option<nat>)
    ensures r.Some? ==> IsFirstMatch(subs, email, r.value)
    ensures r.None? <==> forall k :: 0 <= k < |subs| ==> !IsEmailSubscriptionOf(subs[k], email)
  {
    if subs == [] then None
    else if IsEmailSubscriptionOf(subs[0], email) then Some(0)
    else match FindFirst(subs[1..], email)
      case None => None
      case Some(k) => Some(k + 1)
  }

  /** The search finds exactly the first match. */
  lemma FindFirstIsFirstMatch(subs: seq<Subscription>, email: string, k: int)
    requires IsFirstMatch(subs, email, k)
    ensures FindFirst(subs, email) == Some(k)
  {
    var r := FindFirst(subs, email);
    assert r.Some? by {
      assert IsEmailSubscriptionOf(subs[k], email);
    }
    assert r.value >= k by {
      assert IsEmailSubscriptionOf(subs[r.value], email);
    }
  }

  // ---------------------------------------------------------------------------
  // The handler

  /**
   * How the body of the try block ends: it returns a status and payload,
   * or something in it throws with an error message. Either way, the
   * service calls made so far are recorded.
   */
  datatype Attempt =
    | Returned(statusCode: int, payload: Payload, calls: seq<SnsCall>)
    | Threw(error: string, calls: seq<SnsCall>)

  /**
   * The unsubscribe branch, once the listing has been received: the listing
   * call is followed by an unsubscribe call for the first match when that
   * match is confirmed, and by nothing otherwise.
   */
  function UnsubscribeFound(subs: seq<Subscription>, email: string, sns: SnsService, topicArn: string): (a: Attempt)
    ensures forall k :: IsFirstMatch(subs, email, k) && subs[k].subscriptionArn != PendingConfirmation ==>
      a.calls == [ListSubscriptionsByTopic(topicArn), Unsubscribe(subs[k].subscriptionArn)]
      && a == (if sns.unsubscribeError.Some? then Threw(sns.unsubscribeError.value, a.calls)
               else Returned(200, Payload(true, UnsubscribedMessage, Some(email), None), a.calls))
    ensures (forall k :: IsFirstMatch(subs, email, k) ==> subs[k].subscriptionArn == PendingConfirmation) ==>
      a == Returned(404, Payload(false, NotFoundMessage, None, None), [ListSubscriptionsByTopic(topicArn)])
  {
    var listCall := [ListSubscriptionsByTopic(topicArn)];
    var found := FindFirst(subs, email);
    if found.Some? && subs[found.value].subscriptionArn != PendingConfirmation then
      var calls := listCall + [Unsubscribe(subs[found.value].subscriptionArn)];
      match sns.unsubscribeError
      case Some(e) => Threw(e, calls)
      case None => Returned(200, Payload(true, UnsubscribedMessage, Some(email), None), calls)
    else
      Returned(404, Payload(false, NotFoundMessage, None, None), listCall)
  }

  /** The try block of the handler: parse, check the email, dispatch on the action. */
  function TryBlock(body: ParsedBody, sns: SnsService, topicArn: string): (a: Attempt)
    ensures a.Returned? ==> a.statusCode in {200, 400, 404}
    ensures a.Returned? ==> (a.payload.success <==> a.statusCode == 200)
  {
    match body
    case Unparsable(e) => Threw(e, [])
    case Parsed(RequestBody(email, action)) =>
      if email.None? || email.value == "" || !IsValidEmail(email.value) then
        Returned(400, Payload(false, InvalidEmailMessage, None, None), [])
      else if action == Some("subscribe") then
        var calls := [Subscribe(EmailProtocol, topicArn, email.value)];
        match sns.subscribeError
        case Some(e) => Threw(e, calls)
        case None => Returned(200, Payload(true, SubscribedMessage, email, None), calls)
      else if action == Some("unsubscribe") then
        match sns.listing
        case ListFailed(e) => Threw(e, [ListSubscriptionsByTopic(topicArn)])
        case Listed(subs) => UnsubscribeFound(subs, email.value, sns, topicArn)
      else
        Returned(400, Payload(false, InvalidActionMessage, None, None), [])
  }

  /**
   * The handler: an OPTIONS request is answered at once; anything else runs
   * the try block, and whatever it throws becomes a 500 response.
   */
  function Handler(req: Request, sns: SnsService, topicArn: string): (o: Outcome)
    ensures o.response.headers == CorsHeaders
    ensures req.httpMethod == "OPTIONS" ==> o.response.statusCode == 200 && o.response.body == EmptyBody && o.calls == []
    ensures req.httpMethod != "OPTIONS" ==> o.response.body.Json? && o.response.statusCode in {200, 400, 404, 500}
    ensures o.response.body.Json? ==> (o.response.body.payload.success <==> o.response.statusCode == 200)
  {
    if req.httpMethod == "OPTIONS" then
      Outcome(Response(200, CorsHeaders, EmptyBody), [])
    else
      match TryBlock(req.body, sns, topicArn)
      case Returned(status, payload, calls) => Outcome(Response(status, CorsHeaders, Json(payload)), calls)
      case Threw(e, calls) => Outcome(Response(500, CorsHeaders, Json(Payload(false, FailedMessage, None, Some(e)))), calls)
  }
}
