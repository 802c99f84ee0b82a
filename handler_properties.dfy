/**
 * The decision table of the subscription handler: for each kind of request,
 * the response it gets and the service calls it causes.
 */
module HandlerProperties {
  import opened Wrappers
  import opened EmailCheck
  import opened SubscriptionHandler

  /** A call that changes the topic's subscriptions. */
  predicate IsMutation(c: SnsCall) {
    c.Subscribe? || c.Unsubscribe?
  }

  function ErrorResponse(status: int, message: string): Response {
    Response(status, CorsHeaders, Json(Payload(false, message, None, None)))
  }

  function FailureResponse(error: string): Response {
    Response(500, CorsHeaders, Json(Payload(false, FailedMessage, None, Some(error))))
  }

  /**
   * An OPTIONS request is answered with 200 and an empty body, makes no
   * call, and its answer depends neither on the body (it is never parsed)
   * nor on the service.
   */
  lemma OptionsShortCircuit(req: Request, sns: SnsService, topicArn: string, otherBody: ParsedBody, otherSns: SnsService)
    requires req.httpMethod == "OPTIONS"
    ensures Handler(req, sns, topicArn) == Outcome(Response(200, CorsHeaders, EmptyBody), [])
    ensures Handler(req.(body := otherBody), otherSns, topicArn) == Handler(req, sns, topicArn)
  {
  }

  /**
   * A missing, empty or invalid email gets 400 "Valid email is required"
   * and no call, whatever the action and whatever the service would answer.
   */
  lemma InvalidEmailRejected(req: Request, sns: SnsService, topicArn: string)
    requires req.httpMethod != "OPTIONS" && req.body.Parsed?
    requires var email := req.body.fields.email; email.None? || !IsValidEmail(email.value)
    ensures Handler(req, sns, topicArn) == Outcome(ErrorResponse(400, InvalidEmailMessage), [])
  {
  }

  /**
   * A valid email with action "subscribe" makes exactly one subscribe call,
   * for the email protocol with the email as endpoint; when that call does
   * not reject, the answer is 200 with success and the email echoed.
   */
  lemma SubscribeRequested(req: Request, sns: SnsService, topicArn: string, email: string)
    requires req.httpMethod != "OPTIONS" && req.body == Parsed(RequestBody(Some(email), Some("subscribe")))
    requires IsValidEmail(email)
    ensures Handler(req, sns, topicArn).calls == [Subscribe("email", topicArn, email)]
    ensures sns.subscribeError.None? ==>
      Handler(req, sns, topicArn).response
      == Response(200, CorsHeaders, Json(Payload(true, SubscribedMessage, Some(email), None)))
    ensures sns.subscribeError.Some? ==>
      Handler(req, sns, topicArn).response == FailureResponse(sns.subscribeError.value)
  {
  }

  /**
   * Unsubscribing when the first email-protocol subscription of the email is
   * confirmed: the listing call, then an unsubscribe call for exactly that
   * subscription; when that call does not reject, 200 with success.
   */
  lemma UnsubscribeConfirmedMatch(req: Request, sns: SnsService, topicArn: string, email: string, k: int)
    requires req.httpMethod != "OPTIONS" && req.body == Parsed(RequestBody(Some(email), Some("unsubscribe")))
    requires IsValidEmail(email) && sns.listing.Listed?
    requires IsFirstMatch(sns.listing.subscriptions, email, k)
    requires sns.listing.subscriptions[k].subscriptionArn != "PendingConfirmation"
    ensures var arn := sns.listing.subscriptions[k].subscriptionArn;
      Handler(req, sns, topicArn).calls == [ListSubscriptionsByTopic(topicArn), Unsubscribe(arn)]
    ensures sns.unsubscribeError.None? ==>
      Handler(req, sns, topicArn).response
      == Response(200, CorsHeaders, Json(Payload(true, UnsubscribedMessage, Some(email), None)))
    ensures sns.unsubscribeError.Some? ==>
      Handler(req, sns, topicArn).response == FailureResponse(sns.unsubscribeError.value)
  {
    FindFirstIsFirstMatch(sns.listing.subscriptions, email, k);
  }

  /**
   * Unsubscribing when the email has no email-protocol subscription, or the
   * first one is still pending confirmation: 404 after the listing call, and
   * no unsubscribe call.
   */
  lemma UnsubscribeNoUsableMatch(req: Request, sns: SnsService, topicArn: string, email: string)
    requires req.httpMethod != "OPTIONS" && req.body == Parsed(RequestBody(Some(email), Some("unsubscribe")))
    requires IsValidEmail(email) && sns.listing.Listed?
    requires var subs := sns.listing.subscriptions;
      (forall j :: 0 <= j < |subs| ==> !IsEmailSubscriptionOf(subs[j], email))
      || (exists k :: IsFirstMatch(subs, email, k) && subs[k].subscriptionArn == "PendingConfirmation")
    ensures Handler(req, sns, topicArn)
      == Outcome(ErrorResponse(404, NotFoundMessage), [ListSubscriptionsByTopic(topicArn)])
  {
    var subs := sns.listing.subscriptions;
    if exists k :: IsFirstMatch(subs, email, k) && subs[k].subscriptionArn == "PendingConfirmation" {
      var k :| IsFirstMatch(subs, email, k) && subs[k].subscriptionArn == "PendingConfirmation";
      FindFirstIsFirstMatch(subs, email, k);
    }
  }

  /**
   * A pending first match hides a confirmed duplicate later in the listing:
   * the answer is still 404 and nothing is unsubscribed.
   */
  lemma PendingFirstMatchHidesLaterDuplicate(
    req: Request, sns: SnsService, topicArn: string, email: string, k: int, later: int)
    requires req.httpMethod != "OPTIONS" && req.body == Parsed(RequestBody(Some(email), Some("unsubscribe")))
    requires IsValidEmail(email) && sns.listing.Listed?
    requires IsFirstMatch(sns.listing.subscriptions, email, k)
    requires sns.listing.subscriptions[k].subscriptionArn == "PendingConfirmation"
    requires k < later < |sns.listing.subscriptions|
    requires IsEmailSubscriptionOf(sns.listing.subscriptions[later], email)
    requires sns.listing.subscriptions[later].subscriptionArn != "PendingConfirmation"
    ensures Handler(req, sns, topicArn).response.statusCode == 404
    ensures forall c :: c in Handler(req, sns, topicArn).calls ==> !c.Unsubscribe?
  {
    UnsubscribeNoUsableMatch(req, sns, topicArn, email);
  }

  /** A valid email with any other action gets 400 "Invalid action" and no call. */
  lemma UnknownActionRejected(req: Request, sns: SnsService, topicArn: string, email: string, action: Option<string>)
    requires req.httpMethod != "OPTIONS" && req.body == Parsed(RequestBody(Some(email), action))
    requires IsValidEmail(email)
    requires action != Some("subscribe") && action != Some("unsubscribe")
    ensures Handler(req, sns, topicArn) == Outcome(ErrorResponse(400, InvalidActionMessage), [])
  {
  }

  /** A body that does not parse gets 500 "Operation failed" with the parse error, and no call. */
  lemma UnparsableBodyFails(req: Request, sns: SnsService, topicArn: string)
    requires req.httpMethod != "OPTIONS" && req.body.Unparsable?
    ensures Handler(req, sns, topicArn) == Outcome(FailureResponse(req.body.error), [])
  {
  }

  /** A listing that rejects gets 500 with its error, after the one listing call. */
  lemma ListingFailureFails(req: Request, sns: SnsService, topicArn: string, email: string)
    requires req.httpMethod != "OPTIONS" && req.body == Parsed(RequestBody(Some(email), Some("unsubscribe")))
    requires IsValidEmail(email) && sns.listing.ListFailed?
    ensures Handler(req, sns, topicArn)
      == Outcome(FailureResponse(sns.listing.error), [ListSubscriptionsByTopic(topicArn)])
  {
  }

  /**
   * When the handler answers 200 to a request other than OPTIONS, the email
   * is valid, and either the action was "subscribe" and the subscribe call
   * succeeded, or the action was "unsubscribe", the first match in the
   * listing was confirmed and its unsubscribe call succeeded; and conversely.
   */
  lemma SuccessCharacterized(req: Request, sns: SnsService, topicArn: string)
    requires req.httpMethod != "OPTIONS"
    ensures Handler(req, sns, topicArn).response.statusCode == 200
      <==>
      req.body.Parsed? && req.body.fields.email.Some? && IsValidEmail(req.body.fields.email.value)
      && var email := req.body.fields.email.value;
      ((req.body.fields.action == Some("subscribe") && sns.subscribeError.None?)
       || (req.body.fields.action == Some("unsubscribe") && sns.listing.Listed?
           && sns.unsubscribeError.None?
           && exists k :: IsFirstMatch(sns.listing.subscriptions, email, k)
                          && sns.listing.subscriptions[k].subscriptionArn != "PendingConfirmation"))
  {
    if req.body.Parsed? && req.body.fields.email.Some? && IsValidEmail(req.body.fields.email.value)
       && req.body.fields.action == Some("unsubscribe") && sns.listing.Listed? {
      var subs, email := sns.listing.subscriptions, req.body.fields.email.value;
      var r := FindFirst(subs, email);
      if r.Some? {
        assert IsFirstMatch(subs, email, r.value);
      }
      if exists k :: IsFirstMatch(subs, email, k) && subs[k].subscriptionArn != "PendingConfirmation" {
        var k :| IsFirstMatch(subs, email, k) && subs[k].subscriptionArn != "PendingConfirmation";
        FindFirstIsFirstMatch(subs, email, k);
      }
    }
  }

  /**
   * The calls a request causes: at most two, at most one of them changes
   * the topic; a subscribe is for the request's valid email by the email
   * protocol on the configured topic; an unsubscribe names the confirmed
   * first match of the request's email in the listing.
   */
  lemma CallsAreAuthorized(req: Request, sns: SnsService, topicArn: string)
    ensures var calls := Handler(req, sns, topicArn).calls;
      |calls| <= 2
      && (forall i, j :: 0 <= i < j < |calls| && IsMutation(calls[i]) ==> !IsMutation(calls[j]))
      && (forall c :: c in calls && c.Subscribe? ==>
            req.body.Parsed? && req.body.fields.email.Some? && IsValidEmail(req.body.fields.email.value)
            && c == Subscribe("email", topicArn, req.body.fields.email.value))
      && (forall c :: c in calls && c.ListSubscriptionsByTopic? ==> c.topicArn == topicArn)
      && (forall c :: c in calls && c.Unsubscribe? ==>
            req.body.Parsed? && req.body.fields.email.Some? && IsValidEmail(req.body.fields.email.value)
            && sns.listing.Listed?
            && exists k :: IsFirstMatch(sns.listing.subscriptions, req.body.fields.email.value, k)
                           && c.subscriptionArn == sns.listing.subscriptions[k].subscriptionArn
                           && c.subscriptionArn != "PendingConfirmation")
  {
    if req.httpMethod != "OPTIONS" && req.body.Parsed? && req.body.fields.email.Some?
       && sns.listing.Listed? {
      var subs, email := sns.listing.subscriptions, req.body.fields.email.value;
      var r := FindFirst(subs, email);
      if r.Some? {
        assert IsFirstMatch(subs, email, r.value);
      }
    }
  }

  /** "not-an-email" is refused as an invalid email, for subscribe and for unsubscribe. */
  lemma ExampleNotAnEmailRefused(sns: SnsService, topicArn: string, action: string)
    requires action == "subscribe" || action == "unsubscribe"
    ensures Handler(Request("POST", Parsed(RequestBody(Some("not-an-email"), Some(action)))), sns, topicArn)
      == Outcome(ErrorResponse(400, InvalidEmailMessage), [])
  {
    ExampleNotAnEmail();
  }

  /** "user@example.com" subscribing, with the service accepting: success and the pending-confirmation message. */
  lemma ExampleSubscribe(sns: SnsService, topicArn: string)
    requires sns.subscribeError.None?
    ensures var o := Handler(Request("POST", Parsed(RequestBody(Some("user@example.com"), Some("subscribe")))), sns, topicArn);
      o.response.statusCode == 200 && o.response.body.payload.success
      && o.response.body.payload.message == SubscribedMessage
  {
    var email := "user@example.com";
    ExampleUserAtExampleCom();
    SubscribeRequested(Request("POST", Parsed(RequestBody(Some(email), Some("subscribe")))), sns, topicArn, email);
  }

  /** "user@example.com" unsubscribing from an empty listing: 404, not found. */
  lemma ExampleUnsubscribeNotFound(sns: SnsService, topicArn: string)
    requires sns.listing == Listed([])
    ensures var o := Handler(Request("POST", Parsed(RequestBody(Some("user@example.com"), Some("unsubscribe")))), sns, topicArn);
      o.response.statusCode == 404 && !o.response.body.payload.success
      && o.response.body.payload.message == NotFoundMessage
  {
    var email := "user@example.com";
    ExampleUserAtExampleCom();
    UnsubscribeNoUsableMatch(Request("POST", Parsed(RequestBody(Some(email), Some("unsubscribe")))), sns, topicArn, email);
  }

  /**
   * Action "delete" with an invalid email gets the invalid-email answer, not
   * the invalid-action one: the email is checked first.
   */
  lemma ExampleDeleteWithInvalidEmail(sns: SnsService, topicArn: string)
    ensures Handler(Request("POST", Parsed(RequestBody(Some("not-an-email"), Some("delete")))), sns, topicArn).response
      == ErrorResponse(400, InvalidEmailMessage)
  {
    ExampleNotAnEmail();
  }
}
