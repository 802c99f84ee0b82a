# Subscription handler: a verified model

This project models the serverless function behind the event site's subscribe form. The function takes one HTTP request and returns one HTTP response. A preflight `OPTIONS` request is answered at once. Any other request must have a JSON body `{email, action}`. The email is checked against the pattern `^[^\s@]+@[^\s@]+\.[^\s@]+$`. Then the action is dispatched:

- `subscribe` asks the notification service to create an email-protocol subscription to the configured topic.
- `unsubscribe` lists the topic's subscriptions, takes the first email-protocol subscription of that email, and removes it unless it is still pending confirmation.
- Any other action is refused.

Anything that throws becomes a generic 500 answer.

Modules:

- `Wrappers` (`wrappers.dfy`): the `Option` type.
- `EmailCheck` (`email.dfy`): the validator `IsValidEmail`, with the ECMAScript `\s` class written out as a fixed set of 25 code points (`WhitespaceChars`). It also has two independent readings of the pattern, and lemmas that all three agree:
  - `MatchesPattern`: the pattern read literally, as three runs of `[^\s@]` around an `@` and a `.`;
  - `EmailShape`: exactly one `@`, a non-empty local part with no whitespace, and a domain with no `@`, no whitespace and an inner `.`.
- `SubscriptionHandler` (`handler.dfy`): the request, response and service types, the first-match search `FindFirst`, the try block `TryBlock`, and `Handler`.
- `HandlerProperties` (`handler_properties.dfy`): the decision table as lemmas, with one lemma per row.

The notification service is replaced by values:

- `SnsService` gives, for each kind of call, either success or the error message the call rejects with. For the listing, success carries the listed subscriptions.
- `Outcome.calls` records the calls the handler makes, in order, including a call that rejects.
- The topic ARN, read from the environment in the source, is a parameter.
- Parsing the body is given as its result (`ParsedBody`): either an object with optional `email` and `action` strings, or a parse error with its message.

The email is checked before the action (subscription-lambda.js:30-39). So an invalid email gets "Valid email is required" whatever the action, including an unrecognised one such as `"delete"` (`HandlerProperties.ExampleDeleteWithInvalidEmail`).

## Model

| member | source | states |
|---|---|---|
| `EmailCheck.IsValidEmail` | subscription-lambda.js:120-123 | isValidEmail, computed by splitting at the first `@`; an accepted string has at least five characters, no whitespace and exactly one `@` (the exact set it accepts is stated by the two lemmas below) |
| `EmailCheck.FirstAtSplit` | subscription-lambda.js:121-122 | a string split at its first `@` into a non-empty run of `[^\s@]` and a domain accepted by the pattern has at least five characters, no whitespace and exactly one `@` |
| `EmailCheck.ValidEmailIffPattern` | subscription-lambda.js:120-123 | isValidEmail accepts exactly the strings that are a non-empty run of `[^\s@]`, then `@`, then a non-empty run, then `.`, then a non-empty run (both directions) |
| `EmailCheck.ValidEmailMatchesPattern` | subscription-lambda.js:121-122 | an accepted string matches the pattern, and the pattern's `@` is the string's first `@` |
| `EmailCheck.PatternIsValidEmail` | subscription-lambda.js:121-122 | every string the pattern matches, with any choice of `@` and `.` positions, is accepted |
| `EmailCheck.ValidEmailIffShape` | subscription-lambda.js:120-123 | isValidEmail holds exactly when the string has one `@`, a non-empty whitespace-free local part, and a domain without `@` or whitespace that has a `.` neither first nor last (both directions) |
| `EmailCheck.ValidEmailHasShape` | subscription-lambda.js:120-123 | an accepted string has exactly one `@`; the part before it is non-empty and free of whitespace; the part after has no `@`, no whitespace and an inner `.` |
| `EmailCheck.ShapeIsValidEmail` | subscription-lambda.js:120-123 | every string of that shape is accepted |
| `EmailCheck.ExampleNotAnEmail` | subscription-lambda.js:120-123 | `"not-an-email"` is rejected |
| `EmailCheck.ExampleUserAtExampleCom` | subscription-lambda.js:120-123 | `"user@example.com"` is accepted |
| `SubscriptionHandler.FindFirst` | subscription-lambda.js:67-69 | the search returns an index of a match with no match before it (`IsFirstMatch`), or nothing exactly when the listing holds no match; a match is `IsEmailSubscriptionOf`, line 68's strict equality of the endpoint with the email and of the protocol with `email` |
| `SubscriptionHandler.UnsubscribeFound` | subscription-lambda.js:67-94 | after the listing: when the first match is confirmed, the calls are the listing then an unsubscribe of exactly that ARN, and the result is 200 with success and the email echoed, or the unsubscribe's rejection; when there is no match or the first match is pending, the result is 404 "not found or pending confirmation" after the listing call alone |
| `SubscriptionHandler.TryBlock` | subscription-lambda.js:26-104 | when the try block returns normally, the status is 200, 400 or 404, and success holds exactly when the status is 200 |
| `SubscriptionHandler.Handler` | subscription-lambda.js:7-118 | every response carries the fixed CORS header set; OPTIONS gets 200 with an empty body and causes no call; every other request gets a JSON body with status 200, 400, 404 or 500, and success holds exactly when the status is 200 |
| `SubscriptionHandler.FindFirstIsFirstMatch` | subscription-lambda.js:67-69 | the search returns exactly the first matching position |
| `HandlerProperties.OptionsShortCircuit` | subscription-lambda.js:18-24 | OPTIONS gets 200, an empty body and no call, and the answer does not depend on the body or on the service |
| `HandlerProperties.InvalidEmailRejected` | subscription-lambda.js:30-39 | a missing, empty or invalid email gets 400 "Valid email is required" and no call, for every action |
| `HandlerProperties.SubscribeRequested` | subscription-lambda.js:41-59 | a valid email with "subscribe" makes exactly one subscribe call, with protocol email, the topic and the email as endpoint; success gives 200, success and the email echoed; a rejection gives 500 with its message |
| `HandlerProperties.UnsubscribeConfirmedMatch` | subscription-lambda.js:61-84 | when the first match is confirmed: the listing call, then one unsubscribe call for exactly that ARN; success gives 200, success and the email echoed; a rejection gives 500 |
| `HandlerProperties.UnsubscribeNoUsableMatch` | subscription-lambda.js:61-94 | with no match, or a first match pending confirmation: 404 "not found or pending confirmation", and the only call is the listing |
| `HandlerProperties.PendingFirstMatchHidesLaterDuplicate` | subscription-lambda.js:67-94 | a pending first match gives 404 and no unsubscribe call, even when a confirmed match comes later in the listing |
| `HandlerProperties.UnknownActionRejected` | subscription-lambda.js:95-104 | a valid email with any other action, or none, gets 400 "Invalid action" and no call |
| `HandlerProperties.UnparsableBodyFails` | subscription-lambda.js:106-117 | a body that does not parse gets 500 "Operation failed" carrying the parse error, and no call |
| `HandlerProperties.ListingFailureFails` | subscription-lambda.js:61-65 | a listing that rejects gives 500 with its error after the single listing call |
| `HandlerProperties.SuccessCharacterized` | subscription-lambda.js:7-118 | a non-OPTIONS request gets 200 exactly when the email is valid and either the subscribe call succeeded, or the first match was confirmed and its unsubscribe call succeeded (both directions) |
| `HandlerProperties.CallsAreAuthorized` | subscription-lambda.js:41-84 | a request causes at most two calls, at most one of which changes the topic; a subscribe is for the request's valid email by the email protocol on the configured topic; an unsubscribe names the confirmed first match of that email in the listing |
| `HandlerProperties.ExampleNotAnEmailRefused` | subscription-lambda.js:30-39 | `"not-an-email"` with "subscribe" or "unsubscribe" gets 400 "Valid email is required" and no call |
| `HandlerProperties.ExampleSubscribe` | subscription-lambda.js:41-59 | `"user@example.com"` subscribing, with the service accepting, gets 200, success and the pending-confirmation message |
| `HandlerProperties.ExampleUnsubscribeNotFound` | subscription-lambda.js:61-94 | `"user@example.com"` unsubscribing from an empty listing gets 404, no success and the not-found message |
| `HandlerProperties.ExampleDeleteWithInvalidEmail` | subscription-lambda.js:30-39 | action "delete" with an invalid email gets the invalid-email answer, because the email is checked before the action |

## Left out

- The notification service client (subscription-lambda.js:2-3, 49, 63-65, 72-74) is replaced by the `SnsService` input and the `Outcome.calls` output. Its network behaviour, and what it does with a second unsubscribe of the same ARN, are outside the model.
- Pagination of the subscription listing is not modelled. The handler reads only the first page, and the model takes that page as a given sequence.
- `JSON.parse` is modelled only by its result. A body that parses to a non-null non-object (a number, string, boolean or array) destructures to absent fields, so it is `RequestBody(None, None)`. A `null` body parses to `null` and throws when destructured (line 28). An `undefined` body throws in `JSON.parse` itself (line 27). Both are `Unparsable`.
- JavaScript coercion of non-string `email` or `action` values is not modelled. Falsy values such as `0` or `false` are not modelled, and neither is `isValidEmail` applied to a non-string. Both fields are optional strings.
- `JSON.stringify` of the response body is not modelled. The body is the structured `Payload`, and a field that is `None` stands for a field absent from the JSON.
- `console.log` / `console.error` logging and the reading of `process.env` are left out. The topic ARN is a parameter.
- Strings are sequences of Unicode scalar values, while JavaScript without the `u` flag matches UTF-16 code units. For well-formed UTF-16 the two agree: no astral code point has a surrogate that is whitespace or `@`, and the pattern has no wildcard, so a run of one or more units is non-empty exactly when the run of code points is. Strings holding a lone surrogate, which `JSON.parse` can produce from a `\uD800`-style escape and which the source may accept, cannot be represented.
- The 500 payload always carries the thrown error's message (`error: Some(e)`). In the source, `JSON.stringify` drops `error` when the thrown value has no `message`. That does not arise for the throwers here (the parse `SyntaxError`, the destructuring `TypeError`, the service client's errors), so it is not modelled.
- Regular-expression matching in general is not modelled, only this one pattern.
- `script.js` is not part of this model. It holds DOM rendering, `fetch`, the timed status banner, and a date sort that relies on JavaScript `Date` parsing.
