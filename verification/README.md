# Concert tickets with a Pesapal payment gateway — a Dafny model

This project models the sequential core of a small concert-ticket storefront
that takes payment through the Pesapal v3 API:

- **The gateway client** (`lib/paymentService.ts`, `lib/PaymentServiceError.ts`,
  `types/payment-type.ts`). The client caches one bearer token and checks it
  with a five-minute margin. Before every request it decides whether to reuse
  the token, fetch a new one, or send no `Authorization` header. Every
  transport outcome becomes a `PaymentServiceError` through one fixed mapping.
  Each of the four public operations rewraps its failures under its own
  message prefix.
- **The order action** (`lib/payment-actions.ts`). It refuses the order when
  credentials are missing. Otherwise it submits the order and turns any
  failure into a user-facing message with status 401, 408 or 500, chosen by
  substring.
- **The storefront page** (`app/page.tsx`). It keeps an ordered selection of
  quantities per ticket type, with +/- buttons, totals, an order description
  and a split of the buyer's name. It builds the order, and it creates one
  ticket record per purchased unit once the gateway has accepted the order.
- **The buyer form** (`components/user-info-form.tsx`): three fields, the
  email and phone patterns, the submit gate and per-field edits.
- **The verify page** (`app/verify/page.tsx`): the `TKT-` prefix rule.
- **The ticket display** (`components/ticket-display.tsx`): the PAID/PENDING
  badge, the card badge style, the download file name and the payment link.

## How the model is built

- The network is an oracle. An operation takes the outcome of the token
  request (`authReply`) and the outcome of its own request (`reply`). It
  returns the client's next state, its result, and the requests it sent.
- `Outcome<T>` has three cases:
  - `Ok(body)` is a 2xx response.
  - `NotOk(status, statusText, errorBody)` is any other response. `errorBody`
    is `None` when the body is not JSON.
  - Every JSON body is taken to be an object. A body that is JSON `null` is
    not expressed (see "## Left out").
  - `Threw(value)` is anything `fetch` or `response.json()` throws. The
    10-second timer's abort is `Timeout()`, an `AbortError`. A malformed 2xx
    body is a thrown `SyntaxError`.
- The token request and the operation's request are mutually recursive
  functions. The termination measure shows that the token request never asks
  for a token itself.
- The clock is an integer in milliseconds. `new Date(text)` is a parameter
  that yields a timestamp or the Invalid Date.
- The page's selection object is a sequence of `(id, quantity)` entries in
  `Object.entries` order. `Date.now()` and `Math.random()` suffixes come in as
  an `Entropy` value.
- The regular expressions are predicates on strings. `\s` and `trim()` use the
  ECMAScript white-space and line-terminator code points. The email test is
  also a scanning method, proved equal to its predicate.

Files: `wrappers.dfy` (Option, Result), `strings.dfy` (the JavaScript string
operations used), `payment_types.dfy`, `service_error.dfy`,
`payment_service.dfy`, `payment_actions.dfy`, `user_info_form.dfy`,
`checkout.dfy`, `verify_page.dfy`, `ticket_display.dfy`.

### Behaviour modelled as written

Some of the code's behaviour is surprising. The model follows the code:

- **Provider 401.** A 401 from the gateway on the order request is reported as
  a 500 ("Payment processing failed: …") unless the gateway's message contains
  `Authentication failed` or `timeout`. The 401 branch fires only on the
  message text, and `Authentication failed` is the prefix of a failed token
  request (`PaymentActions.ProviderRejectionIs500`). A gateway message that
  mentions `timeout` is reported as 408 whatever the status
  (`PaymentActions.ProviderTimeoutTextIs408`).
- **Missing `redirect_url`.** The order action reports success even when
  `redirect_url` is missing. Only the page checks it, and it then shows
  "Payment processing failed" (`Checkout.MissingRedirectShowsFailure`).
- **Timeout during token request.** A timeout of the token request is reported
  as 401, not 408 (`PaymentActions.AuthenticationFailureIs401`).
- **Ten-space phone.** A phone number of ten spaces fits the phone pattern but
  is reported as missing (`UserInfoForm.BlankPhoneIsRequiredNotInvalid`).
- **Leading space in a name.** The first name is then empty, so the whole name
  is used as the first name (`Checkout.LeadingSpaceName`).
- **Unparseable expiry.** A token whose expiry text does not parse compares
  false against every time, so it never expires
  (`PaymentService.UnparsedExpiryNeverExpires`).

## Model

| member | source | states |
|---|---|---|
| ServiceError.Rewrap | lib/paymentService.ts:110-114 | The rethrown error's message is the prefix followed by the caught error's message unchanged; it has no status code and no response body. |
| PaymentService.IsTokenExpired | lib/paymentService.ts:83-89 | Computes `isTokenExpired()`: no cached token counts as expired. For a cached token, TokenFreshnessWindow, ExpiryIsPermanent and UnparsedExpiryNeverExpires state the rule. |
| PaymentService.TokenFreshnessWindow | lib/paymentService.ts:83-89 | A cached token with a valid expiry `e` counts as expired exactly when `now >= e - 300000`. |
| PaymentService.ExpiryIsPermanent | lib/paymentService.ts:83-89 | Once the token check says expired, it says expired at every later time. |
| PaymentService.UnparsedExpiryNeverExpires | lib/paymentService.ts:88 | A cached token whose expiry is the Invalid Date is never considered expired. |
| PaymentService.NotOkError | lib/paymentService.ts:57-66 | Computes the error thrown for a non-2xx response. TranslationTable states it: the body's truthy message or else the status text, with the status and the body, or the substitute body when the body does not parse. |
| PaymentService.CaughtError | lib/paymentService.ts:68-79 | Computes the `catch` clause. TranslationTable states it: pass-through, 'Request timeout' for an AbortError, the message of another Error, 'Unknown error occurred' otherwise. |
| PaymentService.Translate | lib/paymentService.ts:46-80 | Computes the `try`/`catch` of the request. TranslationTable and StatusCodeOnlyFromResponses state it. |
| PaymentService.TranslationTable | lib/paymentService.ts:46-80 | Only a 2xx outcome succeeds, with its body. A non-2xx outcome gives the body's truthy message or the status text, with the status and the body. An unparseable body gives 'Failed to parse error response'. Any Error named AbortError gives 'Request timeout', another Error keeps its message, a non-Error gives 'Unknown error occurred', and a PaymentServiceError passes through. |
| PaymentService.StatusCodeOnlyFromResponses | lib/paymentService.ts:57-79 | A translated error carries a status code and a response body exactly when the gateway answered with a non-2xx status; the code is that status. |
| PaymentService.FetchWithConfig | lib/paymentService.ts:17-81 | The three-way decision: a usable token is sent as `Bearer <token>` with no token request. With credentials, exactly one token request comes first and the new token is sent; a failed token request ends the call with the rewrapped authentication error and the cache unchanged. Without credentials the request carries no Authorization header. |
| PaymentService.Authenticate | lib/paymentService.ts:91-115 | One POST of the credentials to the token endpoint, without a header when the cache is expired. Success replaces the cache wholesale with the returned token and its parsed expiry. Failure leaves the cache as it was and throws 'Authentication failed: ' + message. |
| PaymentService.SubmitOrder | lib/paymentService.ts:117-135 | One or two requests; on success the last is the POST of the order. The operation succeeds with the gateway's answer unchanged exactly when the reply is 2xx and the token was usable or the token request succeeded. Every failure has no status code or body and starts with 'Order submission failed: '. The cache changes only to the token a successful token request returned. |
| PaymentService.RegisterIPN | lib/paymentService.ts:137-156 | As for SubmitOrder, success included, for the POST of `{url, ipnNotificationType}`, with the prefix 'IPN registration failed: '. |
| PaymentService.GetOrderStatus | lib/paymentService.ts:158-176 | As for SubmitOrder, success included, for a GET with the tracking id appended to the query, with the prefix 'Failed to get order status: '. |
| PaymentService.FreshTokenIsReused | lib/paymentService.ts:28-29 | With a usable cached token a submission sends one request, carrying `Bearer <cached token>`, and leaves the cache as it was. |
| PaymentService.ExpiredTokenAuthenticatesOnce | lib/paymentService.ts:31-35 | With no usable token, exactly one token request without a header precedes the order, which carries the returned token; the cache then holds that token. |
| PaymentService.StoredTokenUsedUnchecked | lib/paymentService.ts:33-34 | The freshly stored token is sent even when it is itself already within the five-minute margin. |
| PaymentService.NoCredentialsNoHeader | lib/paymentService.ts:28-35 | Without credentials and without a usable token, one request goes out without an Authorization header and the cache is untouched, so the token request never authenticates recursively. |
| PaymentService.AuthenticationFailureStopsSubmission | lib/paymentService.ts:31-35 | A failed token request stops the submission. Only the token request was sent, the cache is unchanged, and the error is 'Order submission failed: Authentication failed: ' + cause. |
| PaymentService.SubmissionTimeoutMessage | lib/paymentService.ts:130-134 | A timed-out order request fails with exactly 'Order submission failed: Request timeout'. |
| PaymentService.SubmissionRejectionMessage | lib/paymentService.ts:130-134 | An order the gateway refuses with a message fails with 'Order submission failed: ' + that message, whatever the status. |
| PaymentActions.Classify | lib/payment-actions.ts:57-84 | 401 exactly when the caught Error's message contains 'Authentication failed'. Otherwise 408 exactly when it contains 'timeout'. Otherwise 500, with 'Payment processing failed: ' + message for an Error and the generic text for a non-Error. |
| PaymentActions.HandlePaymentRequest | lib/payment-actions.ts:5-86 | Missing credentials are refused with no status and nothing sent. Otherwise success holds exactly when the submission succeeded, and it copies the gateway's four fields verbatim, an empty `redirect_url` included. Every other answer has status 401, 408 or 500. |
| PaymentActions.FailedSubmissionClassified | lib/payment-actions.ts:50-85 | A failed submission is reported as the classification of the error it threw. |
| PaymentActions.AuthenticationFailureMentioned | lib/payment-actions.ts:59 | Every authentication failure, rewrapped by the submission, contains 'Authentication failed'. |
| PaymentActions.SubmissionTimeoutMentioned | lib/payment-actions.ts:59-72 | The submission's timeout message contains 'timeout' but not 'Authentication failed'. |
| PaymentActions.AuthenticationFailureIs401 | lib/payment-actions.ts:59-65 | Any failed token request, a timeout included, ends in the 401 authentication message. |
| PaymentActions.SubmissionTimeoutIs408 | lib/payment-actions.ts:66-72 | A timed-out order request, after a cached or fresh token, ends in the 408 retry message. |
| PaymentActions.ProviderRejectionIs500 | lib/payment-actions.ts:73-77 | A gateway rejection of the order, a 401 included, ends in 500 with 'Payment processing failed: Order submission failed: ' + the gateway's message, whatever other properties the error body has, unless that message contains 'Authentication failed' or 'timeout'. |
| PaymentActions.ProviderTimeoutTextIs408 | lib/payment-actions.ts:66-72 | A gateway rejection whose message contains 'timeout' but not 'Authentication failed' ends in the 408 retry message, whatever the HTTP status and the error body's other properties. |
| PaymentActions.RejectionMentions | lib/payment-actions.ts:59-72 | Prefixing 'Order submission failed: ' neither adds nor removes an occurrence of 'Authentication failed' or 'timeout'. |
| UserInfoForm.TestEmail | components/user-info-form.tsx:54 | The scan finds a match exactly when some `\S@\S+\.\S` occurrence exists in the text. |
| UserInfoForm.BlankIsNoEmail | components/user-info-form.tsx:52-56 | A blank text never contains the email pattern. |
| UserInfoForm.EmailError | components/user-info-form.tsx:52-56 | The email gets an error exactly when it is blank or has no pattern match: 'Email is required' if blank, else 'Please enter a valid email'. |
| UserInfoForm.PhoneError | components/user-info-form.tsx:58-62 | The phone gets an error exactly when it is blank or does not fit `^\+?[\d\s\-()]{10,}$`: required first, then invalid. |
| UserInfoForm.ValidateForm | components/user-info-form.tsx:45-66 | Each field has at most one error, and the required check comes first. The form passes exactly when no field has an error, i.e. name non-blank, email non-blank and shaped, phone non-blank and shaped. |
| UserInfoForm.BlankPhoneIsRequiredNotInvalid | components/user-info-form.tsx:58-62 | Ten spaces fit the phone pattern and are still blank, so they get the "required" error. |
| UserInfoForm.HandleSubmit | components/user-info-form.tsx:68-73 | The data is handed on exactly when validation passes and no payment is in progress, and then it is the form's data unchanged. |
| UserInfoForm.HandleInputChange | components/user-info-form.tsx:75-80 | Only the named field changes. Only that field's existing error is cleared, to an empty entry; the other errors stay. |
| Strings.Trim | components/user-info-form.tsx:48 | `trim()` is a slice of the text with only white space before and after it. It is empty exactly for all-white-space text, and it leaves text without white space unchanged. |
| Strings.Contains | lib/payment-actions.ts:59 | `includes` holds exactly when the text occurs at some position. |
| Strings.HyphenateSpaces | components/ticket-display.tsx:265 | Computes `replace(/\s+/g, '-')`. Strings.HyphenateSpacesShape and TicketDisplay.SpaceRunsCollapse state it. |
| Strings.HyphenateSpacesShape | components/ticket-display.tsx:265 | The result has no white space, is no longer than the input, and equals the input when the input has no white space. |
| Strings.ToLower | components/ticket-display.tsx:213 | `toLowerCase()` keeps the length, maps each ASCII capital to its lower-case letter, leaves every other character alone, and leaves no ASCII capital. |
| Strings.Split | app/page.tsx:130 | `split(' ')` gives at least one part, none holding a space, and joining the parts with a space gives the text back. |
| Checkout.FindIn | app/page.tsx:89 | The search finds a type with the id exactly when one exists. |
| Checkout.FindTypeIsFind | app/page.tsx:89 | The catalogue lookup is the first-match search over the three ticket types. |
| Checkout.CataloguePrices | app/page.tsx:27-49 | A catalogue type costs between 10000 and 100000; an unknown id costs 0. |
| Checkout.UpdateTicketQuantity | app/page.tsx:71-81 | The id's quantity becomes max(0, current + change), and a key reaching 0 is removed. A new id with a positive change is appended as the last entry. Other ids keep their quantities and entries, and one positive entry per id is kept. |
| Checkout.PutAbsent | app/page.tsx:71-81 | Setting the quantity of an id not yet listed adds it as the last entry and leaves the earlier entries in their order. |
| Checkout.InStockBounds | app/page.tsx:288-308 | In a reachable-style selection every listed id is a catalogue type with 1 to `available` tickets. |
| Checkout.Click | app/page.tsx:288-308 | Computes one press of a +/- button, a no-op while it is disabled. ClickInStock states that it keeps a selection in stock. |
| Checkout.Clicks | app/page.tsx:288-308 | Computes the selection a sequence of presses produces. ReachableInStock states that it is always in stock. |
| Checkout.ClickInStock | app/page.tsx:288-308 | A press on a catalogue button, with its disabled rules, keeps the selection in stock. |
| Checkout.ReachableInStock | app/page.tsx:288-308 | Every selection the buttons can produce has one entry per id with 1 to `available` tickets. |
| Checkout.TotalTickets | app/page.tsx:83-85 | Computes `getTotalTickets()`. TotalWithout, TotalAfterUpdate and TicketsIffEntries state its meaning: positive exactly for a non-empty well-formed selection, and moved by exactly the change of an update. |
| Checkout.TotalPrice | app/page.tsx:87-92 | Computes `getTotalPrice()`. TotalWithout, TotalAfterUpdate, PriceBounds and MaterialiseValue state its meaning: the issued tickets' value, between 10000 and 100000 per ticket. |
| Checkout.TotalWithout | app/page.tsx:83-92 | A total is the rest's total plus the id's weight times its quantity. |
| Checkout.TotalAfterUpdate | app/page.tsx:71-92 | An update moves each total by the id's unit weight times the change in its quantity. |
| Checkout.TicketsIffEntries | app/page.tsx:83-85 | A well-formed selection has at least one ticket per entry, so it has tickets exactly when it has an entry. |
| Checkout.PriceBounds | app/page.tsx:87-92 | The price of an in-stock selection lies between 10000 and 100000 per ticket. |
| Checkout.ProceedToCheckout | app/page.tsx:94-98 | The form opens from the selection screen exactly when the ticket count is positive; an open form stays open. |
| Checkout.CheckoutNeedsTickets | app/page.tsx:94-98 | For a well-formed selection the form opens exactly when the selection is non-empty. |
| Checkout.Description | app/page.tsx:100-109 | Computes `generateTicketDescription()`. DescriptionOfOne and DescriptionExtends state its value for every non-empty selection; DescriptionMentions states that every entry is named. |
| Checkout.DescriptionMentions | app/page.tsx:100-109 | The description contains every entry's item. |
| Checkout.DescriptionOfOne | app/page.tsx:100-109 | One entry is described as the concert title, ' - ' and its `<quantity>x <name or id>` item. |
| Checkout.DescriptionExtends | app/page.tsx:100-109 | A later entry is described after the earlier ones, after ', '. |
| Checkout.DescriptionOfTwoVip | app/page.tsx:100-109 | Two VIP tickets are described as 'Summer Music Festival 2024 - 2x VIP'. |
| Checkout.SplitName | app/page.tsx:130-131 | Computes the first and last name. SingleWordName, NameSplitRejoins and LeadingSpaceName state its cases. |
| Checkout.SingleWordName | app/page.tsx:130-131 | A name without a space is both first and last name. |
| Checkout.NameSplitRejoins | app/page.tsx:130-131 | When both parts are non-empty, first + ' ' + last is the name, and the first name has no space. |
| Checkout.LeadingSpaceName | app/page.tsx:130-131 | ' Jane' gives first name ' Jane' and last name 'Jane'. |
| Checkout.BuildOrder | app/page.tsx:118-134 | The amount is the total price and the description is the selection's description. The ids carry the 'ORD-' and 'NOTIF-' prefixes, and the callback is under the origin. The billing address holds the buyer's email and phone, the split name, 'UG' and the default address line. |
| Checkout.Copies | app/page.tsx:145-163 | Produces `n` tickets of one type. CopiesValue states their value. |
| Checkout.Batch | app/page.tsx:142-166 | Produces one entry's tickets. BatchSize states their count and value. |
| Checkout.Materialise | app/page.tsx:142-166 | Produces the ticket loop's output. MaterialiseIssued, MaterialiseCount and MaterialiseValue state what every ticket carries, how many there are and what they are worth. |
| Checkout.CopiesValue | app/page.tsx:145-163 | `n` tickets of one type are worth its price times `n`. |
| Checkout.BatchSize | app/page.tsx:142-166 | One entry yields quantity tickets of a known type and none of an unknown one, worth its unit price times quantity. |
| Checkout.MaterialiseIssued | app/page.tsx:142-166 | Every created ticket is pending, carries the order's id and payment link, has the buyer as holder, and has a 'TKT-' id. |
| Checkout.MaterialiseCount | app/page.tsx:142-166 | One ticket is created per selected unit of a known type. |
| Checkout.MaterialiseValue | app/page.tsx:142-166 | The created tickets are worth the selection's total price. |
| Checkout.InStockAllKnown | app/page.tsx:142-145 | In an in-stock selection no entry is skipped, so the ticket count is the selected count. |
| Checkout.AfterPayment | app/page.tsx:139-178 | Tickets are shown exactly when the action succeeded with a non-empty `redirect_url`, and they are issued for the order and sum correctly. Otherwise the action's error is shown, or 'Payment processing failed', or the unexpected-error text for a rejected call. |
| Checkout.HandleUserInfoSubmit | app/page.tsx:111-181 | The order is the built order. Tickets appear only with credentials and an accepted order with a redirect, each pending with that link and the order's id. Missing credentials show the configuration error. |
| Checkout.AcceptedOrderShowsTickets | app/page.tsx:111-181 | With credentials, a usable or obtained token and a 2xx answer carrying a `redirect_url`, the page shows tickets, each linking to that `redirect_url`. |
| Checkout.MissingRedirectShowsFailure | app/page.tsx:139 | After a usable or obtained token, an accepted order whose answer has no `redirect_url` shows 'Payment processing failed'. |
| Checkout.AcceptedOrderTickets | app/page.tsx:111-181 | For a selection made with the buttons, an accepted order shows one ticket per selected unit, together worth the order's amount. |
| VerifyPage.Verdict | app/verify/page.tsx:40-67 | Valid exactly when the untrimmed number starts with 'TKT-'. A valid result echoes the number with the fixed details and 'confirmed'; an invalid one has no ticket and the not-found message. |
| VerifyPage.StartVerification | app/verify/page.tsx:34-38 | A blank number changes nothing; any other number starts loading. |
| VerifyPage.FinishVerification | app/verify/page.tsx:40-67 | The timer shows the verdict for the submitted number and stops loading. |
| VerifyPage.EditNumber | app/verify/page.tsx:106 | Typing replaces the number and nothing else. |
| VerifyPage.EnabledSubmissionVerifies | app/verify/page.tsx:113 | A submission the enabled button allows starts a check that reports the number's verdict, after which the button is enabled again. |
| VerifyPage.ValidityIsPrefixClosed | app/verify/page.tsx:42 | A valid number stays valid with anything appended. |
| VerifyPage.LeadingSpaceIsInvalid | app/verify/page.tsx:42 | 'TKT-1' is valid and ' TKT-1' is not. |
| VerifyPage.IssuedTicketsVerify | app/verify/page.tsx:42-58 | Every ticket the storefront issues passes the check and is shown with the fixed sample details. |
| TicketDisplay.PaymentBadge | components/ticket-display.tsx:213-217 | PAID exactly when the lower-cased status is 'completed' or 'paid'; PENDING otherwise, a missing status included. |
| TicketDisplay.CaseInsensitive | components/ticket-display.tsx:213-214 | Statuses equal after lower-casing get the same badge. |
| TicketDisplay.PaidSpellings | components/ticket-display.tsx:213-214 | 'Paid', 'PAID', 'paid' and 'Completed' are all PAID. |
| TicketDisplay.CardBadgeFor | components/ticket-display.tsx:324-327 | The card gets the secondary, yellow style exactly for the exact text 'pending'. |
| TicketDisplay.CardBadgeIsCaseSensitive | components/ticket-display.tsx:325-326 | 'Pending' is drawn PENDING but its card gets the default style. |
| TicketDisplay.IssuedTicketsArePending | components/ticket-display.tsx:325-326 | Freshly issued tickets are drawn PENDING and their cards get the pending style. |
| TicketDisplay.DownloadName | components/ticket-display.tsx:265 | Computes the download file name. DownloadNameShape states its shape. |
| TicketDisplay.DownloadNameShape | components/ticket-display.tsx:265 | The file name is a white-space-free form of the title, no longer than the title and equal to it when it has no white space, then '-ticket-', the id and '.png'. It has no white space when the id has none. |
| TicketDisplay.SpaceRunsCollapse | components/ticket-display.tsx:265 | A run of several spaces becomes one hyphen, like a single space. |
| TicketDisplay.PaymentLink | components/ticket-display.tsx:305 | A link exists exactly when there is a ticket. |
| TicketDisplay.SharedPaymentLink | components/ticket-display.tsx:305 | For the tickets of one order the button opens the order's link, which equals every ticket's link. |
| TicketDisplay.ShownTicketsOpenRedirect | components/ticket-display.tsx:305 | After an accepted payment the button opens the gateway's `redirect_url`. |

## Left out

- `fetch`, `AbortController`, the timers and `response.json()` are replaced by the `Outcome` oracle. Request headers a caller might add through `options.headers` are not modelled, because no caller passes any.
- `new Date()` and `new Date(text)` are replaced by the clock value and the `parseDate` parameter. Date-string parsing itself is not modelled.
- `process.env` becomes the `Environment` value. `console.log` and `console.error` have no behaviour to model.
- Concurrent use of the singleton client (lib/paymentService.ts:181) is not modelled: one sequential client's state is threaded through the calls.
- The id suffixes from `Date.now()` and `Math.random()` are opaque `Entropy` strings. Nothing is claimed about their uniqueness, which the code does not guarantee.
- Canvas drawing, image loading, the clipboard, `window.open`, `window.location`, and all JSX rendering apart from the badge, file name and link rules are not modelled.
- `toLocaleString` price formatting, the toast component and hooks, and the unused `PaymentOrderStatus` fields are not modelled.
- Types in types/payment-type.ts that the core does not use (`Mwonya*`, `UserDetails`, `ArtistCircleDetails` and others) are not modelled.
- The 1.5-second delay of the verify page is modelled only as the split into a start step and a finish step.
- Strings.ToLower: maps ASCII letters only, because `toLowerCase` is full Unicode case mapping. The statuses compared are ASCII.
- Strings.IsSpace: a fixed set of ECMAScript white-space and line-terminator code points. Unicode category Zs is not tracked across Unicode versions.
- PaymentService.TranslationTable: a non-2xx answer whose body is JSON `null` is not modelled. The source then throws a TypeError when it reads `errorData.message` (lib/paymentService.ts:62), and the catch turns it into an error carrying that TypeError's message and no status code. The model takes every JSON body to be an object.
- PaymentService.StatusCodeOnlyFromResponses: "a status code exactly when non-2xx" holds only for object bodies. A JSON `null` error body gets no status code in the source (the TypeError path above), and the model does not express that body.
- PaymentActions.HandlePaymentRequest: a 2xx answer whose body is JSON `null` is not modelled. The source then throws when it reads `orderResponse.redirect_url` (lib/payment-actions.ts:39) and reports 500 although the submission succeeded. The model takes the gateway's answer to be an object.
- `JSON.stringify` bodies are the abstract `Payload` values, and JSON `null` for `redirect_url` is the empty string.
- `Object.entries` lists integer-like keys first. The selection keeps insertion order only, which is exact for the page's ids, none of which is integer-like.
- UserInfoForm.HandleInputChange: the field is one of the form's three names. A call with any other key, which the form never makes, would add a fourth property.
- `userInfo.address` is always absent, because the form passes only name, email and phone. `Checkout.AddressLine` still models the fallback.
- PaymentActions.ProviderRejectionIs500: stated for a non-empty gateway message. An empty one is replaced by the status text, which `PaymentService.TranslationTable` states.
- Checkout.AfterPayment: the ticket count and value are stated for selections with no negative quantity, which is all the page can hold. For a negative quantity the loop runs zero times, which `Checkout.Batch` models.
