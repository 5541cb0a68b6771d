# Order board: a Dafny model of the order classification

The order board polls a restaurant point-of-sale API for the orders of the
last hour and shows them on a kitchen display in two lists: orders that are
ready for pickup, and orders still in progress with a status label such as
"Just placed", "12 mins", "Almost ready" or "25 mins ago". All of its logic
sits in the `GET /orders` handler of `server.js`. This project models that
logic as pure Dafny functions and proves what it promises:

- `Classifier.Classify` is the per-order decision. An order is hidden when it
  has no display number, when no item of its first check belongs to an allowed
  menu group, or when its age is over 35 minutes. Otherwise it is ready when
  it has at least one valid item and every valid item is READY, or when the
  order itself is READY_FOR_PICKUP. Any
  other order is in progress.
- `StatusLabel.Label` is the four-band status label. It is proved equal to an
  independent band definition over the age. `StatusLabel.Parse` reads a label
  back into its band.
- `Board.Collect` and `Board.BuildBoard` are the loop over the fetched orders.
  Their results are exactly the ready and in-progress orders, in fetch order.
  A failed detail fetch adds nothing.
- `Board.HandleOrders` is the whole request. It returns a 500 response when
  login or the order listing fails.
- `TokenCache.GetAccessToken` is the bearer-token cache. A cached token is
  reused only while it is truthy and the clock is before `tokenExpires`.
  Over any run of calls, a cached token is never served during the final
  minute of its lifetime.
- `Dates.FormatDate` rewrites a trailing `Z` to `+0000`.

Modules: `Wrappers` (Option, Result, JavaScript truthiness of a string),
`Decimal` (how a template literal renders a whole number), `Orders` (order
record, display name, allow-list), `StatusLabel`, `Classifier`, `TokenCache`,
`Dates`, `Board`.

Inputs that the program reads from the outside world are parameters here:

- Each call of `Date.now()` is an integer clock reading in milliseconds. The
  handler reads the clock once per order, so every `Board.Fetch` carries its
  own reading.
- The order-detail responses arrive as `Result<Order, FetchError>`.
- The login response arrives as `Result<LoginResponse, AuthError>`, together
  with the clock reading taken after it returns.

Two behaviours of the code are easy to misread; the model follows the code:

- A missing `createdDate` does not make the order skipped directly. The code
  measures the age from `new Date(null)`, which is the epoch. The order is
  therefore skipped as stale at any clock reading from 35.5 minutes past the
  epoch on (`Classifier.MissingCreatedIsStale`).
- An order of age 3 minutes that is not ready is labelled "17 mins"; only
  ages below 2 are "Just placed" (`StatusLabel.CountdownBoundaries`).

## Model

| member | source | states |
|---|---|---|
| `Classifier.Classify` | server.js:88-146 | Skipped exactly when the display number is not truthy, no first-check selection is in an allowed group, or the rounded age exceeds 35. Ready exactly when admitted, not stale and the readiness rule holds. Name and number are the display name and display number. An in-progress label is the band of the age |
| `Classifier.IsOrderReady` | server.js:114-123 | Equivalent to the quantified rule: (some selection is valid and every valid one is READY) or approval status is READY_FOR_PICKUP |
| `Classifier.ValidSelections` | server.js:114-118 | Keeps a selection exactly when it is from an allowed group, not flagged voided and not VOIDED, each valid selection as many times as it occurs in the input and an invalid one not at all. Never longer than the input |
| `Classifier.ValidSelectionsAppend` | server.js:114-118 | The filter keeps the input order: filtering a concatenation is concatenating the filtered parts |
| `Classifier.AnyAllowed` | server.js:98-100 | True exactly when some selection's group id is in the allow-set |
| `Classifier.AllReady` | server.js:122 | True exactly when every selection's fulfillment status is READY, so true for the empty list |
| `Classifier.RoundedMinutes` | server.js:107 | The result is the whole number of minutes nearest to the elapsed milliseconds, with a half minute rounding up: within 30 s of 60000 times the result |
| `Classifier.RoundedMinutesMonotone` | server.js:107 | A later clock reading never gives a smaller age |
| `Classifier.StaleIffElapsed` | server.js:107-111 | Stale exactly when at least 2 130 000 ms have elapsed. Age exactly 35 (kept) exactly for 2 070 000 to 2 129 999 ms |
| `Classifier.SkippedStaysSkipped` | server.js:102-111 | A skipped order is still skipped at any later clock reading |
| `Classifier.MissingCreatedIsStale` | server.js:90-108 | An order without a creation date is skipped at every clock reading of at least 2 130 000 ms |
| `Classifier.PickupReadyWithAllItemsVoided` | server.js:121-126 | READY_FOR_PICKUP makes an order ready even when its only selection is voided; the name falls back to "Guest" |
| `Classifier.StaleEvenWhenReadyForPickup` | server.js:107-111 | A READY_FOR_PICKUP order with READY items is skipped at age 36 and kept at age 35 |
| `Classifier.InProgressLabels` | server.js:128-145 | A cooking order shows "Almost ready" at age 16 and "25 mins ago" at age 25 |
| `Orders.DisplayName` | server.js:88 | The first check's tab name when present and non-empty, otherwise "Guest". Never empty. Later checks are ignored |
| `Classifier.OnlyFirstCheckMatters` | server.js:88-91 | Replacing every check after the first by anything leaves the classification unchanged: only `checks[0]` is inspected |
| `Orders.AllowListDuplicateCountsOnce` | server.js:20-34 | Twelve listed ids give eleven members: the id listed twice is one member |
| `StatusLabel.StatusOf` | server.js:128-139 | The bands as age intervals: under 2 "just placed", 2 to 14 a countdown of 6 to 18 minutes left, 15 to 19 "almost ready", 20 on the age. Exactly one band per age |
| `StatusLabel.Label` | server.js:128-139 | The handler's first-match chain over `minsLeft = 20 - age` renders exactly the status of the interval definition |
| `StatusLabel.ParseRender` | server.js:132-138 | Every label reads back to the status it renders, so a label identifies its band and number |
| `StatusLabel.SameLabelIffSameStatus` | server.js:128-139 | Two ages get the same label exactly when they have the same status |
| `StatusLabel.FixedTextBoundaries` | server.js:133-136 | Ages -3, 0 and 1 give "Just placed"; ages 15, 16 and 19 give "Almost ready" |
| `StatusLabel.CountdownBoundaries` | server.js:137-138 | Ages 2, 3 and 14 give "18 mins", "17 mins" and "6 mins" |
| `StatusLabel.OverdueBoundaries` | server.js:131-132 | Ages 20, 25 and 35 give "20 mins ago", "25 mins ago" and "35 mins ago" |
| `Decimal.FromNat` | server.js:132 | A whole number renders as a non-empty digit string with no leading zero |
| `Decimal.ToNatFromNat` | server.js:138 | Reading a rendered number back gives the number |
| `Decimal.FromNatInjective` | server.js:138 | Two numbers render the same exactly when they are equal |
| `TokenCache.GetAccessToken` | server.js:36-47 | No login exactly when the cached token is truthy and the clock is before `tokenExpires`; then the cached token is returned and the cache is unchanged. A failed login leaves the cache unchanged. A successful one caches and returns the new token, with `tokenExpires` plus 60 s equal to the issue time plus `expiresIn` seconds |
| `TokenCache.RunJustified` | server.js:36-47 | While the cache agrees with the answers given so far, every later reuse serves the latest issued token before its deadline |
| `TokenCache.CachedTokenNeverServedInFinalMinute` | server.js:13-47 | From process start, every call answered from the cache serves the token of the latest successful login, strictly before that token's final minute |
| `TokenCache.UnusableLoginNotReused` | server.js:37-46 | A login that yields an empty or missing token, or a lifetime of at most 60 s, is followed by another login on the next call |
| `Dates.FormatDate` | server.js:16-18 | A trailing `Z` becomes `+0000` and all earlier characters stay in place; a string without a trailing `Z` is unchanged; the result never ends in `Z` |
| `Dates.UnformatFormat` | server.js:17 | For strings ending in `Z`, the reverse rewrite restores the input |
| `Dates.FormatDateIdempotent` | server.js:17 | Rewriting twice equals rewriting once |
| `Board.Contribution` | server.js:125-146 | One order adds at most one entry: one ready entry exactly when ready, one progress entry exactly when in progress |
| `Board.Gather` | server.js:76-151 | The two lists together never hold more entries than there were orders |
| `Board.Collect` | server.js:76-151 | The board for the fetches has no more entries than there were fetches |
| `Board.GatherAppend` | server.js:79-151 | Gathering a concatenation of fetches is concatenating the gathered lists |
| `Board.Positions` | server.js:79-151 | The positions are increasing and in range; a position is listed exactly when its order lands on that list |
| `Board.FetchLandsAtMostOnce` | server.js:79-151 | A fetched order is never on both lists; a failed fetch is on neither |
| `Board.ReadyInFetchOrder` | server.js:125-126 | The ready list is exactly the entries of the ready orders, in fetch order |
| `Board.ProgressInFetchOrder` | server.js:127-145 | The progress list is exactly the entries of the in-progress orders, in fetch order |
| `Board.PushAll` | server.js:125-146 | Pushing each classification in order onto two arrays builds exactly the gathered board, with at most one entry per order |
| `Board.BuildBoard` | server.js:76-151 | The loop over the fetches builds exactly the board for those fetches, with at most one entry per fetch |
| `Board.HandleOrders` | server.js:52-166 | A 500 response with body "Error fetching orders" exactly when login or the order listing fails; otherwise the gathered board. Either way the token cache is left as the token step left it |

## Left out

- Express routing, static file serving, `app.listen` and the JSON response writing (server.js:50-52, 153-170) are HTTP plumbing. The response is a `Board.Response` value.
- The axios calls to the login, order-list and order-detail endpoints are network I/O. Their outcomes are inputs: `Result` values, and `LoginResponse` for the login.
- The listing window (now minus 60 minutes) and the page size of 50 (server.js:55-58, 66-70) are parameters of the listing call. They shape only which ids arrive, and the ids arrive as input.
- `console.log`, `console.warn` and `console.error` diagnostics are side effects with no behavioural content.
- `dotenv` and the environment reads (server.js:8-11) are configuration I/O.
- `Date`, `toISOString` and date-string parsing are clock and calendar code. Timestamps are integer milliseconds, and `Dates.FormatDate` works on the already-rendered string.
- An unparseable `createdDate` gives `NaN` in JavaScript. This is a floating-point artefact and is not modelled.
- `Math.round` over a floating-point quotient is modelled as the integer formula `floor((elapsed + 30000) / 60000)`.
- Two requests refreshing the token at the same time is a concurrency race. The cache is modelled for calls made one after another.
- A login response without `expiresIn` would make `tokenExpires` `NaN` in JavaScript. `TokenCache.LoginResponse` always carries an integer lifetime.
- JavaScript's loose typing is not modelled. Fields have fixed types: `voided` is a boolean (absent means false), and group ids and statuses are strings. A detail response that makes the handler throw counts as a failed fetch.
- fetchMenuGroups.js is a one-off diagnostic script. It logs in, fetches the menu groups and prints them.
