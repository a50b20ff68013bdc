# Crypto price alerts: a Dafny model of the alert engine and its request guards

This project models the core of a Next.js crypto price-alert application.

- **The alert evaluation engine** (`AlertMonitor`, `alert_monitor.dfy`). This is a class that holds an in-memory price history keyed by coin id and a running flag. One evaluation cycle does the following:
  - loads the active alerts;
  - asks for one batched set of quotes;
  - rewrites the history entry of each alert's coin;
  - evaluates the trigger predicate;
  - for each firing alert, notifies the owner over Telegram and then marks the alert `triggered`/inactive in the store.

  The cycle is a `while` loop proved against the pure function `Cycle`. The properties are lemmas about that function.
- **The alerts REST handler** (`AlertsApi`, `alerts_api.dfy`). It covers the token guard, the POST guard chain that builds the alert record, the PUT and DELETE id guards, and the method switch.
- **Request helpers** (`Middleware`, `middleware.dfy`):
  - the `Bearer ` check of `getUserFromRequest`;
  - the fixed-window rate limiter, as a class over the shared request-count map;
  - `validateRequired`.
- **Token helpers** (`Jwt`, `jwt.dfy`): `extractTokenFromHeader` and the null propagation of `refreshToken`.
- **The authentication service** (`Auth`, `auth.dfy`):
  - the e-mail regular expression, written as a predicate and proved equal to a plain description of the accepted shape;
  - the password rules;
  - the guard order of `register` and `login`.
- **The monitor control endpoint** (`MonitorApi`, `monitor_api.dfy`). It maps GET and the POST actions `start`, `stop` and `check` onto the monitor.
- **Shared JavaScript semantics** (`Js`, `js.dfy`):
  - truthiness;
  - `String.prototype.replace` with a string pattern (first occurrence only);
  - `startsWith`;
  - `split` on one character, and `join`.

The collaborators are inputs:
- the alert store, the quote fetcher and the Telegram notifier return values or "throws", given as parameters or as an `Oracle` of alert ids whose send or update throws;
- bcrypt and jsonwebtoken are function parameters;
- the clock is an integer parameter `now`.

`Auth.ValidateEmail` models both copies of the e-mail check: lib/auth.ts:57-60 and lib/middleware.ts:85-88 use the same regular expression.

### Behaviour taken from the code

These behaviours of the code are kept as they are:
- **A throwing send skips the store update.** The update that marks an alert triggered sits after the send, inside the same `try`. When the send throws, the alert is not marked and stays active (`AlertMonitor.ThrowingSendSkipsUpdate`).
- **History is written per alert, not per cycle.** Any later alert on the same coin in the same cycle, adjacent or not, sees previous == current and a change of 0 (`AlertMonitor.SecondAlertOnCoinSeesNoChange`).
- **The percentage guard never applies within a cycle.** The "no history, or previous price 0" check runs after the entry has been written, and the written previous price is a nonzero quote (`AlertMonitor.WrittenEntryHasHistory`). What does apply is that a first observation has a change of 0 (`AlertMonitor.FirstObservationPercentageNeverFires`).
- **The alerts handler does not check for the `Bearer ` prefix.** It removes the first occurrence of `Bearer ` wherever it is. A header without it is verified as it stands (`AlertsApi.TokenOfHeader`).
- **Creation checks neither the comparison nor the kind.** Acceptance depends only on the required fields and on the threshold of a `price` or `percentage` kind (`AlertsApi.BuildAlertAcceptance`). `price` + `increase` is accepted. An unknown kind is stored with both thresholds null, and such an alert never fires.

## Model

| member | source | states |
|---|---|---|
| AlertMonitor.NextSnapshot | lib/alert-monitor.ts:94-100 | The entry written for a quoted coin. It is specified by `NextSnapshotSpec`, `RepeatedQuoteHasNoChange` and `PercentageInPriceTerms`. |
| AlertMonitor.NextSnapshotSpec | lib/alert-monitor.ts:94-100 | The new entry holds the quote. Its previous price is the old current price when there is one and it is nonzero, otherwise the quote. change = current − previous. changePercent·previous = 100·change when previous > 0, else 0. A first observation has no change. |
| AlertMonitor.RepeatedQuoteHasNoChange | lib/alert-monitor.ts:94-100 | Seeing the same nonzero quote twice gives previous = current and zero change and percentage. |
| AlertMonitor.ShouldTrigger | lib/alert-monitor.ts:113-140 | `shouldTriggerAlert`. It is specified by `PriceAlertSpec`, `PercentageNeedsHistory`, `PercentageAlertSpec` and `UnknownKindNeverFires`. |
| AlertMonitor.PriceAlertSpec | lib/alert-monitor.ts:114-121 | A price alert with `above` fires iff quote ≥ target, and with `below` iff quote ≤ target. Both are inclusive at equality. Any other comparison never fires. |
| AlertMonitor.PercentageNeedsHistory | lib/alert-monitor.ts:122-127 | A percentage alert never fires when its coin has no entry or the entry's previous price is 0. |
| AlertMonitor.PercentageAlertSpec | lib/alert-monitor.ts:129-139 | With history, `increase` fires iff changePercent ≥ target, and `decrease` iff changePercent ≤ −target. Other comparisons never fire. |
| AlertMonitor.UnknownKindNeverFires | lib/alert-monitor.ts:113-140 | An alert whose kind is neither `price` nor `percentage` never fires. |
| AlertMonitor.PercentageInPriceTerms | lib/alert-monitor.ts:99-135 | In price terms, an `increase` of t% fires exactly when the quote reaches previous·(1+t/100). A `decrease` fires exactly when the quote falls to previous·(1−t/100). |
| AlertMonitor.CoinIds | lib/alert-monitor.ts:79 | The coin ids of the quote request. It is specified by `RequestedCoinsAreDistinct`. |
| AlertMonitor.Distinct | lib/alert-monitor.ts:79 | `[...new Set(xs)]` has exactly the elements of xs, and no element twice. |
| AlertMonitor.RequestedCoinsAreDistinct | lib/alert-monitor.ts:79-82 | The quote request names exactly the coins of the loaded alerts, each once. |
| AlertMonitor.Monitor.constructor | lib/alert-monitor.ts:34-35 | A new monitor has an empty history and is not running. |
| AlertMonitor.Monitor.Start | lib/alert-monitor.ts:37-47 | While running it is a no-op that leaves the history unchanged. Otherwise it sets the flag and runs exactly one cycle, whose new history and report are those of `Cycle`. |
| AlertMonitor.Monitor.Stop | lib/alert-monitor.ts:59-62 | It clears the flag and keeps the history. |
| AlertMonitor.Monitor.GetStatus | lib/alert-monitor.ts:179-185 | It reports the flag, trackedCoins = the number of history keys, and the history. It changes nothing. |
| AlertMonitor.Monitor.ManualCheck | lib/alert-monitor.ts:188-191 | It runs one cycle whatever the flag says, and keeps the flag. |
| AlertMonitor.Monitor.TriggerAlert | lib/alert-monitor.ts:142-176 | Delivered iff the owner has a non-empty Telegram id, the verified flag is set and the send does not throw. Marked iff no send threw and the update does not throw. |
| AlertMonitor.Monitor.CheckAlerts | lib/alert-monitor.ts:64-111 | The loop leaves exactly the history and report of `Cycle` on the old history: alerts in order, one history write per quoted alert, trigger on the written history. |
| AlertMonitor.ProcessAlert | lib/alert-monitor.ts:86-105 | One loop iteration. It is specified by `ProcessAlertOutcome`, `WrittenEntryHasHistory`, `FirstObservationPercentageNeverFires` and `PercentageScenario`. |
| AlertMonitor.ProcessAll | lib/alert-monitor.ts:85-106 | The loop over the alerts in order. It is specified by `HistoryFrame`, `UnquotedAlertIsSkipped`, `LatestQuoteWritten`, `SecondAlertOnCoinSeesNoChange` and `ReportedIdsAreSound`. |
| AlertMonitor.Cycle | lib/alert-monitor.ts:64-111 | One `checkAlerts` cycle. `Monitor.CheckAlerts` is proved equal to it. It is specified by `EmptyCycleIsNoop`, `FailedFetchChangesNothing`, `PriceAlertScenario` and `MissingQuoteScenario`. |
| AlertMonitor.EmptyCycleIsNoop | lib/alert-monitor.ts:69-74 | An empty alert list ends the cycle before any quote request, with the history unchanged. |
| AlertMonitor.FailedFetchChangesNothing | lib/alert-monitor.ts:79-82 | When the batched fetch throws, the history is unchanged and nothing is sent or marked. |
| AlertMonitor.UnquotedAlertIsSkipped | lib/alert-monitor.ts:85-91 | An alert with no quote, or a zero quote, anywhere in the list changes nothing. The alerts after it are processed exactly as if it were absent. |
| AlertMonitor.HistoryFrame | lib/alert-monitor.ts:85-100 | After the loop, the history keys are the old keys plus the quoted coins. Every other coin's entry is untouched. |
| AlertMonitor.LatestQuoteWritten | lib/alert-monitor.ts:85-100 | Once any alert on a quoted coin has been processed, that coin's entry holds its quote, whatever alerts follow. |
| AlertMonitor.SecondAlertOnCoinSeesNoChange | lib/alert-monitor.ts:85-100 | For alerts k < j on the same quoted coin, adjacent or not, alert j's write leaves the snapshot (p, p, 0, 0). |
| AlertMonitor.SecondPercentageAlertNeverFires | lib/alert-monitor.ts:85-136 | So a percentage alert with a positive target never fires when an earlier alert of the same cycle was on its coin. |
| AlertMonitor.FirstObservationPercentageNeverFires | lib/alert-monitor.ts:94-133 | On a coin's first observation, a percentage alert with a positive target cannot fire. |
| AlertMonitor.WrittenEntryHasHistory | lib/alert-monitor.ts:94-127 | Within a cycle the predicate always sees an entry for a quoted coin, with a nonzero previous price. |
| AlertMonitor.PercentageScenario | lib/alert-monitor.ts:94-136 | 100 → 115 fires `increase` at 10% but not at 20%. 100 → 85 fires `decrease` at 10% but not at 20%. |
| AlertMonitor.ProcessAlertOutcome | lib/alert-monitor.ts:102-105 | An alert counts as delivered iff it fired and its delivery succeeded. It counts as marked iff it fired and its marking succeeded. Firing needs a quote. |
| AlertMonitor.ReportedIdsAreSound | lib/alert-monitor.ts:85-106 | Every notified id is a loaded alert whose delivery succeeded. Every updated id is one whose marking succeeded. Neither list is longer than the alert list. |
| AlertMonitor.ThrowingSendSkipsUpdate | lib/alert-monitor.ts:153-175 | An alert whose send throws is neither reported notified nor marked triggered. |
| AlertMonitor.PriceAlertScenario | lib/alert-monitor.ts:64-120 | An alert for above $50000 quoted at $50500 is sent once and marked once. The request names its coin once. |
| AlertMonitor.MissingQuoteScenario | lib/alert-monitor.ts:86-91 | An alert without a quote leaves the history unchanged and is neither sent nor marked. |
| AlertMonitor.MarkedAlertsDoNotFireAgain | lib/alert-monitor.ts:165-169 | Once the store has applied a cycle's marks, a later cycle over the alerts that `getActiveAlerts` returns does not notify or mark any alert marked earlier. |
| AlertsApi.Handle | pages/api/alerts/index.ts:9-100 | The handler. It is specified by `UnauthenticatedIsRefused`, `OtherMethodsNotAllowed`, `PostCreatesBuiltAlert`, `PutUpdatesOtherFields` and `DeleteNeedsId`. |
| AlertsApi.TokenOf | pages/api/alerts/index.ts:9 | The token taken from the header. It is specified by `TokenOfHeader`. |
| AlertsApi.BuildAlert | pages/api/alerts/index.ts:32-57 | The POST guard chain and the record it builds. It is specified by `BuildAlertAcceptance`, `MissingRequiredFields`, `ThresholdRequired`, `CreatedAlertShape` and `CreatedAlertThreshold`. |
| AlertsApi.UnauthenticatedIsRefused | pages/api/alerts/index.ts:9-17 | No token, or a token the verifier refuses, gives 401 and no store call. |
| AlertsApi.TokenOfHeader | pages/api/alerts/index.ts:9 | A `Bearer `-prefixed header yields the rest of the header. A header that never contains `Bearer ` is used unchanged. |
| AlertsApi.OtherMethodsNotAllowed | pages/api/alerts/index.ts:98-99 | Any method other than GET/POST/PUT/DELETE gives 405 with no store call. |
| AlertsApi.MissingRequiredFields | pages/api/alerts/index.ts:32-36 | A falsy coin_id, coin_name, coin_symbol, alert_type or comparison gives 'Missing required fields'. |
| AlertsApi.ThresholdRequired | pages/api/alerts/index.ts:38-44 | A `price` alert without a truthy target price, or a `percentage` alert without a truthy percentage, is refused with its message. A target of 0 counts as missing. |
| AlertsApi.CreatedAlertShape | pages/api/alerts/index.ts:46-57 | The created record has user_id from the token and the body's fields. The threshold of the other kind is null. is_active is true and triggered is false. |
| AlertsApi.CreatedAlertThreshold | pages/api/alerts/index.ts:38-53 | A price alert has a truthy target and no percentage. A percentage alert has a truthy percentage and no target. Any other kind has neither. |
| AlertsApi.BuildAlertAcceptance | pages/api/alerts/index.ts:32-57 | A body is accepted iff the five required fields are truthy and a `price`/`percentage` kind has a truthy threshold. Changing the comparison to any other truthy value never changes acceptance. |
| AlertsApi.ComparisonNotCheckedAgainstKind | pages/api/alerts/index.ts:32-57 | A `price` alert with comparison `increase` is accepted. |
| AlertsApi.PostCreatesBuiltAlert | pages/api/alerts/index.ts:30-63 | An authenticated POST either fails validation with 400 and no store call, or calls `createAlert` with exactly the built record. The status is then 201, or 500 when the store throws. |
| AlertsApi.PutUpdatesOtherFields | pages/api/alerts/index.ts:66-80 | PUT without an id gives 400. Otherwise the update passes every other body field unchanged, and only those, for that id. |
| AlertsApi.DeleteNeedsId | pages/api/alerts/index.ts:82-96 | DELETE without a query id gives 400. Otherwise it deletes that id. |
| Middleware.GetUserFromRequest | lib/middleware.ts:33-45 | `getUserFromRequest`. It is specified by `GetUserFromRequestSpec`. |
| Middleware.GetUserFromRequestSpec | lib/middleware.ts:33-45 | The result is null unless the header starts with `Bearer `. Otherwise it is the verifier's result on the header minus that prefix. |
| Middleware.CeilSeconds | lib/middleware.ts:75 | `Math.ceil(ms/1000)` is the least s with 1000·s ≥ ms. |
| Middleware.RequestCounts.constructor | lib/middleware.ts:53 | The request-count map starts empty. |
| Middleware.RequestCounts.RateLimit | lib/middleware.ts:55-82 | It changes only the entry of `${clientId}-${url}`, with the client id falling back from x-forwarded-for to the remote address to `unknown`. It decides as `Admit` does. |
| Middleware.ClientKey | lib/middleware.ts:57-59 | The rate-limit key, with the client id falling back from x-forwarded-for to the remote address to `unknown`. `RequestCounts.RateLimit` touches only this key. |
| Middleware.Admit | lib/middleware.ts:61-80 | The decision and the new entry for one request. It is specified by `AdmitOpensWindow`, `AdmitRefusesOverBudget`, `AdmitCounts`, `WindowBudget` and `WindowAllowsAtMostBudget`. |
| Middleware.AdmitOpensWindow | lib/middleware.ts:61-69 | With no entry, or with now > resetTime, it stores count 1 and resetTime now + windowMs, and allows the request. |
| Middleware.AdmitRefusesOverBudget | lib/middleware.ts:72-77 | Within the window and at or over budget it gives 429 and keeps the entry. retryAfter = ⌈(resetTime − now)/1000⌉ ≥ 0. |
| Middleware.AdmitCounts | lib/middleware.ts:79-80 | Otherwise the count goes up by exactly one and the request is allowed. |
| Middleware.WindowBudget | lib/middleware.ts:63-80 | From a live window at count c, later requests within it are allowed at most max(0, maxRequests − c) times. |
| Middleware.WindowAllowsAtMostBudget | lib/middleware.ts:63-80 | The request that opens a window, together with all requests up to its reset time, is allowed at most max(1, maxRequests) times. |
| Middleware.ValidateRequired | lib/middleware.ts:90-97 | The result is null iff no value is undefined, null or ''. Otherwise it is `${key} is required` for the first such key in order. |
| Jwt.ExtractTokenFromHeader | src/app/api/auth/lib/jwt.ts:64-74 | `extractTokenFromHeader`. It is specified by `ExtractFromNull`, `ExtractedTokenHasNoSpace`, `ExtractRoundTrip`, `ExtractCharacterization` and `ExtractRejectsMalformed`. |
| Jwt.ExtractFromNull | src/app/api/auth/lib/jwt.ts:65 | A missing header gives null. |
| Jwt.ExtractedTokenHasNoSpace | src/app/api/auth/lib/jwt.ts:68-73 | A token that is returned never contains a space. |
| Jwt.ExtractRoundTrip | src/app/api/auth/lib/jwt.ts:68-73 | extract("Bearer " + t) = t for every t without a space, the empty t included. |
| Jwt.ExtractCharacterization | src/app/api/auth/lib/jwt.ts:64-74 | The result is t iff the header is exactly "Bearer " + t and t has no space. |
| Jwt.ExtractRejectsMalformed | src/app/api/auth/lib/jwt.ts:68-71 | "bearer x" and "Bearer  x" give null. |
| Jwt.RefreshToken | src/app/api/auth/lib/jwt.ts:82-84 | The result is null iff the old token does not verify. |
| Jwt.RefreshKeepsOnlyIdentity | src/app/api/auth/lib/jwt.ts:86-96 | The new token is signed over userId and email alone. Two tokens with equal identities refresh alike, whatever their iat/exp. |
| Auth.ValidateEmail | lib/auth.ts:57-60 | The regex `^[^\s@]+@[^\s@]+\.[^\s@]+$`, also at lib/middleware.ts:85-88. It is specified by `ValidateEmailCharacterization`. |
| Auth.ValidateEmailCharacterization | lib/auth.ts:57-60 | The regex accepts iff the string has no whitespace, exactly one `@`, a non-empty local part, and a `.` in the domain with text on both sides. |
| Auth.ValidatePassword | lib/auth.ts:62-85 | The error list is the ordered list of failed rules. isValid holds iff that list is empty. |
| Auth.PasswordErrors | lib/auth.ts:62-79 | The error list in push order. It is specified by `PasswordErrorsSpec`. `ValidatePassword` is proved to build it. |
| Auth.PasswordErrorsSpec | lib/auth.ts:62-79 | Each rule's message is present iff the rule fails. The messages come in the order length, lower, upper, digit. There are at most 4. The list is empty iff all rules pass. |
| Auth.Register | lib/auth.ts:87-124 | Before any store call it gives, in order: invalid e-mail; then the password errors joined with ", "; then 'Passwords do not match'. Next, an existing user is refused. Otherwise the hash is stored and a token is signed for the created user. |
| Auth.Login | lib/auth.ts:126-156 | An invalid e-mail is refused before any store call. An unknown user and a wrong password get the same 'Invalid email or password'. A token is issued only when the user was found and the password matched. |
| MonitorApi.Handle | pages/api/monitor/alerts.ts:11-55 | GET returns getStatus and changes nothing. POST `start`/`stop`/`check` has the effect of Start/Stop/ManualCheck with 200. Any other action gives 400 'Invalid action' and changes nothing. Other methods give 405. |

## Left out

- Timers: only the running flag is modelled, without the one-minute `setInterval` that `start` arms or the auto-start on import in production. `stop` clears the flag but never clears the interval, so in the running program cycles go on after a stop; the model cannot show that.
- Concurrency: each cycle, request and handler call is one atomic step. A timer cycle and a manual check cannot interleave at their `await`s.
- Collaborators: Supabase queries, CoinGecko fetches and Telegram sends are not modelled. Their results, or the fact that they throw, are parameters. The payloads a handler writes are reduced to a status and a message.
- Foreign libraries: bcrypt `hash`/`compare` and jsonwebtoken `sign`/`verify` are functions passed in. So is `generateToken`. The `JWT_SECRET` environment check at import time is not modelled, and neither is a throwing hash or compare.
- Numbers: prices, thresholds and percentages are reals. IEEE rounding and NaN are not modelled. Times and counts in the rate limiter are integers.
- Auth.ValidatePassword: the length rule counts Unicode characters, where JavaScript counts UTF-16 code units. The two differ only for characters outside the Basic Multilingual Plane.
- AlertsApi.Handle: the request body is assumed to be an object (a primitive body reads as one without fields). A null or undefined body is not modelled: destructuring it throws inside the `try`, and the server answers 500.
- Middleware.RequestCounts.RateLimit: the 429 response body and the call to `next()` are reduced to the `Decision`. An `x-forwarded-for` header that arrives as an array is not modelled.
- MonitorApi.Handle: the POST body is assumed to be an object, so the catch-all 500 branch is not modelled. That branch is reached only when `const { action } = req.body` meets a null or undefined body, because `start`, `stop`, `manualCheck` and `getStatus` never throw (the cycle catches its own errors). The timestamp in the GET response is not modelled either.
- AlertMonitor.Monitor.GetStatus: returns the history as a value. In JavaScript it is the live object, so later cycles show through a kept reference (aliasing).
- `withAuth`, `successResponse`, `errorResponse` and `asyncHandler` in lib/middleware.ts are response plumbing and are not part of this model. `withAuth` uses the same header test as `getUserFromRequest`.
- Middleware.ValidateRequired: takes the sequence `Object.entries(fields)` would give. That `Object.entries` yields distinct keys, with integer-like keys first, is not modelled.
- Logging (`console`).
