# proofport order lifecycle, in Dafny

This project models the decision rules and the order lifecycle of proofport, a
web service that sells verifiable travel documents (a flight hold, a hotel
booking and an insurance certificate) with a chosen validity period:

- **Risk scorer** (`Fraud`, `FraudPatterns`): `checkFraud` and its predicates.
  It adds up purchase signals into a score, grades the score low, medium or
  high, and blocks at high. The score is kept in integer tenths (0.3 is 3),
  so the thresholds 0.8 and 0.5 are 8 and 5 and the cap 1.0 is 10.
  `CheckFraud` accumulates the score and the reasons step by step. It is
  proved equal to a check-by-check reference (`ScoreUpTo`, `ReasonsUpTo`).
  The three regular expressions of `isSuspiciousEmail` are linear scans,
  proved to decide "some window of the text is a run".
- **The orders table** (`Orders`, `OrderStore`): an in-memory table of order
  rows keyed by `id` (the row shape of `src/lib/supabase.ts`).
  `OrderStore.OrderTable` is a class whose `rows` field the handlers update:
  - `Generate`: order creation;
  - `Extend`: extension;
  - `AutoCancel`: the sweep of past-expiry orders.

  Each method is proved to produce exactly the table and reply of a pure
  reference (`GenerateSpec`, `ExtendSpec`, `SweepSpec` in the route modules)
  and to keep the ids unique. The lemmas about the handlers are stated over
  those references.
- **The dashboard** (`DashboardRoute`, `DashboardPage`): the listing's derived
  `time_left` and `expired`, plus the page's `formatTimeLeft`, its three
  counters, the status badge and the Extend action.
- **The order form** (`Storefront`): `calculatePrice`, as a method proved
  against a catalogue-based price, and the service toggle.
- **The route guard** (`RouteGuard`): the middleware's proceed/redirect
  decision.
- `Js` holds the JavaScript behaviour the model relies on: truthiness of an
  optional string, `startsWith`, `split`/`join`, ASCII case mapping and the
  decimal rendering of integers.

**Time.** Time is integer milliseconds and a day is 86 400 000 ms. The
current time is a parameter `now`. The local time zone is a fixed offset
`utcOffset`, used for the "same calendar day" test of the trip check.

**Replies and failures.** A handler's reply is `Reply<T>`:
`Success(body)` or `Failure(status, error)`. What the handlers get from
outside is passed in as parameters:

- `FlightReply` for the flight provider's answer;
- `InsertReply` for the store's answer to an insert;
- whether the lookup failed and the update's error for `Extend`;
- a per-order `Fault` for the sweep's status update;
- `None` for a body that is not valid JSON.

**The model follows the code as written. In particular:**

- An extension computes the new expiry from now, not from the old expiry, so
  it can move the expiry backwards.
- An extension never checks the order's status.
- The stored statuses are `'completed'` (written at creation) and
  `'cancelled'` (written by the sweep). "Expired" is only derived.
- A failed flight provider still yields the PNR `MOCK-PNR-123456`.
- Creation writes the fixed confirmation `HOTEL-CONF-789012` whenever 'hotel'
  is booked; no hotel provider answer is used.

## Model

| member | source | states |
|---|---|---|
| Fraud.CheckFraud | src/lib/fraud.ts:59-141 | The reasons are those of the fired checks, in check order. The score is the raw tenths capped at 10. The level is high from 8 and medium from 5. `shouldBlock` holds exactly when the level is high. The cap never changes the level. `deviceId` is the visitor id, or 'unknown' without a fingerprint. |
| Fraud.DeviceAnalysis | src/lib/fraud.ts:70-79 | Adds exactly what the first two checks of the reference contribute: +3 without a fingerprint, +2 for a confidence below 0.5. |
| Fraud.EmailAnalysis | src/lib/fraud.ts:81-90 | Adds the disposable-email (+4) and suspicious-email (+3) contributions to the running total and reasons. |
| Fraud.AmountAnalysis | src/lib/fraud.ts:92-101 | Adds the high-amount (+2) and low-amount (+1) contributions to the running total and reasons. |
| Fraud.ContextAnalysis | src/lib/fraud.ts:103-119 | Adds the order-pattern (+3), high-risk-country (+2) and suspicious-IP (+3) contributions to the running total and reasons. |
| Fraud.RawScoreBySignal | src/lib/fraud.ts:67-119 | The raw score is the sum of the nine weighted signals (3, 2, 4, 3, 2, 1, 3, 2, 3). |
| Fraud.RawScoreAtMostTwenty | src/lib/fraud.ts:67-119 | The raw score never exceeds 20 tenths, and some input scores more than 10, so the cap at 10 matters. |
| Fraud.RepeatedAddressHighRiskScoresThirteen | src/lib/fraud.ts:67-119 | An unfingerprinted order over 500 from the address "aaaaa", country XX and IP 10.0.0.1 scores at least 13 tenths, whatever the clock. |
| Fraud.ReasonsUpToFired | src/lib/fraud.ts:67-119 | After the first n checks, a check's reason is present exactly when that check is among them and fired; there are at most n reasons. |
| Fraud.ReasonIsInjective | src/lib/fraud.ts:74-118 | The nine reason texts are pairwise distinct, so a reason names its check. |
| Fraud.ReasonReportedIffFires | src/lib/fraud.ts:70-119 | A check's reason is reported if and only if the check fires; at most nine reasons. |
| Fraud.ExclusiveChecks | src/lib/fraud.ts:71-79 | At most one device contribution fires, and the high- and low-amount checks never fire together (lines 93-101). |
| Fraud.ScoreUpToMonotone | src/lib/fraud.ts:67-119 | If every check that fires on x also fires on y, the partial score of x is at most that of y. |
| Fraud.MoreSignalsNeverLowerRisk | src/lib/fraud.ts:121-132 | More fired checks never lower the raw score or the risk level. |
| Fraud.DisposableBigSameDayIsBlocked | src/lib/fraud.ts:82-107 | A disposable address, an amount over 500 and a trip on the current local day already score at least 9 tenths, so the order is graded high and blocked (lines 125-127). |
| Fraud.CleanInputScoresZero | src/lib/fraud.ts:67-119 | A confident fingerprint, a clean address, an amount from 10 to 500 and no trip date, country or IP give score 0 and no reasons. |
| Fraud.ReasonsEmptyIffScoreZero | src/lib/fraud.ts:67-119 | No reasons if and only if score 0: every fired check has a positive weight. |
| Fraud.IsDisposableEmail | src/lib/fraud.ts:143-154 | Definition, no contract: the text after the first '@' (up to the next '@'), lower-cased, is one of the five listed throwaway domains; an address without '@' is never disposable. |
| Fraud.DomainOfAddress | src/lib/fraud.ts:152 | The domain is the text between the first and the second '@' (or the end). |
| Fraud.NoAtNotDisposable | src/lib/fraud.ts:152-153 | An address without '@' has no domain and is not disposable. |
| Fraud.DisposableIffListedDomain | src/lib/fraud.ts:143-154 | An address is disposable if and only if the segment after its first '@', lower-cased, is one of the five listed domains. |
| Fraud.IsHighRiskCountry | src/lib/fraud.ts:186-190 | Definition, no contract: the country is present, non-empty and, upper-cased, one of "XX" and "YY". |
| Fraud.HighRiskCountryIff | src/lib/fraud.ts:186-190 | A country is high-risk if and only if it is "XX" or "YY" in any mix of letter case. |
| Fraud.AbsentFieldsDoNotFire | src/lib/fraud.ts:110-119 | An absent or empty country or IP address contributes nothing. |
| Fraud.IsSuspiciousIp | src/lib/fraud.ts:192-206 | Definition, no contract: the address is present, non-empty and starts with one of the prefixes derived from the three listed ranges. |
| Fraud.RangePrefixOf | src/lib/fraud.ts:202-204 | Splitting a CIDR text at '/' and its address at '.', and joining the first two groups, gives those two groups. |
| Fraud.SuspiciousIpPrefixesDerived | src/lib/fraud.ts:195-204 | The three listed ranges derive exactly the prefixes "10.0", "172.16" and "192.168". |
| Fraud.IpCheckIsTextPrefix | src/lib/fraud.ts:192-206 | The IP check is a text prefix test on "10.0", "172.16" and "192.168": "172.160.0.1" is flagged, "172.20.0.1" and "10.1.2.3" are not. |
| Fraud.HasSuspiciousOrderPattern | src/lib/fraud.ts:167-184 | Definition, no contract: the trip date (`dates`, else `departure_date`) parses and falls on the current local day or more than 365 days ahead. |
| Fraud.SameDayTripIsFlagged | src/lib/fraud.ts:169-175 | A trip on the same local calendar day as now is flagged. |
| Fraud.FarFutureTripIsFlagged | src/lib/fraud.ts:177-181 | A trip more than 365 days ahead is flagged; one exactly 365 days ahead is not. |
| Fraud.OrdinaryTripIsNotFlagged | src/lib/fraud.ts:167-184 | A trip on another day, at most 365 days ahead, is not flagged. |
| Fraud.TripDateChoice | src/lib/fraud.ts:170 | `dates` wins over `departure_date` when it is a non-empty text. Without either date, or with an unparsable non-empty `dates`, the trip check does not fire. |
| FraudPatterns.IsSuspiciousEmail | src/lib/fraud.ts:156-165 | Suspicious if and only if the address holds a run of 6 digits, a run of 20 lower-case letters a-z, or one character five times in a row. |
| FraudPatterns.ScanDecidesRun | src/lib/fraud.ts:159-164 | The single left-to-right scan answers true exactly when some window of the text is a run of the required length. |
| FraudPatterns.RunEndingAtSound | src/lib/fraud.ts:159-161 | Every window inside the run measured to end at a position is a run. |
| FraudPatterns.RunEndingAtComplete | src/lib/fraud.ts:159-161 | The measured run ending at a position is at least as long as any run window ending there. |
| FraudPatterns.ScanFrom | src/lib/fraud.ts:164 | The scan from position i succeeds exactly when some run of the required length ends at or after i. |
| FraudPatterns.RepeatRunIsSameCharacter | src/lib/fraud.ts:161 | A `(.)\1{4,}` window is one character, not a line terminator, repeated. |
| Js.JoinSplit | src/lib/fraud.ts:152 | `split` loses nothing: joining its parts with the separator gives the text back. |
| Js.SplitParts | src/lib/fraud.ts:152 | No part of a split contains the separator, and there is more than one part exactly when the separator occurs. |
| Js.SplitSecondPart | src/lib/fraud.ts:152 | `split('@')[1]` is the text between the first separator and the next one. |
| Js.SplitFirstPart | src/lib/fraud.ts:152 | The first part of a split is the text before the first separator. |
| Js.DecimalRoundTrip | src/app/api/extend/route.ts:37 | The decimal rendering of a timestamp reads back as the same number. |
| Orders.RowWithId | src/app/api/extend/route.ts:16-24 | The lookup finds a row exactly when some row has that id, and the row found has it. |
| Orders.RowWithIdAt | src/app/api/extend/route.ts:16-20 | With unique ids, looking up a row's own id finds that row. |
| OrderStore.OrderTable.Find | src/app/api/extend/route.ts:16-24 | The loop returns a position holding a row with the id, or nothing exactly when no row has it. |
| OrderStore.OrderTable.Generate | src/app/api/orders/generate/route.ts:14-162 | The new table and the reply are exactly those of `GenerateSpec`, and the ids stay unique. |
| OrderStore.OrderTable.Extend | src/app/api/extend/route.ts:4-76 | The new table and the reply are exactly those of `ExtendSpec`, with the row found by id updated in place, and the ids stay unique. |
| OrderStore.OrderTable.CancelCandidate | src/app/api/orders/auto-cancel/route.ts:20-53 | One pass of the loop body. It attempts the flight cancellation for a present pnr and the hotel cancellation for a present confirmation. The status becomes 'cancelled' unless the update failed. The id is reported unless the update threw. |
| OrderStore.OrderTable.AutoCancel | src/app/api/orders/auto-cancel/route.ts:4-68 | The loop leaves the table, the reply and the provider calls of `SweepSpec`, and the ids stay unique. |
| GenerateRoute.GenerateSpec | src/app/api/orders/generate/route.ts:14-161 | Definition, no contract: the new table and the reply of one creation request, given the body, the header, the flight provider's answer and the store's answer; the reference `OrderTable.Generate` is proved equal to. |
| GenerateRoute.GenerateSucceedsIff | src/app/api/orders/generate/route.ts:14-162 | Creation succeeds if and only if the body parses, a header is present, the flight provider answers when 'flight' is booked (with a valid passenger count), and the insert gets a fresh id. |
| GenerateRoute.GenerateFailureWritesNothing | src/app/api/orders/generate/route.ts:27-30 | A failure inserts nothing. A missing header gives 401 'Unauthorized'. Every failure is 401 or 500 (lines 139-141, 155-160). |
| GenerateRoute.GenerateSuccessRow | src/app/api/orders/generate/route.ts:111-153 | Success appends exactly one row with the store's id, user 'mock-user-id', status 'completed', ttl "<n> days" and expiry now + n days. `json_data` echoes the request with no screenshots. The reply echoes the stored id, pnr, hotel_conf and expiry, with the pdf URL. |
| GenerateRoute.GenerateConfirmationsFollowBundle | src/app/api/orders/generate/route.ts:55-109 | The pnr is present exactly when 'flight' is booked and is 'MOCK-PNR-123456' after a non-ok provider answer. The hotel confirmation is 'HOTEL-CONF-789012' exactly when 'hotel' is booked. Insurance data is present exactly when 'insurance' is booked. |
| GenerateRoute.GenerateIgnoresOtherEntries | src/app/api/orders/generate/route.ts:55-109 | Bundles that agree on the three known services give the same reply and the same rows apart from the echoed bundle. |
| GenerateRoute.GenerateKeepsIdsUnique | src/app/api/orders/generate/route.ts:115-137 | Creation keeps the ids unique. |
| ExtendRoute.ExtendSpec | src/app/api/extend/route.ts:4-75 | Definition, no contract: the new table and the reply of one extension, given the body, whether the lookup fails and the update's error; the reference `OrderTable.Extend` is proved equal to. |
| ExtendRoute.ExtendFailureWritesNothing | src/app/api/extend/route.ts:8-60 | Every failure leaves the table unchanged. A missing or falsy id or ttl gives 400. An unknown id or a failed lookup gives 404. A failed update of an existing row gives 500 with the store's message. |
| ExtendRoute.ExtendSucceedsIff | src/app/api/extend/route.ts:4-76 | Extension succeeds if and only if the body is complete, a row has the id, and the lookup and the update both succeed. |
| ExtendRoute.ExtendSuccessRow | src/app/api/extend/route.ts:26-67 | Only the row with the id changes, and only its pnr, hotel_conf, ttl, expiry and updated_at. The new expiry is now + new_ttl days. Status, user and json_data are kept. The reply echoes what was written. |
| ExtendRoute.RenewedPnrIff | src/app/api/extend/route.ts:31-38 | The pnr changes if and only if it is present and the bundle holds 'flight'; a missing pnr stays missing. |
| ExtendRoute.RenewedHotelConfIff | src/app/api/extend/route.ts:32-44 | The hotel confirmation changes if and only if it is present and the bundle holds 'hotel'. |
| ExtendRoute.SuccessorIsLonger | src/app/api/extend/route.ts:37 | "EXTENDED-<old>-<ts>" is more than ten characters longer than the old confirmation. |
| ExtendRoute.SuccessorRoundTrip | src/app/api/extend/route.ts:37-43 | The old confirmation can be read back from its successor, given the timestamp. |
| ExtendRoute.ExpiryIgnoresOldExpiry | src/app/api/extend/route.ts:27-28 | An extension can move the expiry backwards: a later old expiry is replaced by the earlier now + new_ttl days. |
| ExtendRoute.UpdateByIdAt | src/app/api/extend/route.ts:47-56 | With unique ids, the update by id is an update at the row's position. |
| ExtendRoute.ExtendKeepsIdsUnique | src/app/api/extend/route.ts:47-56 | Extension keeps the ids unique. |
| AutoCancelRoute.SweepSpec | src/app/api/orders/auto-cancel/route.ts:4-67 | Definition, no contract: the new table, the provider calls and the reply of one sweep, given the query error and a fault per order; the reference `OrderTable.AutoCancel` is proved equal to. |
| AutoCancelRoute.Candidates | src/app/api/orders/auto-cancel/route.ts:7-11 | The candidates are exactly the rows with status 'completed' and an expiry before now. |
| AutoCancelRoute.SweepRowByRow | src/app/api/orders/auto-cancel/route.ts:17-54 | A candidate whose update took effect becomes 'cancelled' with nothing else changed; every other row is unchanged. |
| AutoCancelRoute.SweepQueryErrorWritesNothing | src/app/api/orders/auto-cancel/route.ts:13-15 | A failed query gives 500 with its message, changes nothing and attempts no cancellation. |
| AutoCancelRoute.ReportedIdsWithoutFaults | src/app/api/orders/auto-cancel/route.ts:19-50 | Without faults, `cancelled_orders` is the candidates' ids in scan order. |
| AutoCancelRoute.ReportedIdsAreProcessed | src/app/api/orders/auto-cancel/route.ts:50-53 | An id is reported exactly when it is a candidate's whose update did not throw. There are at most as many ids as candidates. |
| AutoCancelRoute.CallsOfIff | src/app/api/orders/auto-cancel/route.ts:21-42 | A provider cancellation is attempted exactly for the candidates: flight for a present pnr, hotel for a present confirmation. |
| AutoCancelRoute.SweepIdempotent | src/app/api/orders/auto-cancel/route.ts:10-11 | After a sweep without faults, a second sweep at the same time finds no candidate (line 47). It changes nothing and reports "Cancelled 0 expired orders". |
| AutoCancelRoute.SweepKeepsIdsUnique | src/app/api/orders/auto-cancel/route.ts:45-48 | The sweep keeps the ids unique. |
| DashboardRoute.DashboardSpec | src/app/api/dashboard/route.ts:4-48 | Definition, no contract: 401 without a header, 500 with the query's message, otherwise the caller's rows newest first, each with its time left and expired flag, and their count. |
| DashboardRoute.OwnedBy | src/app/api/dashboard/route.ts:22 | The caller's rows are exactly the rows with that user id, each at most as often as in the table. |
| DashboardRoute.OwnedByCounts | src/app/api/dashboard/route.ts:22 | Each row of the caller occurs in the result exactly as often as in the table; no other row occurs. |
| DashboardRoute.SortNewestFirstCorrect | src/app/api/dashboard/route.ts:23 | The ordering by created_at descending is a permutation of its input and newest first. |
| DashboardRoute.TimeLeftAndExpired | src/app/api/dashboard/route.ts:32-34 | `time_left` is max(0, expiry - now), so never negative. No expiry gives (0, false). An expired order has no time left. Expiry = now gives (0, false). |
| DashboardRoute.ListingCorrect | src/app/api/dashboard/route.ts:4-49 | No header gives 401. Success holds exactly when there is a header and no query error. The listing is the caller's orders, newest first, each unchanged beside its derived fields. `total_orders` is its length. |
| DashboardPage.FormatTimeLeft | src/app/dashboard/page.tsx:52-62 | Definition, no contract: "Expired" for no time left, else "<d>d <h>h" from a day, "<h>h <m>m" from an hour, otherwise "<m>m". |
| DashboardPage.FormatExpiredIff | src/app/dashboard/page.tsx:52-62 | "Expired" is shown if and only if no time is left (line 53). Any other text ends in an hour or minute unit. |
| DashboardPage.TimeFields | src/app/dashboard/page.tsx:55-57 | For positive t: hours < 24, minutes < 60, and days, hours and minutes add up to t within one minute. |
| DashboardPage.FormatDaysHours | src/app/dashboard/page.tsx:55-59 | A day or more left shows "<d>d <h>h" for the whole days and the remaining whole hours. |
| DashboardPage.FormatHoursMinutes | src/app/dashboard/page.tsx:55-60 | Under a day but an hour or more left shows "<h>h <m>m". |
| DashboardPage.FormatMinutes | src/app/dashboard/page.tsx:57-61 | Under an hour left shows "<m>m", so under a minute shows "0m". |
| DashboardPage.ActiveCount | src/app/dashboard/page.tsx:144 | Definition, no contract: the number of listed orders not expired and with status 'completed'. |
| DashboardPage.ExpiringSoonCount | src/app/dashboard/page.tsx:160 | Definition, no contract: the number of listed orders with time left above 0 and under 24 hours. |
| DashboardPage.ExpiredCount | src/app/dashboard/page.tsx:176 | Definition, no contract: the number of listed orders flagged expired. |
| DashboardPage.CountDisjoint | src/app/dashboard/page.tsx:144-176 | Two filters that never hold together count at most the whole list between them. |
| DashboardPage.CountComplement | src/app/dashboard/page.tsx:144 | A filter's count and its complement's count add up to the list's length. |
| DashboardPage.CountExtremes | src/app/dashboard/page.tsx:160 | A filter that holds nowhere counts 0; one that holds everywhere counts the whole list. |
| DashboardPage.CountersBounded | src/app/dashboard/page.tsx:144-176 | Each counter is at most the number of orders. Active and expired never overlap. In an API listing, expiring-soon and expired never overlap. |
| DashboardPage.StatusBadge | src/app/dashboard/page.tsx:275 | Definition, no contract: "Expired" for an expired order, else its stored status. |
| DashboardPage.OffersExtend | src/app/dashboard/page.tsx:301 | Definition, no contract: the Extend action is shown for an order that is not expired. |
| DashboardPage.BadgeAndExtend | src/app/dashboard/page.tsx:266-301 | The badge reads "Expired" for an order past its expiry and otherwise the stored status (line 275). Extend is offered exactly for orders not past their expiry, whatever the status (line 301). |
| Storefront.CalculatePrice | src/app/page.tsx:97-104 | The running total equals the catalogue price: each catalogue service the bundle includes, plus two dollars per day beyond three. |
| Storefront.PriceBySelection | src/app/page.tsx:97-104 | The price ignores the bundle's order, repeated entries and unknown ids. |
| Storefront.PriceMonotone | src/app/page.tsx:97-104 | The price never falls as the validity grows, and only the surcharge changes. An empty bundle for at most three days costs 0. |
| Storefront.PriceBounded | src/app/page.tsx:97-104 | Within the slider's 1..14 days (lines 227-228), the surcharge is at most 22 and the price at most 56. |
| Storefront.ToggleService | src/app/page.tsx:88-95 | Definition, no contract: a service in the bundle is filtered out, an absent one is appended. |
| Storefront.WithoutCorrect | src/app/page.tsx:91-92 | Removing a service drops every occurrence and keeps every other entry as often as it occurred. Removing an absent service changes nothing. |
| Storefront.WithoutAppend | src/app/page.tsx:92 | The filter keeps the survivors in their order: filtering a concatenation filters each part. |
| Storefront.ToggleFlips | src/app/page.tsx:88-95 | A toggle flips the service's membership and leaves every other membership alone. An absent service is appended at the end. |
| Storefront.ToggleTwiceRestores | src/app/page.tsx:91-93 | Toggling an absent service twice restores the original bundle. |
| Storefront.ToggleKeepsNoDuplicates | src/app/page.tsx:88-95 | A toggle never introduces a duplicate entry. |
| Storefront.ReachableBundles | src/app/page.tsx:88-104 | Any bundle the checkboxes can reach holds offered services only, each once. A non-empty one costs at least 7. |
| Storefront.SubmittableBundleIsPriced | src/app/page.tsx:271-286 | A bundle reached by clicking checkboxes can be submitted exactly when the form is idle and the price summary is shown. It then costs the surcharge plus 7 to 34 for the services. |
| RouteGuard.Middleware | middleware.ts:4-53 | Definition, no contract: auth routes proceed; protected routes proceed with a token longer than ten characters and are otherwise redirected to "/" with the path; other paths proceed. |
| RouteGuard.AuthRouteWins | middleware.ts:10-19 | A path under "/auth/callback" proceeds whatever the cookies. |
| RouteGuard.RedirectIff | middleware.ts:9-52 | A request is redirected if and only if its path starts with "/dashboard" and it has no token longer than ten characters. The redirect is to "/" with the path as `redirect`. Other paths proceed. |
| RouteGuard.ProtectionIsPrefixMatch | middleware.ts:13 | Protection is a prefix test: "/dashboardX" and "/dashboard/orders" are guarded, "/dash" is not. |
| RouteGuard.TokenChoice | middleware.ts:24-25 | The token is the `sb-access-token` cookie when it is non-empty, else the `supabase-auth-token` cookie. A token is present exactly when one of them is non-empty. |
| RouteGuard.ShortTokenLikeNoToken | middleware.ts:28-47 | A token of at most ten characters gets the same redirect as no token. |

## Left out

- Fraud.CheckFraud: the score is added in exact tenths. JavaScript adds binary floating-point numbers, and 0.3 + 0.4 + 0.1 gives 0.7999999999999999. So a combination this model grades high (8 tenths) can be graded medium by the service.
- Fraud.CheckFraud: the nine checks are grouped into four helper methods (`DeviceAnalysis`, `EmailAnalysis`, `AmountAnalysis`, `ContextAnalysis`). The source runs them inline in one function. The order of the additions is the same.
- `getDeviceFingerprint` (browser APIs), `reportFraud` and `getDeviceHistory` (stubs), and `StripeRadarMock` (random numbers) are not modelled.
- Strings are sequences of Unicode scalar values, while JavaScript strings count UTF-16 code units. So `length` in the route guard and the regex `.` differ for characters outside the Basic Multilingual Plane. Case mapping covers ASCII letters only.
- The local time zone is a fixed offset. Daylight-saving changes, and `setDate`'s calendar-day step across them, are not modelled: n days are n · 86 400 000 ms.
- Dates are integer milliseconds rather than ISO strings. Date parsing is an input (`DateField.Text` carries the text and its parsed value, if any). The `Date` range limit is not modelled.
- One timestamp `now` stands for every `Date.now()` and `new Date()` read within one request.
- GenerateRoute: the route-suggestion request to the language-model API is not modelled. Its answer is unused; only a thrown error there would change the outcome, to a 500.
- GenerateRoute: the flight provider's reply is `NetworkFailure` or an ok flag with an optional offer id. A reply whose JSON cannot be parsed counts as `NetworkFailure` (both give 500). A non-string offer id is not modelled.
- GenerateRoute: the hotel provider's request and its swallowed failure do not affect the result, so they are not modelled.
- The order id assigned by the store is an input (`InsertReply`). An insert with an id that is already present is a store error (the primary key).
- Fields the bodies leave undefined other than those modelled (for example an absent `bundle`, which throws and gives 500) are not modelled. Numbers in bodies are integers; NaN and fractional days are not modelled.
- The dashboard's `payments (*)` join is not modelled. `created_at` is an integer timestamp, and the store's order among rows with equal `created_at` is taken to be insertion sort's.
- The sweep's query is taken to return candidates in table order. The provider cancellations are returned as a list of attempted calls, since their outcomes are swallowed.
- Concurrency: the handlers read and then write without locking. Each request is modelled as running alone.
- The middleware `matcher` pattern (framework configuration) and all React state and rendering are not modelled, except the display rules in `DashboardPage` and `Storefront`.
