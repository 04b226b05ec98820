# Finance engine: a verified model

A Dafny model of the parts of the finance engine where money, access and other users' data are at stake,
with proofs of what they promise. `dafny verify dfyconfig.toml` checks everything.

| part | files | what is proved |
|---|---|---|
| Subscriptions | `Plans`, `Orders`, `Billing`, `BillingService`, `BillingRuns`, `BillingCallbacks`, `BillingInterleaved`, `BillingOrderly`, `BillingBreaks`, `BillingMeaning`, `BillingAdmin`, `AdminStats` | order ids, what every run of user, LiqPay and admin requests keeps, what each status says about the receipts behind it, the closed form of callback sequences, isolation when requests interleave call by call, what orderly interleavings keep and exactly which steps break it, the statistics |
| Retention and sessions | `Retention`, `Sessions`, `SessionRuns` | which rows a run of sweeps and plan changes deletes; exactly when a refresh token is good, and rotation |
| Monobank import | `Amounts`, `Ledger`, `Monobank`, `MonobankRuns`, `MonobankRows` | what a row says; amounts survive their text; any mix of webhooks and syncs meets in one table; money is conserved |
| Money analytics | `Calendar`, `Money`, `Score`, `ScoreProperties`, `ScoreFigures`, `Runway`, `RunwayFigures`, `Pace`, `PaceFigures`, `Subscriptions`, `SubscriptionRules` | independence from the base currency, what each figure says, exact detection of subscriptions, calendar and score bounds |
| CSV reports | `Csv`, `CsvRoundTrip`, `AmountInput`, `ReportFields`, `ReportDates`, `Reports`, `ReportsRuns`, `ReportsRows`, `ReportsRoundTrip`, `ReportsReexport` | what import after export restores, and exactly when; which texts are which day; what each data row becomes; counting; categories are made once |
| Shared | `Wrappers`, `Text`, `Sequences`, `Time`, `Kinds` | digits, splitting, trimming, sums and sorting |

How to read the model:

- A database table is a map or a sequence. A request is a function from the tables to the new tables (`Apply`,
  `Import`, `ImportRow`, ...), and a class (`Service`, `Job`) holds the tables as fields with one method for each
  operation of the source, proved to have exactly that effect. Whole runs are folds of these functions.
- Clocks, new ids, random tokens and the outcome of every database or network call are parameters
  (`Faults`, `Step`, `Calls`), so the run theorems hold for every pattern of failures.
- Instants are integers (nanoseconds since 1970), in a zone with a fixed offset and the proleptic Gregorian
  calendar. Integers are unbounded except Monobank's `int64` amounts, whose negation wraps.
- The advisor's float64 values are `real`. `AmountInput` is the exception: there float64 is an arbitrary rounding
  function whose relative error is at most 2^-53.
- Text is a sequence of characters. Lower and upper case are arbitrary character maps; where it matters they are
  assumed to leave lower-case Latin letters alone.

Where the code and its comments disagree, the model follows the code:

- `HandleCallback`'s comment (internal/service/billing/billing.go:160-163) says a replayed callback is dropped.
  `BillingCallbacks.DroppedIff` says exactly when one is: a callback for the current order id is never dropped for
  being a replay, it leaves the row as it is and adds another receipt (`RedeliveryKeepsRows`). What is dropped, from
  then on, is a superseded order id (`SupersededForGood`).
- `StartTrial`'s comment (internal/service/billing/billing.go:78-81) says a trial happens once.
  `BillingRuns.TrialTwice` is a run with two. `BillingRuns.LaterCheckoutIff` says exactly when a later checkout goes
  through (an admin has put the user back on Free since, and nothing has given the row a status after that), and
  `CheckoutsBounded` counts them.
- The admin cancel's comment (internal/service/admin/admin.go:94-98) says it always downgrades.
  `BillingCallbacks.AdminCancelDowngradesIff` gives the condition, and `AdminCancelCanKeepPlan` a run after which it
  leaves the plan.
- Requests of one user that overlap, call by call, can break what atomic requests keep:
  `BillingInterleaved.StaleReadBreaksStatus` and `StaleReadLosesReceipt` are such schedules. `BillingBreaks` says
  exactly when: status and plan agree throughout a schedule if and only if no checkout's write meets a paid row
  (`AlwaysGoodIff`), and every paid row has its receipt throughout if and only if no write leaves a paid plan under
  an order id for which no receipt grants it (`AlwaysBackedIff`). That requests of one user do not overlap is
  sufficient (`BillingOrderly.OrderlyGood`, `OrderlyBacked`), not necessary. Order ids stay isolated under every
  schedule (`ScheduleIsolated`).
- A category listing that fails during a Monobank import is not an error: the row is stored without its category
  (`MonobankRuns.FailedListingLosesCategory`), for good (`CategoryLostForGood`).
- The reports package promises that export and import round-trip cleanly (internal/service/reports/reports.go:3-5).
  Export prints a date in the server's zone and import reads it in UTC, so the day survives exactly where the zone is
  UTC or east of it (`ReportsRoundTrip.ImportUndoesExport`, `DayRestoredIff`); to the west it comes back a day early
  (`ReportsReexport.WestOfUtcDayLost`). A negative amount loses its sign and `\r\n` in a note becomes `\n`
  (`UnchangedIff`).
- `displayNote`'s comment (internal/service/advisor/insights.go:123-124) says it restores title case. It upper-cases
  one byte, so a note that starts with a letter outside ASCII comes out as bytes that are not text
  (`Subscriptions.DescriptionsReadableIff`).
- The subscription detector averages gaps, so only the first and last charge count
  (`Subscriptions.UnevenGapsAccepted`).

## Model

| member | source | states |
|---|---|---|
| Orders.OrderIdRoundTrip | internal/service/billing/billing.go:61-76 | a printed order id parses back to its flow and plan, and a checkout's id names its user |
| Orders.OrderIdInjective | internal/service/billing/billing.go:66-68 | equal order ids were printed from the same flow, plan, user and second |
| Orders.NamesOneUser | internal/service/billing/billing.go:66-76 | an order id names at most one user |
| BillingService.Service.StartTrial | internal/service/billing/billing.go:82-113 | the tables and the error result after StartTrial, for every outcome of its calls |
| BillingService.Service.Subscribe | internal/service/billing/billing.go:119-158 | the same for Subscribe; a plan without a price is refused before anything is read |
| BillingService.Service.HandleCallback | internal/service/billing/billing.go:164-222 | the same for a LiqPay delivery: receipt first, then the row, according to status and flow |
| BillingService.Service.Cancel | internal/service/billing/billing.go:235-253 | the same for the user's cancel |
| BillingService.Service.SetPlan | internal/service/admin/admin.go:63-74 | the same for the admin's plan grant |
| BillingService.Service.ExtendTrial | internal/service/admin/admin.go:78-92 | the same for a trial extension, which starts at the later of now and the old end |
| BillingService.Service.CancelSubscription | internal/service/admin/admin.go:99-110 | the same for the admin's cancel, which swallows the LiqPay error |
| BillingService.Store.BeginCheckout | internal/db/queries/users.sql:64-71 | order id, pending status and trial end are written to this row alone |
| BillingService.Store.UpdateSubscription | internal/db/queries/users.sql:73-76 | plan, status and trial end are written to this row alone, its order id kept |
| BillingRuns.ReachableGood | internal/service/billing/billing.go:82-253 | in every reachable state each order id is empty or names its own user, and each status agrees with its plan |
| BillingRuns.OrderIdsDistinct | internal/db/queries/users.sql:21-27 | no two users of a reachable state share a non-empty order id |
| BillingRuns.AccessIsBacked | internal/service/billing/billing.go:186-221 | in runs without admins, every plan other than Free has a granting receipt for the current order |
| BillingRuns.LatestReceiptGrants | internal/service/billing/billing.go:186-221 | when no row update fails, the user's latest recognised receipt is such a one |
| BillingRuns.SuccessfulCheckoutWrites | internal/service/billing/billing.go:82-158 | a checkout that returns its page has written a pending row whose order id names the user |
| BillingRuns.CheckoutReturnsIff | internal/service/billing/billing.go:82-158 | a checkout returns its page exactly when it has written its row and the reply goes out |
| BillingRuns.CheckoutsBounded | internal/service/billing/billing.go:82-138 | a user's checkouts number at most one more than the admin's resets to Free |
| BillingRuns.StatusEmptyIff | internal/service/billing/billing.go:82-253 | once a row has an order id, only an admin's reset empties its status, and exactly the listed requests fill it |
| BillingRuns.LaterCheckoutIff | internal/service/billing/billing.go:78-138 | after a first checkout, another one reaches the row exactly when an admin has reset it since and nothing has filled it after |
| BillingRuns.TrialTwice | internal/service/billing/billing.go:78-113 | a run in which one user starts two trials |
| BillingMeaning.StatusExplained | internal/service/billing/billing.go:82-253 | in every run without admins each row's status says what happened: no status, never ordered; pending, ordered; trialing, a trial with a `subscribed` receipt, ending seven days after its start; active, bought and paid for or subscribed, or a trial paid for; canceled, on Free |
| BillingMeaning.ActiveIsPaid | internal/service/billing/billing.go:202-220 | an active row has a `success` receipt, or a `subscribed` one for a direct order; a trialing row has a trial's order id and a `subscribed` receipt; only pending and trialing trials have an end |
| BillingMeaning.StatusFollowsReceipts | internal/service/billing/billing.go:202-253 | when no row update fails, a row's status is the one its user's latest recognised receipt tells, unless the user has canceled |
| BillingAdmin.ExtensionMoves | internal/service/admin/admin.go:78-92 | an extension moves the trial end by exactly its days, from the later of now and the old end |
| BillingAdmin.ExtensionsAdd | internal/service/admin/admin.go:86-91 | extending by a and then by b at one time is extending by a + b |
| BillingAdmin.GrantWrites | internal/service/admin/admin.go:63-74 | a grant writes its plan, manual unless Free, ends a trial and keeps the order id |
| BillingAdmin.CancelWithoutOrder | internal/service/admin/admin.go:99-110 | after an admin's cancel a user without an order is as new and may check out |
| BillingCallbacks.DeliveriesClosedForm | internal/service/billing/billing.go:164-222 | the row, the receipts and all other rows after any sequence of deliveries for the current order, whichever of their calls fail, in closed form: `success` activates, `subscribed` activates a direct order and starts a trial otherwise, any other status the code acts on frees |
| BillingCallbacks.LastDeliveryDecides | internal/service/billing/billing.go:202-220 | plan and status depend on the last recognised delivery that reached the row alone |
| BillingCallbacks.TrialEndSurvives | internal/service/billing/billing.go:202-220 | the trial end survives exactly while every recognised delivery that reached the row was `subscribed` |
| BillingCallbacks.RedeliveryKeepsRows | internal/service/billing/billing.go:160-222 | a redelivery leaves every row as it was and adds exactly one receipt, unless its own lookup or receipt fails |
| BillingCallbacks.SupersededDeliveryDropped | internal/service/billing/billing.go:177-180 | a delivery for an order id no row carries changes nothing and fails |
| BillingCallbacks.SupersededForGood | internal/service/billing/billing.go:160-180 | once a checkout has replaced an order id, every delivery for it is dropped until some checkout prints it again |
| BillingCallbacks.DroppedIff | internal/service/billing/billing.go:164-200 | exactly when a delivery leaves the tables alone |
| BillingCallbacks.DeliverySucceedsIff | internal/service/billing/billing.go:164-222 | a delivery returns without error exactly when all it had to do was done |
| BillingCallbacks.AdminCancelDowngradesIff | internal/service/admin/admin.go:94-110 | exactly when the admin's cancel frees a paid row |
| BillingCallbacks.AdminCancelCanKeepPlan | internal/service/admin/admin.go:94-110 | a user who bought Max keeps it through an admin cancel that reports no error |
| BillingInterleaved.ScheduleIsolated | internal/service/billing/billing.go:66-222 | with requests split at every database call, every stored and pending order id still names its own user |
| BillingInterleaved.CallbackIsolation | internal/service/billing/billing.go:164-222 | in every such schedule, no step of a callback changes a row its order id does not name |
| BillingInterleaved.InterleavedOrderIdsDistinct | internal/db/queries/users.sql:21-27 | in every such schedule, non-empty order ids are unique |
| BillingInterleaved.UninterruptedCallback | internal/service/billing/billing.go:164-222 | the call-by-call form of HandleCallback, run alone, is the whole request |
| BillingInterleaved.UninterruptedCheckout | internal/service/billing/billing.go:82-158 | the same for a checkout |
| BillingInterleaved.UninterruptedCancel | internal/service/billing/billing.go:235-253 | the same for the user's cancel |
| BillingInterleaved.UninterruptedSetPlan | internal/service/admin/admin.go:63-74 | the same for the admin's plan grant |
| BillingInterleaved.UninterruptedExtend | internal/service/admin/admin.go:78-92 | the same for the trial extension |
| BillingInterleaved.UninterruptedAdminCancel | internal/service/admin/admin.go:99-110 | the same for the admin's cancel |
| BillingOrderly.OrderlyGood | internal/service/billing/billing.go:82-253 | in every schedule of single calls in which one user's requests do not overlap, order ids name their users and status agrees with plan |
| BillingOrderly.OrderlyBacked | internal/service/billing/billing.go:186-221 | in such schedules without admin requests, every plan other than Free has a granting receipt for the current order |
| BillingBreaks.CheckoutAgreesIff | internal/service/billing/billing.go:82-158 | a checkout's write keeps status and plan in agreement exactly if the row it meets is still on Free |
| BillingBreaks.AlwaysGoodIff | internal/service/billing/billing.go:82-253 | in any schedule of single calls, status and plan agree throughout exactly if no checkout's write meets a paid row |
| BillingBreaks.UpdateBackedIff | internal/service/billing/billing.go:186-221 | a plan write keeps every paid row backed exactly if it writes Free or a receipt grants the plan under the row's current order id |
| BillingBreaks.CallBackedIff | internal/service/billing/billing.go:186-221 | a callback whose row still carries its order id always does; any other write does exactly if a receipt grants the plan under the order id it leaves |
| BillingBreaks.AlwaysBackedIff | internal/service/billing/billing.go:82-253 | in any schedule, with or without admins, every paid row has its receipt throughout exactly if no write loses one |
| BillingBreaks.OrderlyNeverBreaks | internal/service/billing/billing.go:82-253 | where one user's requests do not overlap, no write breaks the agreement, and without admins none loses a receipt |
| BillingInterleaved.StaleReadLosesReceipt | internal/service/billing/billing.go:82-222 | a schedule without admins that grants a plan with no receipt for the current order |
| BillingInterleaved.StaleReadBreaksStatus | internal/service/billing/billing.go:82-113 | a schedule that leaves a pending row on a paid plan |
| AdminStats.ComputeStats | internal/service/admin/admin.go:135-166 | every figure of Stats as a sum over the users themselves, the revenue at billing's prices |
| AdminStats.GroupsSumRows | internal/db/queries/users.sql:90-93 | summing over the GROUP BY rows is summing over the users, whatever the weight |
| AdminStats.ReachableStats | internal/service/admin/admin.go:135-166 | in every reachable state the total is the number of users and the sum of the four plans |
| AdminStats.ActiveUsersPay | internal/service/admin/admin.go:153-160 | every active user of a reachable state contributes a real price |
| Retention.Job.DeleteExpiredForPlan | internal/repository/transaction.go:198-203 | exactly the expired rows of the plan's users go, and their number is returned |
| Retention.Job.SweepOnce | internal/retention/retention.go:45-61 | the table after a sweep in which either deletion may fail |
| Retention.DeletedExactly | internal/db/queries/transactions.sql:52-57 | a row survives the statement exactly when it is not older than the cutoff or its owner is on another plan |
| Retention.SurvivesIff | internal/retention/retention.go:45-61 | over any run of sweeps and plan changes, a row survives exactly when no sweep met it expired |
| Retention.SweptExactly | internal/retention/retention.go:45-61 | one sweep deletes exactly the rows of Free users older than 30 days and those of Pro users older than 365 |
| Retention.ProRowsSurvive | internal/plan/plan.go:23-35 | a row of a user who stays on Pro, within 365 days of every sweep of Pro, survives |
| Retention.FreeRowsGo | internal/plan/plan.go:23-35 | a row of a user who stays on Free goes with the first statement whose 30 days it has passed |
| Retention.RecentRowsSurvive | internal/plan/plan.go:23-35 | rows dated within 30 days of every sweep survive, whatever the plan changes |
| Retention.UnlimitedPlansKeepEverything | internal/plan/plan.go:23-35 | rows of a user who stays on Max or Enterprise survive every run |
| Retention.SweepEnforcesWindows | internal/retention/retention.go:45-61 | right after a sweep every Free row is within 30 days and every Pro row within 365, and sweeping again deletes nothing |
| Sessions.Service.Issue | internal/service/session/session.go:43-58 | the sessions table after a login |
| Sessions.Service.Refresh | internal/service/session/session.go:63-83 | the table after a refresh: the old session revoked before the new one is issued, also when issuing fails |
| Sessions.Service.Revoke | internal/service/session/session.go:89-91 | the table after a logout |
| Sessions.Service.RevokeForUser | internal/service/session/session.go:132-141 | only an active session of this user is revoked |
| Sessions.Service.ListActive | internal/service/session/session.go:107-127 | the listed sessions, newest first, and which is the caller's |
| Sessions.ActiveIdsExactly | internal/db/queries/sessions.sql:17-21 | a session is listed exactly when it is this user's, not revoked and not expired |
| SessionRuns.RunExtends | internal/db/queries/sessions.sql:1-25 | over any longer run a session keeps its user, hash, agent and expiry, and stays revoked |
| SessionRuns.RefreshOnce | internal/service/session/session.go:63-83 | a refresh token gets past the checks at most once in a run |
| SessionRuns.SucceedsIff | internal/service/session/session.go:43-91 | over every run a refresh gets past the checks exactly if its calls succeed, a request handed the token out no longer than a lifetime ago, and nothing since refreshed, logged out or revoked it |
| SessionRuns.OpenIff | internal/db/queries/sessions.sql:1-25 | a token is open exactly if some request handed it out and none after it closed it |
| SessionRuns.LoggedOutForGood | internal/service/session/session.go:89-91 | after a logout has found its session, no refresh with that token gets past the checks |
| SessionRuns.RevokedForGood | internal/service/session/session.go:132-141 | nor with the token of a session its user has revoked |
| SessionRuns.RevokeOneOwn | internal/service/session/session.go:132-141 | a user's revocation changes no session of anybody else |
| SessionRuns.LoginOwns | internal/service/session/session.go:43-58 | a login appends one open session of its user and agent |
| SessionRuns.FamiliesKept | internal/service/session/session.go:63-83 | a login's sessions share user and agent, and all but the last are revoked |
| SessionRuns.OneRefreshablePerFamily | internal/service/session/session.go:63-83 | of a login's sessions at most one can be refreshed |
| SessionRuns.ListedIffRefreshable | internal/service/session/session.go:63-127 | the list shows what a refresh would accept, except at the instant of expiry |
| Amounts.AmountTextStores | internal/repository/transaction.go:116-121 | amount text is stored as exactly the cents it was printed from, if they fit the column |
| Amounts.OverflowedTextRejected | internal/monobankimport/import.go:59-64 | the text of the one int64 whose negation wraps is rejected, not stored |
| MonobankRuns.MagnitudeStores | internal/monobankimport/import.go:58-64 | for every int64 amount, the stored cents are its magnitude, or the text is rejected from 10^14 on |
| MonobankRuns.AmountExact | internal/monobankimport/import.go:54-64 | type and amount of an imported row give back exactly the signed minor units |
| Monobank.Service.CreateWithExternalID | internal/repository/transaction.go:116-140 | an insert on a taken id changes nothing and is not an error |
| Monobank.Service.FindCategory | internal/monobankimport/import.go:134-145 | the first listed category of this type whose trimmed name matches |
| Monobank.Service.Item | internal/monobankimport/import.go:53-132 | the table after one item, whether a row was created, and when it fails |
| Monobank.Service.SyncNow | internal/service/monobank/monobank.go:189-234 | the table after a sync that may fail before its loop or stop in it, with the categories listed again for each item, when it succeeds, and that `imported` is exactly the growth in rows |
| Monobank.Service.Process | internal/webhook/monobank.go:76-100 | a delivery imports for the owner of its secret, only if the account is tracked; when it succeeds and what it touches |
| MonobankRuns.RedeliveryIdempotentIff | internal/db/queries/transactions.sql:14-30 | importing twice is importing once, exactly unless the item has no id and was inserted |
| MonobankRuns.FailedListingLosesCategory | internal/monobankimport/import.go:100-145 | a failed category listing stores the row without a category, and a working one gives it one exactly when a listed category matches |
| MonobankRows.CategoryFits | internal/monobankimport/import.go:100-145 | a row's category is NULL or a listed one with the row's type and the item's name, and is not NULL exactly when there is one |
| MonobankRows.ImportedCategories | internal/monobankimport/import.go:134-145 | every row a run adds to a table has a category, if any, of its own type from a listing for its user |
| MonobankRows.RowSays | internal/monobankimport/import.go:54-127 | a row carries the item's time, note and operation amount, and the account's currency, or the item's while that is unknown |
| MonobankRows.PushedCurrency | internal/webhook/monobank.go:85-95 | a webhook's import takes the currency stored for the account it names |
| MonobankRuns.CategoryLostForGood | internal/db/queries/transactions.sql:14-30 | a row stored without its category stays the item's only row through every later attempt |
| MonobankRuns.TableAfter | internal/monobankimport/import.go:53-132 | after any attempts that agree on each item's row, the table is what it was plus each delivered row whose id was free |
| MonobankRuns.TableExactly | internal/monobankimport/import.go:53-132 | after any attempts at all, on any table, it is what it was followed by the rows of the first attempts, in order |
| MonobankRuns.Confluence | internal/service/monobank/monobank.go:189-234 | two sequences of attempts that deliver the same items end with the same rows |
| MonobankRuns.RetriedSync | internal/service/monobank/monobank.go:220-228 | a sync stopped by an error and then repeated, each with its own category listing for each item, leaves what one clean sync leaves when they find the same categories |
| MonobankRuns.WebhookAgreesWithSync | internal/webhook/monobank.go:85-95 | both paths make the same import for an item of the first tracked account |
| MonobankRuns.RunImportsFirsts | internal/db/queries/transactions.sql:14-30 | any run, on any table, is importing once each of its attempts that were the first to get through |
| MonobankRuns.FirstsExactly | internal/db/queries/transactions.sql:14-30 | an attempt is among those exactly when it gets through, its id was free, and no earlier attempt at the same item got through |
| MonobankRuns.ItemAmongFirsts | internal/db/queries/transactions.sql:14-30 | an item is among those exactly when its id was free and some attempt at it got through |
| MonobankRuns.FirstsOnceEach | internal/db/queries/transactions.sql:14-30 | they are attempts of the run that insert, no two at the same item |
| MonobankRuns.MoneyConserved | internal/monobankimport/import.go:54-64 | over any run, on any table, income minus expense grows by exactly the sum of their amounts, and the table by their number |
| MonobankRuns.EventsConverge | internal/service/monobank/monobank.go:189-234 | any interleaving of whole webhooks and syncs ends with the earliest attempt to get through for each item imported once, and conserves money |
| MonobankRuns.EventsConfluent | internal/service/monobank/monobank.go:189-234 | two such runs that deliver the same items, each item with one row, end with the same rows |
| Money.ConvertAdditive | internal/service/advisor/advisor.go:363-372 | conversion is additive, known rates or not |
| Money.ConvertComposes | internal/service/advisor/advisor.go:363-372 | converting in two hops is converting at once |
| Money.ConvertBack | internal/service/advisor/advisor.go:363-372 | converting there and back is converting nothing, for known and unknown rates alike |
| Money.WorthOf | internal/service/advisor/advisor.go:164-165 | an amount that does not parse is worth nothing, and one in the base currency itself |
| Money.LastRateWins | internal/service/advisor/advisor.go:151-155 | the last listed rate of a currency counts, and the hryvnia is 1 without one |
| Money.ConvertRebase | internal/service/advisor/advisor.go:363-372 | changing the base multiplies every converted amount by one factor |
| Score.FinancialScore | internal/service/advisor/advisor.go:139-204 | the breakdown is the score of the transactions, given as sums, a maximum and a set of days |
| ScoreProperties.ScoreUnique | internal/service/advisor/advisor.go:182-190 | that determines the breakdown: map order does not matter |
| ScoreProperties.BaseIndependent | internal/service/advisor/advisor.go:139-204 | with known rates, every field of the score is the same in every base currency |
| ScoreProperties.OrderIndependent | internal/service/advisor/advisor.go:157-174 | reordering the transactions does not change the score |
| ScoreProperties.InternalTransferIgnored | internal/service/advisor/advisor.go:161-163 | adding an internal transfer does not change the score |
| ScoreProperties.ScoresInRange | internal/service/advisor/advisor.go:176-214 | the three scores and the 40/30/30 total lie in 0..100 |
| ScoreFigures.SavingsRamp | internal/service/advisor/advisor.go:175-179 | the savings score is 0 without savings, 100 from a fifth of the income on, and within one half of the straight line between |
| ScoreFigures.BalanceRamp | internal/service/advisor/advisor.go:181-189 | the balance score is 100 up to a quarter in one category, 0 from three quarters on, and within one half of the straight line between |
| ScoreFigures.ConsistencyRamp | internal/service/advisor/advisor.go:191 | each active day counts five, up to 100 |
| ScoreFigures.ScoresMonotone | internal/service/advisor/advisor.go:176-214 | more savings, less concentration and more active days never lower their scores |
| ScoreFigures.TotalWeighs | internal/service/advisor/advisor.go:193 | the total is 40/30/30 of the three scores, rounded to the nearest |
| ScoreFigures.RateIsSavedShare | internal/service/advisor/advisor.go:175-178 | the rate times the income is the income less the expense, and 0 without income |
| ScoreFigures.OneMore | internal/service/advisor/advisor.go:157-174 | one more transaction counts as income, or as expense in its category, by its type |
| ScoreFigures.OneCategoryScores42 | internal/service/advisor/advisor.go:139-207 | one income of 1000 and one expense of 100 on one day score 100, 0 and 5, in total 42 |
| ScoreProperties.ExpenseIsCategorySum | internal/service/advisor/advisor.go:168-173 | the expense is the sum of the per-category totals |
| ScoreProperties.TopShareRange | internal/service/advisor/advisor.go:182-189 | with k spending categories and some expense the top share lies in [1/k, 1] |
| ScoreProperties.NonNegativeInBase | internal/service/advisor/advisor.go:164-165 | non-negative amounts and rates stay non-negative in every base |
| ScoreProperties.AtMost31ActiveDays | internal/service/advisor/advisor.go:139-166 | the 30-day window touches at most 31 calendar days |
| Calendar.EpochDay | internal/service/advisor/insights.go:187 | the Unix epoch is 1 January 1970 in UTC |
| Calendar.NextMonth | internal/service/advisor/insights.go:215-218 | months follow each other without gap or overlap, across year ends and leap years |
| Calendar.MonthUnique | internal/service/advisor/insights.go:215-218 | every day lies in exactly one month |
| Calendar.PaydayWithin31Days | internal/service/advisor/insights.go:207-220 | now < payday <= now + 31 days, through month overflow, December and leap years |
| Calendar.PaydayIsTypicalDay | internal/service/advisor/insights.go:213-219 | the estimate is this month's or next month's typical day |
| Runway.ComputeRunway | internal/service/advisor/insights.go:150-236 | the forecast as sums over the transactions, for a category with the largest positive income |
| Runway.TypicalDayBetween | internal/service/advisor/insights.go:208-213 | the typical day lies between the smallest and the largest day seen |
| Runway.ForecastPaydaySoon | internal/service/advisor/insights.go:207-220 | whatever the history, an estimated payday is after now and within 31 days |
| RunwayFigures.OneMoreCounts | internal/service/advisor/insights.go:180-200 | one more transaction moves balance and burn as its type, date and readability say |
| RunwayFigures.OneMoreIncome | internal/service/advisor/insights.go:180-195 | only income that counts adds to what its category has brought in |
| RunwayFigures.ZeroDateIff | internal/service/advisor/insights.go:228-231 | there is a zero date exactly when something is being spent: now plus exactly the whole days the balance covers |
| RunwayFigures.MakesItIff | internal/service/advisor/insights.go:222-235 | the verdict is negative exactly when something is being spent, a payday is expected and the days covered end before it |
| RunwayFigures.PaydayExpectedIff | internal/service/advisor/insights.go:207-220 | a payday is expected exactly when the leading category has brought in money twice, on the mean of those days |
| Runway.BaseIndependent | internal/service/advisor/insights.go:150-236 | with known rates and one leading income category, payday, zero date and verdict are the same in every base, and the money fields scale by one factor |
| Pace.BudgetPace | internal/service/advisor/insights.go:256-323 | exactly the categories with a non-zero history are listed, once each, with their figures, most over pace first |
| Pace.LastDay | internal/service/advisor/insights.go:301 | day 0 of the next month is the last day of this one |
| Pace.NowInMonth | internal/service/advisor/insights.go:257-258 | now lies between the start of this month and the start of the next |
| PaceFigures.StartIsFirst | internal/service/advisor/insights.go:257-258 | the month starts at midnight of its first day |
| PaceFigures.ProgressMeans | internal/service/advisor/insights.go:301-302 | the elapsed share is the day of the month over the length of the month |
| PaceFigures.RatioMeans | internal/service/advisor/insights.go:304-320 | three typical months are the history, and the ratio is 1 exactly when the spending is the elapsed share of a typical month |
| PaceFigures.RatioGrows | internal/service/advisor/insights.go:310-312 | of two lines for one typical month the one with more spending has the larger ratio |
| PaceFigures.OneMoreExpense | internal/service/advisor/insights.go:284-299 | one more expense counts as history before this month and as spending in it, in its own category |
| Pace.BaseIndependent | internal/service/advisor/insights.go:256-323 | with known rates, the same categories with the same ratios in every base, money fields scaled by one factor |
| Subscriptions.DetectSubscriptions | internal/service/advisor/insights.go:42-121 | exactly the note groups that meet the count, interval and variance rules are reported, once each, dearest first, with their figures and description |
| Subscriptions.Examine | internal/service/advisor/insights.go:71-117 | one group is reported exactly when it is regular, with its description, average, latest charge and interval |
| Subscriptions.SumGaps | internal/service/advisor/insights.go:77-81 | the sum of the gaps telescopes to last minus first |
| Subscriptions.GroupByNote | internal/service/advisor/insights.go:54-68 | each key's entries, in order, and no empty group |
| Subscriptions.GroupsPartition | internal/service/advisor/insights.go:54-68 | the groups together are the eligible expenses, each counted once |
| Subscriptions.AtMostTenCharges | internal/service/advisor/insights.go:28-44 | a subscription has at most 10 charges, for the 180-day window and two clock readings |
| Subscriptions.StableAmounts | internal/service/advisor/insights.go:86-106 | with positive amounts the dearest charge is at most 1.5 times the cheapest |
| SubscriptionRules.RegularIff | internal/service/advisor/insights.go:70-107 | a group is regular exactly with three charges, 20 to 40 days for each gap, and no charge more than a fifth off a non-zero average |
| SubscriptionRules.ReportedSpan | internal/service/advisor/insights.go:70-84 | a reported subscription's charges lie within 40 days for each gap before the last one, and reach back at least 20 |
| SubscriptionRules.EvenReportedIff | internal/service/advisor/insights.go:70-107 | equal charges at an even gap are reported exactly if there are three and the gap is 20 to 40 days |
| SubscriptionRules.ExpenseJoins | internal/service/advisor/insights.go:54-68 | an expense with a note and an amount joins the group of its trimmed, lower-cased note and no other |
| Subscriptions.DescriptionsReadableIff | internal/service/advisor/insights.go:123-130 | a description is text exactly if the note starts with an ASCII character, and then no two subscriptions share it |
| Subscriptions.UnevenGapsAccepted | internal/service/advisor/insights.go:77-84 | three charges, two on one day, that pass for a monthly subscription |
| CsvRoundTrip.ReadsBack | internal/service/reports/reports.go:48-69 | any records whose lines are not empty read back, with `\r\n` inside fields turned into `\n` |
| CsvRoundTrip.ReadsBackUnchangedIff | internal/service/reports/reports.go:48-92 | a written file reads back unchanged exactly when no field contains `\r\n` |
| CsvRoundTrip.SpaceBeforeField | internal/service/reports/reports.go:88-90 | a space before a field, quoted or not, is dropped |
| AmountInput.CentsSurvive | internal/service/reports/reports.go:237-244 | for amounts below 10^12 the float64 error stays below 0.005, so two decimals are exact |
| AmountInput.ShortDecimalExact | internal/service/reports/reports.go:227-245 | up to 12 integer and 2 fraction digits the result is the exact magnitude; a negative zero keeps its sign |
| AmountInput.SpellingIgnored | internal/service/reports/reports.go:228-236 | spaces, no-break spaces, a leading plus and a comma for the dot do not change the amount |
| AmountInput.ThousandsIgnored | internal/service/reports/reports.go:231-235 | any number of commas before a dot are thousands separators |
| AmountInput.WholeAmount | internal/service/reports/reports.go:227-245 | digits without a decimal mark are whole units |
| AmountInput.NormalizeIdempotent | internal/service/reports/reports.go:227-245 | normalising twice is normalising once, for every plain decimal whose result is below 10^12 |
| ReportFields.DateReadsBackIff | internal/service/reports/reports.go:207-222 | an exported date reads back as the same day exactly in the years 0 to 9999 |
| ReportFields.EpochText | internal/service/reports/reports.go:55 | the Unix epoch prints as 1970-01-01 |
| ReportFields.LayoutsExclusive | internal/service/reports/reports.go:207-212 | no text fits two of the four layouts |
| ReportDates.ParseDateIff | internal/service/reports/reports.go:207-222 | a text is read as a day exactly if, trimmed, it is yyyy-mm-dd, dd.mm.yyyy, yyyy/mm/dd or dd/mm/yyyy of that day, in the years 0 to 9999 |
| ReportDates.BadDateIff | internal/service/reports/reports.go:207-222 | it is a bad date exactly if it spells no day |
| ReportFields.KindReadsBack | internal/service/reports/reports.go:196-205 | an exported type reads back |
| ReportsRows.TypeWords | internal/service/reports/reports.go:196-205 | exactly the nine English and Ukrainian words are types, each of its own |
| ReportsRows.BlankIff | internal/service/reports/reports.go:124-127 | a row is passed over exactly if its fields hold nothing but spaces |
| ReportsRows.DatedRowIsData | internal/service/reports/reports.go:187-190 | a row that starts with a date is never taken for the header |
| ReportFields.KeyIdentifies | internal/service/reports/reports.go:192-194 | cache keys are equal exactly when type and trimmed, folded name are |
| Reports.Export | internal/service/reports/reports.go:34-70 | the exported text is the header and one record for each transaction, in order |
| Reports.Service.BuildCache | internal/service/reports/reports.go:109-112 | the cache maps each listed key to the last category with it |
| Reports.Service.CreateTransaction | internal/service/transaction/transaction.go:36-63 | a row is added exactly when the category is visible, the amount fits and the calls succeed |
| Reports.Service.ImportOne | internal/service/reports/reports.go:122-175 | the effect of one row on categories, cache, rows and counters |
| Reports.Service.Import | internal/service/reports/reports.go:87-178 | the effect of a whole file; nothing changes when it does not parse, is empty or the listing fails |
| ReportsRuns.ImportAccounting | internal/service/reports/reports.go:114-177 | imported plus skipped is the number of non-blank data rows, and the error list has min(skipped, 20) entries |
| ReportsRows.StoredRows | internal/service/reports/reports.go:122-175 | every row an import stores is what one of its data rows asks for, column by column, for this user and in nobody else's category |
| ReportsRows.ErrorsNameRows | internal/service/reports/reports.go:114-174 | the reported errors name data rows, in order, each once, with the first column that does not read |
| ReportsRuns.OneCategoryPerKey | internal/service/reports/reports.go:151-165 | an import makes at most one category per type and folded name, and none that was listed |
| ReportsRuns.SecondImportMakesNone | internal/service/reports/reports.go:151-165 | importing the file again, after every creation succeeded, makes no category |
| ReportsRoundTrip.ImportUndoesExport | internal/service/reports/reports.go:34-178 | importing an exported file imports every transaction, in order, and skips none; each lies on its exported day exactly where the zone is UTC or east of it |
| ReportsRoundTrip.DayRestoredIff | internal/service/reports/reports.go:55-222 | a restored row lies on the exported day exactly in zones from UTC eastwards, and on the day before exactly in those up to a day west |
| ReportsRoundTrip.UnchangedIff | internal/service/reports/reports.go:53-64 | of a restored row, the instant is unchanged exactly for midnight UTC in zones from UTC eastwards, the amount exactly if not negative, and the note exactly if it has no `\r\n` |
| ReportsRoundTrip.CategoryRestored | internal/service/reports/reports.go:148-165 | a restored row's category has the exported type and, up to case and trimming, name |
| ReportsReexport.ReexportedIff | internal/service/reports/reports.go:48-69 | a restored row is exported with the first file's type and currency always, and with its date, amount and note exactly under those conditions |
| ReportsReexport.ReexportUndoesImportIff | internal/service/reports/reports.go:3-178 | exporting the imported rows gives the first file's records, in order, but for the spelling of the category, for exactly the transactions that meet all three |
| ReportsReexport.CategoryReexported | internal/service/reports/reports.go:43-64 | the second file's category is the first one's up to case and surrounding space |
| ReportsReexport.WestOfUtcDayLost | internal/service/reports/reports.go:55-222 | five hours west of UTC a transaction of 1 January 1970 comes back as one of 31 December 1969 |

## Left out

- HTTP, gRPC, JSON, cookies, configuration, logging, generated code, the iOS path: plumbing.
- JWT, token hashing, AES, LiqPay signatures: a verified callback is an arbitrary one, a token hash an arbitrary string whose uniqueness the table's index enforces.
- LLM chat, insights, the summary text, rate sync, translation of category names: prompt text and network calls.
- The MCC table is a parameter.
- Zones with daylight saving, leap seconds, and the microsecond truncation of stored timestamps.
- Floating-point rounding in the advisor, and float64 texts that are not plain decimals (exponents, hexadecimal, inf, nan), whose whole outcome is a parameter of `AmountInput`.
- Concurrent refreshes: `Refresh` checks and revokes in two calls, so the rotation results are for serialised requests.
- Session ids are positions in the table, and creation order is its order.
- Invalid UTF-8 and control characters the database refuses in text columns.
- Error message texts: the model keeps the row number and the reason.
- The order in which a category listing comes back is arbitrary; the export's query (date range, order) is its input list.
- `Receipts`, `ListUsers`, `GetUser`, `SignupsByDay`, Monobank connect and status, transaction edits: reads and single-row writes that would only add easy members.
- Runway.BaseIndependent: assumes one category leads the income, because with a tie map order decides.
- BillingInterleaved.ScheduleIsolated: splits the checkouts, callbacks, cancel and admin writes; a statement itself is atomic.
- MonobankRuns.EventsConfluent: assumes non-empty item ids and that the attempts that get through at one item would store the same row, as the row keeps what its first delivery saw. `MonobankRuns.TableExactly` and `FirstsExactly` say what is stored without that.
- Subscriptions.GroupsPartition: `strings.ToLower` is a map on single characters, so foldings that change the length are not covered.
