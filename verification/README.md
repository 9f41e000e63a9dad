# Verified model of a restaurant back office

The repository is the back office of a restaurant group: a browser client and a server that
ingest documents and mail, pull labour and sales figures, and report cost of goods and sales
tax. This project models the parts that hold state over time or move money, and proves what
they keep. Each module is one component.

- `TokenChain`, `ApiClient`, `Session`: the session protocol. The server rotates refresh
  tokens, one transaction per call; the browser tab lets concurrent 401s share one refresh and
  re-sends each request once. `Session` interleaves a tab, its requests, the network and the
  server in every possible way, and all other server traffic with them.
- `Money`, `CogsAmounts`, `CogsChain`, `CogsReport`, `CogsSheet`: weekly cost of goods. Each
  count opens at the ending of the count before it, collects the invoices dated in between and
  splits money over six categories with rounding half away from zero.
- `BusinessDate`, `NetSales`: dates stored as YYYYMMDD text, filtered as text.
- `PushClient`, `PushSync`, `Sums`, `LabourReports`: the labour API client (rate limiter, date
  windows, retries), the table it is upserted into and the reports over that table.
- `ContentMatch`, `Documents`: checksum and content duplicates, and what deletion leaves.
- `MailSync`: mailbox runs with a cursor, as their worker leaves them when they finish, raise or die.
- `HstRecovery`: copying sales tax from invoices to bank expenses, and the monthly tax report.
- `UploadGate`, `Instream`: the two upload gates and the stream sent to the virus scanner.
- `Wrappers`, `Sequences`: options, results and lists without repetition.
- `Payroll`: the payroll summary read from CSV and from a screenshot.

Components that update rows or fields in place are classes here (`UserRepository`,
`AuthService`, `AuthStore`, `Tab`, `RateLimiter`, `LabourSync`, `DocumentRepository`,
`EmailSync`, `ExpenseRepository`); each method is proved equal to a transition function on
values, and the properties over whole runs are proved about those functions. Loops are loops.
Money is exact `real`; where the source rounds, the model rounds. Instants are microseconds and
dates are day numbers, except in `BusinessDate`, which builds the calendar. Hashes are opaque
injective values. A database transaction is one step. In a request a raised error rolls it back
(`backend/app/db/session.py:44-51`); the mail workers commit instead
(`backend/app/workers/tasks/email_sync.py:122-129`).

## Where the code and its documentation differ

The model follows the code.

- `backend/app/services/inventory/cogs_service.py:100-101` promises seven days for a count
  without a predecessor; the window has eight (`CogsChain.WindowLength`).
- `backend/app/db/models/push_labor.py:14-16` describes a re-sync as correcting its range in place.
  It updates and adds rows and never deletes one, and one row that repeats a key or does not fit its
  columns fails the whole sync. A successful sync corrects its range if and only if no stored row has
  disappeared from the API, a failed one changes nothing (`PushSync.ResyncCorrectsIff`; failing inputs
  are `PushSync.DeletedRowSurvives`, `PushSync.RepeatedKeyFailsTheSync` and
  `PushSync.LongTypeFailsTheSync`). A sync succeeds if and only if its range is not empty, the API's
  rows on its dates fit and share no key, and no pull or statement fails for another reason, which is a
  parameter.
- `backend/app/services/labor/push_sync_service.py:125` promises a job row for failed syncs too. All
  callers leave a failed session to be rolled back, and the job row with it
  (`PushSync.LabourSync.RunSync`).
- A mail run that raises is not rolled back: its worker commits the session to record the failed job.
  For Gmail that is harmless. For Outlook, whose row is written before the attachments are fetched, it
  leaves an unprocessed row, every later run skips the message, and the cursor moves past it
  (`MailSync.OutlookMessageIsLost`). After a finished run a listed message has a processed row if and
  only if no earlier run was stopped by its fetch (`MailSync.ListedIsProcessedIff`).
- The header of `backend/app/services/email/gmail_client.py` describes incremental sync from a cursor. A
  full scan also moves that cursor past mail that its query does not match or its limit cuts off. Such
  mail is not processed by any later run until a full scan takes it
  (`MailSync.FullScanReachesIff`, `MailSync.PassedOverForGood`), and mail that does not match the query
  is then never processed (`MailSync.UnmatchedIsNeverReached`).
- `backend/app/services/labor/pushops_vision.py:199-200` calls the two payroll routes a single
  source of truth. They yield the same costs all along if and only if they agree on each row, that is, if
  no row with a gross comes to a negative cost and each row without one has as much burden as its total
  column shows, or no cost either way (`Payroll.RoutesAgreeIff`). Failing inputs are
  `Payroll.NegativeRowShowsTheDifference` and `Payroll.TotalColumnShowsTheDifference`.
- A net food credit is dropped from the purchases per category, which then do not add up to the
  invoices (`CogsReport.InvoicePurchasesConserveIff`, `CogsReport.FoodCreditIsDropped`).
- A refresh for an inactive user revokes its token and then raises, so the revocation is rolled
  back with the transaction (`TokenChain.AuthService.Refresh`).

## Model

| member | source | states |
|---|---|---|
| TokenChain.UserRepository.CreateRefreshToken | backend/app/db/repositories/user_repo.py:37-45 | a new unrevoked row with a seven-day expiry under the token's hash, refused when the hash is taken; no other row changes |
| TokenChain.UserRepository.GetRefreshToken | backend/app/db/repositories/user_repo.py:47-59 | returns the row exactly when it exists, is unrevoked and unexpired; otherwise unauthorized |
| TokenChain.UserRepository.RevokeRefreshToken | backend/app/db/repositories/user_repo.py:61-67 | the presented token becomes revoked, an unknown one is ignored |
| TokenChain.UserRepository.RevokeAllUserTokens | backend/app/db/repositories/user_repo.py:69-74 | every token of the user is revoked and no one else's |
| TokenChain.AuthService.Login | backend/app/services/auth_service.py:27-65 | an accepted login starts a chain of its own; a refused one leaves the tables as they were |
| TokenChain.AuthService.Refresh | backend/app/services/auth_service.py:67-92 | revoke, check the user, issue: all three or none, with the failing cases told apart |
| TokenChain.AuthService.Logout | backend/app/services/auth_service.py:94-95 | revokes the presented token and nothing else |
| TokenChain.LoginIssues | backend/app/services/auth_service.py:35-65 | a login succeeds exactly for an active user's credentials and an unused secret, and adds that user's unrevoked token of seven days and nothing else |
| TokenChain.RefreshRotates | backend/app/services/auth_service.py:67-92 | a refresh succeeds exactly for a known, unrevoked, unexpired token of an active user and an unused secret; the old token is revoked, the new one is the same user's and lasts seven days, nothing else changes |
| TokenChain.RevocationsInFields | backend/app/db/repositories/user_repo.py:61-74 | logout revokes the presented token only, revoking a user's tokens all of that user's and no other |
| TokenChain.ApplyKeepsValid | backend/app/services/auth_service.py:45-95 | no call gives a chain a second unrevoked token |
| TokenChain.AtMostOneLivePerChain | backend/app/services/auth_service.py:70-86 | in every run each login's chain has at most one unrevoked token |
| TokenChain.RevocationIsPermanent | backend/app/db/repositories/user_repo.py:61-74 | no run clears a revocation, removes a row or moves it to another chain |
| TokenChain.RefreshesAtMostOnce | backend/app/services/auth_service.py:67-71 | a raw token refreshes successfully at most once in any run |
| TokenChain.RefreshMovesTheLiveToken | backend/app/services/auth_service.py:67-86 | a granted refresh kills the old token, makes the new one the chain's only live token and touches no other |
| TokenChain.ApplyKeepsDeadChain | backend/app/services/auth_service.py:67-95 | no single call revives a chain without a live token |
| TokenChain.DeadChainStaysDead | backend/app/services/auth_service.py:67-95 | a chain without a live token never gets one in any run |
| TokenChain.LogoutKillsChainIff | backend/app/services/auth_service.py:94-95 | logout ends the chain if and only if the presented token was the current one or the chain had ended |
| TokenChain.LogoutEndsTheChain | backend/app/services/auth_service.py:94-95 | after logout with the current token, no token of the chain refreshes again, whatever is called later |
| ApiClient.AuthStore.SetTokens | frontend/src/lib/auth-store.ts:36-37 | both tokens are replaced together |
| ApiClient.AuthStore.ClearTokens | frontend/src/lib/auth-store.ts:39 | both tokens are dropped |
| ApiClient.Tab.Request | frontend/src/lib/api-client.ts:12-18 | a new request goes out once, under the stored access token |
| ApiClient.Tab.OnResponse | frontend/src/lib/api-client.ts:36-58 | success and other failures settle the request; a first 401 joins the pending refresh or starts one with the stored refresh token; a second 401, or one without a refresh token, rejects |
| ApiClient.AnswerInFields | frontend/src/lib/api-client.ts:36-58 | success fulfils; a failure, a second 401 or a 401 with nothing to refresh with rejects; any other 401 waits, and the first to wait posts the stored refresh token; nothing else changes |
| ApiClient.IssueInFields | frontend/src/lib/api-client.ts:12-18 | a new request is sent once, with the stored access token or without one |
| ApiClient.Tab.Continue | frontend/src/lib/api-client.ts:48-55 | an awaiting request is re-sent under the stored token, or rejected with the store cleared |
| ApiClient.Tab.OnRefreshSettled | frontend/src/lib/api-client.ts:25-55 | running the waiting continuations one by one settles the whole queue at once |
| ApiClient.ResumeAllSettles | frontend/src/lib/api-client.ts:43-55 | resuming waiting requests in order equals one settlement of all of them, each resumed exactly once |
| Session.AnswerKeepsClientInv | frontend/src/lib/api-client.ts:36-58 | a response keeps the queue distinct, equal to the waiting requests, and every request at most twice sent |
| Session.SettleKeepsClientInv | frontend/src/lib/api-client.ts:43-55 | so does the end of a refresh |
| Session.ServeKeepsInv | backend/app/services/auth_service.py:67-92 | the server's answer to the posted refresh keeps the joint invariant of tab, network and token table |
| Session.ReplyKeepsInv | frontend/src/lib/api-client.ts:25-55 | the reply's arrival, or its loss, keeps it |
| Session.BackendKeepsInv | backend/app/services/auth_service.py:27-95 | any other server traffic keeps it |
| Session.NextKeepsInv | frontend/src/lib/api-client.ts:23-58 | every step of the protocol keeps it |
| Session.EveryRunKeepsInv | frontend/src/lib/api-client.ts:23-58 | in every interleaving: one refresh in flight at most, no refresh token posted twice, an idle tab holds the newest issued pair, no request sent more than twice, no more refreshes than first-time 401s |
| Session.PostsAreFreshAndSingle | frontend/src/lib/api-client.ts:41-47 | a refresh is posted only when none is in flight, with the newest token, never posted before, for one first-time 401 |
| Session.ReplyReleasesTheQueue | frontend/src/lib/api-client.ts:43-55 | a granted refresh re-sends every waiting request with the newest access token, a refused one rejects them all and clears the store; no other request is touched |
| Session.RequestsEndAsAnswered | frontend/src/lib/api-client.ts:36-58 | in every interleaving a request ends fulfilled if and only if a success response to it arrived, and rejected if and only if it met a failure, a second 401, a 401 with no token stored, or a refresh refused or lost while it waited |
| Session.NextLowersRemaining | frontend/src/lib/api-client.ts:36-58 | every step of the tab but a new request uses up some of a bounded amount of work |
| Session.RunsAreShort | frontend/src/lib/api-client.ts:36-58 | a run that issues N requests has at most 7 N steps of the tab |
| Session.NobodyWaitsForever | frontend/src/lib/api-client.ts:36-58 | while a request is unsettled something that concerns it can still arrive |
| Session.SparedStaysUsable | backend/app/services/auth_service.py:67-95 | traffic of other logins leaves this login's token live |
| Session.NextKeepsSignedIn | frontend/src/lib/api-client.ts:23-58 | an undisturbed step keeps the tab's next token the live one of its chain |
| Session.UndisturbedRunsStaySignedIn | frontend/src/lib/api-client.ts:20-58 | without lost replies, expiry or revocation from outside, every refresh is granted and the tab stays signed in, however many 401s come together |
| Money.QuantizeIsNearest | backend/app/services/inventory/cogs_service.py:39-40 | no cent value is nearer than the rounded one, and a tie goes away from zero |
| Money.QuantizeIsNear | backend/app/services/inventory/cogs_service.py:39-40 | rounding gives whole cents at most half a cent away |
| Money.QuantizeFixesCents | backend/app/services/inventory/cogs_service.py:39-40 | whole cents are left alone |
| CogsAmounts.SplitConserves | backend/app/services/inventory/cogs_service.py:189-194 | a split over six categories, weighted or even, adds up to the amount before rounding |
| CogsAmounts.SplitFoodConserves | backend/app/services/inventory/cogs_service.py:150-158 | so does the split over the four food categories, which gives the others nothing |
| CogsAmounts.SplitIsProportional | backend/app/services/inventory/cogs_service.py:189-194 | each of six shares stands to the amount as the category's own ending inventory to the sum, or is a sixth |
| CogsAmounts.SplitFoodIsProportional | backend/app/services/inventory/cogs_service.py:150-158 | the same over the four food categories, the other two get nothing |
| CogsAmounts.ManualSplitWithinThreeCents | backend/app/services/inventory/cogs_service.py:187-194 | rounding the six shares of an override moves the total by at most three cents |
| CogsAmounts.ManualSplitGainsThreeCents | backend/app/services/inventory/cogs_service.py:192-194 | three cents are reached: an override of three cents becomes six |
| CogsChain.PriorIsLatest | backend/app/services/inventory/cogs_service.py:85-96 | the prior count is a latest one of the tenant, and of the location when one is given, before the week; there is none only if no such count is earlier |
| CogsChain.WindowLength | backend/app/services/inventory/cogs_service.py:99-107 | a window is seven days if and only if the predecessor is a week older; a first count's window is eight days |
| CogsChain.InvoiceCounts | backend/app/services/inventory/cogs_service.py:118-141 | an expense joins the invoice sum exactly when it is the tenant's and location's, dated in the window, of a purchase category, from a document of the COGS upload, and has an amount |
| CogsChain.PriorIsPredecessor | backend/app/services/inventory/cogs_service.py:85-96 | in a location's date-ordered counts the prior count is the predecessor |
| CogsChain.OpeningIsPreviousEnding | backend/app/services/inventory/cogs_service.py:171-175 | each count opens at its predecessor's ending, the first at zero |
| CogsChain.DrawTelescopes | backend/app/services/inventory/cogs_service.py:173-175 | per category, opening minus ending summed over a span is the first ending minus the last |
| CogsChain.WindowStartsWhereThePreviousEnds | backend/app/services/inventory/cogs_service.py:99-107 | a window ends with its count's day and starts the microsecond after the predecessor's window ends |
| CogsChain.WindowsAreDisjoint | backend/app/services/inventory/cogs_service.py:99-107 | no instant lies in the windows of two counts, the first count's included |
| CogsChain.WindowsCover | backend/app/services/inventory/cogs_service.py:99-107 | the windows of a span cover every microsecond between its ends and nothing else |
| CogsChain.SpanInvoicesAdd | backend/app/services/inventory/cogs_service.py:110-131 | the weekly invoice totals of a span add up to the invoices of the whole span, none twice and none dropped |
| CogsChain.SpanDependsOnItsEndsOnly | backend/app/services/inventory/cogs_service.py:85-182 | inserting, deleting or replacing counts in between changes neither a span's draw-down nor its invoice total |
| CogsReport.Tally | backend/app/services/inventory/cogs_service.py:133-148 | the pass over the rows yields beverage and packaging directly, the food total, the distinct documents and the overall sum; rows without an amount count nowhere |
| CogsReport.AllocateFood | backend/app/services/inventory/cogs_service.py:150-158 | a positive food total is spread by ending inventory or evenly, on top of the direct amounts; any other is not spread |
| CogsReport.CollectInvoices | backend/app/services/inventory/cogs_service.py:110-159 | purchases per category, distinct documents and the rounded total of a window |
| CogsReport.SumsByCategory | backend/app/services/inventory/cogs_service.py:137-148 | the overall invoice sum is food plus beverage plus packaging |
| CogsReport.ExpenseCounts | backend/app/services/inventory/cogs_service.py:137-148 | a collected expense with an amount counts for its own expense category and for its own document |
| CogsReport.InvoicePurchasesConserveIff | backend/app/services/inventory/cogs_service.py:133-159 | purchases per category add up to the invoices if and only if the food invoices do not sum to a negative amount |
| CogsReport.FoodCreditIsDropped | backend/app/services/inventory/cogs_service.py:150-198 | with a food credit of one dollar and a beverage invoice of five in a first count's window, the invoices come to four dollars and the report shows five dollars of purchases from invoices |
| CogsReport.InvoicePurchasesWithinTwoCents | backend/app/services/inventory/cogs_service.py:133-198 | after rounding, cent-valued invoices are off by at most two cents in total |
| CogsReport.ChoosePurchases | backend/app/services/inventory/cogs_service.py:177-201 | an override wins over a positive invoice total, that over the sheet |
| CogsReport.AddOther | backend/app/services/inventory/cogs_service.py:203-214 | other purchases are spread on top of the base by ending inventory or evenly, unrounded |
| CogsReport.CollectFigures | backend/app/services/inventory/cogs_service.py:173-214 | the week's figures: the predecessor's ending, the chosen and added purchases, the count's own ending |
| CogsReport.FiguresInFields | backend/app/services/inventory/cogs_service.py:173-175 | the opening is the ending of the latest earlier count or nothing, the ending the count's own |
| CogsReport.PurchasesInFields | backend/app/services/inventory/cogs_service.py:187-214 | the source is manual exactly with an override, invoices exactly without one and with a positive rounded sum, else the sheet; other purchases are added in full |
| CogsReport.DisplayLines | backend/app/services/inventory/cogs_service.py:221-236 | one rounded line per category, and totals that are those of the unrounded figures |
| CogsReport.LinesInFields | backend/app/services/inventory/cogs_service.py:221-257 | each displayed line is its category's own opening, purchases and ending and their balance, rounded, and so are the totals |
| CogsReport.PercentInFields | backend/app/services/inventory/cogs_service.py:238-240 | the percentage exists exactly for positive net sales and is within half a hundredth of a hundred times their ratio |
| CogsReport.ComputeCogs | backend/app/services/inventory/cogs_service.py:171-258 | every figure of the report: lines, totals, net sales by override or query, source, invoice count and cost percentage; the displayed figures agree within the bounds below |
| CogsReport.DisplayedFiguresAgree | backend/app/services/inventory/cogs_service.py:221-257 | in every report total cost is opening plus purchases minus ending exactly; the displayed category costs sum to the displayed total within three cents; the four displayed totals balance within two |
| CogsReport.SpanCogsConserves | backend/app/services/inventory/cogs_service.py:171-229 | over any span the weekly costs are the first ending plus all purchases minus the last ending: no stock is charged twice or lost |
| CogsSheet.ParseSheet | backend/app/services/inventory/cogs_parser.py:71-132 | the one-pass parser computes the week, items and purchases that each row's own definition gives |
| CogsSheet.ItemsFollowTheSheet | backend/app/services/inventory/cogs_parser.py:93-130 | item i has sort order i, comes from its own row above the summary, and carries the category of the nearest mapped header above it |
| CogsSheet.EveryItemRowCounts | backend/app/services/inventory/cogs_parser.py:114-130 | every priced row under a section becomes an item |
| CogsSheet.CategoryEnding | backend/app/services/inventory/cogs_parser.py:63-68 | every canonical category has its sum of extended totals, and together they are the sum of all |
| CogsSheet.ItemInFields | backend/app/services/inventory/cogs_parser.py:114-129 | an item is named in column A, priced in column G and totalled in column H |
| CogsSheet.PurchaseInFields | backend/app/services/inventory/cogs_parser.py:98-105 | below the CATEGORY row, a category's name in column A and a number in column E enter that category's purchases, and nothing else does |
| CogsSheet.HeadersInFields | backend/app/services/inventory/cogs_parser.py:93-116 | the text TOTAL in column H makes a header; the exact conditions for a mapped header and for an item |
| CogsSheet.LabelsNameTheirCategory | backend/app/services/inventory/cogs_parser.py:28-36 | the section labels are the canonical names in capitals, and the summary table is read by canonical name |
| CogsSheet.TitleNamesIff | backend/app/services/inventory/cogs_parser.py:48-53 | a title names a category exactly when it contains its label and none of an earlier one |
| CogsSheet.WeekIsLabelled | backend/app/services/inventory/cogs_parser.py:86-91 | the week is the first date right of the first DATE label that has one |
| BusinessDate.OrdinalsOrderDates | backend/app/services/inventory/cogs_service.py:49-52 | day numbers order dates as the calendar does and are unique |
| BusinessDate.FirstsOfMonths | backend/app/services/inventory/cogs_service.py:49-50 | the days of the year before each month, in common and leap years |
| BusinessDate.KnownOrdinals | backend/app/services/inventory/cogs_service.py:49-50 | the ordinals of two known dates, and four years' leap rule |
| BusinessDate.TextOrderIsNumberOrder | backend/app/services/inventory/cogs_service.py:55-56 | digit texts of one length compare as the numbers they spell |
| BusinessDate.PrintSpellsTheDate | backend/app/db/repositories/expense_repo.py:494-495 | the printed date is eight digits whose slices give back year and month |
| BusinessDate.PrintPreservesOrder | backend/app/db/repositories/expense_repo.py:490-499 | for years 1000 to 9999 printing is strictly order-preserving and injective |
| NetSales.FilterSelectsTheDays | backend/app/services/inventory/cogs_service.py:51-56 | the text range filter selects exactly the days of the range |
| NetSales.WeeksTile | backend/app/services/inventory/cogs_service.py:45-56 | the sales weeks of counts seven days apart put each covered order in exactly one |
| NetSales.OrderCounts | backend/app/services/inventory/cogs_service.py:53-63 | an order adds its net amount, or its amount without one, exactly when it is the tenant's and location's and of a day of the week |
| NetSales.DepositCounts | backend/app/services/inventory/cogs_service.py:68-81 | a deposit adds its amount exactly when it is revenue, the tenant's and location's, within the week |
| NetSales.NetSalesInFields | backend/app/services/inventory/cogs_service.py:64-82 | a positive order total decides, otherwise the deposits |
| NetSales.WeeklySalesAdd | backend/app/services/inventory/cogs_service.py:49-63 | their order totals add up to the order total of the whole stretch |
| NetSales.WeeklyNetSalesAddIff | backend/app/services/inventory/cogs_service.py:64-82 | with the deposit fallback, cent-valued weekly net sales add up to the stretch's orders if and only if the weeks without a positive order total deposited, all together, what their orders came to |
| NetSales.EveryStretchAddsIff | backend/app/services/inventory/cogs_service.py:64-82 | they add up over every stretch from the first week on if and only if each week without a positive order total deposited what its orders came to |
| PushClient.PrunedIsRecent | backend/app/services/labor/push_client.py:168-170 | after pruning, the deque is exactly the grants younger than a minute |
| PushClient.AttemptKeepsValid | backend/app/services/labor/push_client.py:166-174 | a pass keeps the deque a sorted suffix of the grants with every dropped one expired |
| PushClient.EveryRunKeepsValid | backend/app/services/labor/push_client.py:159-174 | so does every run of any number of callers |
| PushClient.AtMostMaxPerMinute | backend/app/services/labor/push_client.py:159-174 | no stretch of less than a minute holds more than the maximum number of grants |
| PushClient.EveryRunGrantsByRoom | backend/app/services/labor/push_client.py:171-174 | a pass is granted if and only if fewer than the maximum are younger than a minute; the sleep ends just after the oldest expires |
| PushClient.RateLimiter.Pass | backend/app/services/labor/push_client.py:167-174 | popping expired grants from the front and granting or sleeping is one attempt of the specification |
| PushClient.RateLimiter.Acquire | backend/app/services/labor/push_client.py:166-174 | a lone caller gets exactly one grant within two passes |
| PushClient.IterDateChunks | backend/app/services/labor/push_client.py:141-156 | contiguous windows from start to end, none empty or too wide, all but the last full; an error exactly when start is after end |
| PushClient.WindowsPartition | backend/app/services/labor/push_client.py:141-156 | every date of the range is in exactly one window and no other date in any |
| PushClient.Get | backend/app/services/labor/push_client.py:221-259 | at most four requests, each with its own grant; only 429 and server errors are retried; the outcome is the last response's, or the transport's failure |
| PushClient.OutcomesByStatus | backend/app/services/labor/push_client.py:228-259 | which responses are retried and what each final one means, status by status and envelope by envelope |
| PushSync.LabourSync.UpsertRows | backend/app/services/labor/push_sync_service.py:70-111 | the statement writes all rows and returns their number, or is refused as a whole when rows repeat a key or do not fit their columns |
| PushSync.LabourSync.PullWindows | backend/app/services/labor/push_sync_service.py:140-156 | succeeds if and only if the range is not empty, the rows on its dates fit and share no key and nothing else raises, and is then one unrestricted pull, counted once; otherwise a proper prefix of the range has been written |
| PushSync.LabourSync.SyncRange | backend/app/services/labor/push_sync_service.py:114-175 | a succeeded job with the row count and a progress mark, or a failed job and no mark |
| PushSync.LabourSync.RunSync | backend/app/workers/tasks/push_sync.py:91-136 | a sync takes effect as a whole, or leaves table, jobs and progress mark as they were |
| PushSync.UpsertedLookup | backend/app/services/labor/push_sync_service.py:98-109 | an upsert overwrites exactly the keys it returns and keeps the rest |
| PushSync.StoredAsReturned | backend/app/services/labor/push_sync_service.py:80-109 | every row returned is stored under its date, employee, position and labour type for the config's tenant and company, with its own cost, hours and names and the config's location |
| PushSync.SyncsMerge | backend/app/services/labor/push_sync_service.py:98-148 | two syncs leave the table of one over both date sets, overlapping or not |
| PushSync.AnyOrderSameTable | backend/app/services/labor/push_sync_service.py:145-149 | successful pulls in any order, overlapping and repeated, give the table of one pull of all their dates |
| PushSync.UpsertMirrorsIff | backend/app/services/labor/push_sync_service.py:98-109 | the upsert leaves exactly the API's rows on its dates if and only if no stored row has disappeared from the API |
| PushSync.PullDistinctIff | backend/app/db/models/push_labor.py:76-86 | a pull names no key twice if and only if the API's rows on its dates do not |
| PushSync.PullAcceptedIff | backend/app/db/models/push_labor.py:59-86 | the database accepts a pull if and only if the API's rows on its dates fit their columns and share no key |
| PushSync.ResyncCorrectsIff | backend/app/services/labor/push_sync_service.py:114-175 | after a sync the range mirrors the API if and only if it succeeded with no stored row gone from the API, or failed on a range that did already |
| PushSync.DeletedRowSurvives | backend/app/services/labor/push_sync_service.py:98-109 | a row deleted upstream survives a successful re-sync of its date |
| PushSync.RepeatedKeyFailsTheSync | backend/app/services/labor/push_client.py:304-315 | two rows that share position 0 fail the sync with nothing stale |
| PushSync.LongTypeFailsTheSync | backend/app/db/models/push_labor.py:69 | a labour type of more than twenty characters fails the sync with nothing stale and no key repeated |
| PushSync.SyncTouchesOnlyItsRows | backend/app/db/models/push_labor.py:76-86 | rows of other tenants, companies or dates stay |
| PushSync.PullsAdd | backend/app/services/labor/push_sync_service.py:140-158 | the row counts of disjoint windows add up to that of their union |
| LabourReports.ReportsAgree | backend/app/services/labor/push_sync_service.py:178-276 | for one filter the position report, the daily series and the grand total agree in cost and in hours |
| LabourReports.AdjacentRangesAdd | backend/app/services/labor/push_sync_service.py:193-204 | totals over adjacent date ranges add up |
| LabourReports.SelectedInFields | backend/app/services/labor/push_sync_service.py:193-203 | a report counts the tenant's rows of the inclusive range, and of the location when one is given |
| LabourReports.UpsertedTotals | backend/app/services/labor/push_sync_service.py:70-204 | after a first upsert the totals of any range are the sums of the cost and of the hours of the API's rows in it |
| LabourReports.SyncedTotals | backend/app/services/labor/push_sync_service.py:114-204 | end to end, after a first sync that succeeds the totals of its range are the sums of the cost and of the hours of the API's rows |
| LabourReports.ScheduledByDate | backend/app/services/labor/push_sync_service.py:395-397 | every shift's hours land on its date, and only dates with a shift appear |
| LabourReports.SortDates | backend/app/services/labor/push_sync_service.py:402 | the same dates, ascending, once each |
| LabourReports.CompareDays | backend/app/services/labor/push_sync_service.py:399-417 | one entry for every date on either side, in order, with zero for a missing side |
| LabourReports.VariancesBalance | backend/app/services/labor/push_sync_service.py:395-417 | the variances sum to total actual minus total scheduled hours |
| LabourReports.ScheduledVsActual | backend/app/services/labor/push_sync_service.py:395-417 | the whole comparison: the union of dates in order, each day's two sides and difference, and the balance of the variances |
| ContentMatch.SuffixIsIgnored | backend/app/db/repositories/document_repo.py:29-33 | a legal suffix does not change a vendor's significant words |
| ContentMatch.WordsSplitAtSpace | backend/app/db/repositories/document_repo.py:32 | the words of two names joined by a space are the words of both |
| ContentMatch.NumberIsRead | backend/app/db/repositories/document_repo.py:26-40 | the word in any case, an optional separator and four or more digits give the number without its leading zeros, whatever follows |
| ContentMatch.ShortNumberIsNone | backend/app/db/repositories/document_repo.py:26 | fewer than four digits are no number |
| ContentMatch.TokensInFields | backend/app/db/repositories/document_repo.py:16-33 | the significant words are the words of two or more characters, in lower case and without full stops and commas, other than the twelve generic ones |
| ContentMatch.SameInvoiceIff | backend/app/db/repositories/document_repo.py:204-235 | same known date, same known total, a significant word in common and not two different numbers; the relation is symmetric |
| Documents.DocumentRepository.Lookup | backend/app/db/repositories/document_repo.py:160-168 | no primary, the only primary, or an error when there are two |
| Documents.DocumentRepository.FindContentDuplicate | backend/app/db/repositories/document_repo.py:170-235 | returns a primary of the tenant that is the same invoice, and none only if there is none |
| Documents.DocumentRepository.MarkDuplicate | backend/app/db/repositories/document_repo.py:237-243 | the row becomes a copy of the original, others stay |
| Documents.DocumentRepository.DeleteRow | backend/app/db/models/document.py:70-73 | the row goes and its copies lose their pointer but stay marked |
| Documents.DocumentRepository.IngestDocument | backend/app/services/document_service.py:120-163 | the new row is a primary exactly when none with its checksum exists, otherwise a copy of that one |
| Documents.DocumentRepository.ExtractDocument | backend/app/workers/tasks/ocr_process.py:1018-1046 | the extracted fields are stored and, unless the document's type is not compared, a same-invoice primary becomes the original if there is one |
| Documents.IngestInFields | backend/app/services/document_service.py:120-151 | the new row has the given tenant and checksum and is a copy exactly when an unmarked row of the tenant has that checksum, and then of such a row; no other row changes |
| Documents.ExtractInFields | backend/app/workers/tasks/ocr_process.py:1018-1046 | the row takes the fields and is marked exactly when given another unmarked row of its tenant that is the same invoice; no other row changes |
| Documents.DeleteInFields | backend/app/db/models/document.py:70-73 | the row is gone, its copies lose their pointer and stay marked, every other field stays |
| Documents.TypesNotCompared | backend/app/workers/tasks/ocr_process.py:1035 | the five types that are not compared |
| Documents.FindDuplicateIsTotal | backend/app/db/repositories/document_repo.py:160-168 | with one primary per checksum the lookup never raises and finds it |
| Documents.IngestKeepsValid | backend/app/services/document_service.py:120-151 | ingestion keeps one primary per checksum, sound pointers and a ranking |
| Documents.MarkingKeepsValid | backend/app/db/repositories/document_repo.py:237-243 | marking a row as a copy of a primary keeps them even when the row has copies itself |
| Documents.ExtractKeepsValid | backend/app/workers/tasks/ocr_process.py:1018-1046 | extraction keeps them |
| Documents.DeleteKeepsValid | backend/app/db/models/document.py:70-73 | deletion keeps them |
| Documents.EveryRunKeepsValid | backend/app/services/document_service.py:120-151 | over any sequence of ingests, extractions and deletions |
| Documents.DuplicateLookupNeverFails | backend/app/db/repositories/document_repo.py:160-168 | after any run a checksum lookup never sees two rows |
| Documents.DuplicatesAreAcyclic | backend/app/db/models/document.py:70-73 | no document is reachable from itself along duplicate_of |
| Documents.EveryChainEnds | backend/app/db/models/document.py:70-73 | from every document the pointers lead, within its tenant, to a primary or to a copy whose original was deleted |
| MailSync.EmailSync.UpsertMessage | backend/app/db/repositories/email_repo.py:209-227 | inserts an unprocessed row and leaves an existing one alone |
| MailSync.EmailSync.MarkProcessed | backend/app/db/repositories/email_repo.py:235-238 | flags the row as processed |
| MailSync.EmailSync.IngestAttachments | backend/app/services/email/processing_service.py:96-126 | filtered, ingested, ignored and failed attachments move exactly their own counters |
| MailSync.EmailSync.SyncMessage | backend/app/services/email/processing_service.py:61-128 | a known message is skipped and a vanished one tolerated for Gmail only; a failing fetch raises, for Outlook after the row was written; any other message is recorded and processed |
| MailSync.EmailSync.UpdateCursor | backend/app/db/repositories/email_repo.py:93-110 | a given cursor is stored, a missing one leaves the old |
| MailSync.EmailSync.Sync | backend/app/services/email/processing_service.py:37-378 | a run processes its listing in order and moves the cursor, or raises with the rows written so far and the cursor where it was |
| MailSync.EmailSync.RunJob | backend/app/workers/tasks/email_sync.py:90-167 | the worker keeps what a run has written whether it finishes or raises, and nothing of a run that dies |
| MailSync.RunMovesCursorIff | backend/app/services/email/processing_service.py:130-135 | for both providers a cursor moves exactly when a run of its config finishes with a new one |
| MailSync.CursorIsOfTheLastFinished | backend/app/db/repositories/email_repo.py:93-110 | over any runs a config's cursor is the one handed over by its last run that finished with one |
| MailSync.MessageCases | backend/app/services/email/processing_service.py:61-128 | one message case by case: when it is looked at, raises, gets a processed row, is left with an unprocessed one, and is counted |
| MailSync.CountersPerAttachment | backend/app/services/email/processing_service.py:94-126 | each attachment moves exactly the counters of its kind |
| MailSync.ProcessedAtMostOnce | backend/app/db/repositories/email_repo.py:197-238 | over any runs, finished, raising or dying, each tenant, provider and message id is processed at most once and is marked exactly when it was |
| MailSync.RowsNeverChange | backend/app/services/email/processing_service.py:298-306 | a row never changes in a later run: an unprocessed one stays so for good |
| MailSync.GmailRowsAreProcessed | backend/app/services/email/processing_service.py:71-128 | a Gmail message has a row exactly when it has been processed, whatever runs have failed |
| MailSync.FinishedRunProcessesIff | backend/app/services/email/processing_service.py:61-140 | after a finished run a message it listed and could fetch has a processed row if and only if the table held no unprocessed row for it at the start |
| MailSync.StuckIff | backend/app/services/email/processing_service.py:308-322 | a message has an unprocessed row if and only if some Outlook run was stopped by its fetch |
| MailSync.ListedIsProcessedIff | backend/app/services/email/processing_service.py:292-371 | whenever a run finishes and moves its cursor, a message it listed and could fetch is processed if and only if no earlier run was stopped by that message's fetch |
| MailSync.OutlookMessageIsLost | backend/app/workers/tasks/email_sync.py:112-129 | an Outlook message whose fetch fails once is skipped by the next, finished run, which moves the cursor past it |
| MailSync.ScanMessages | backend/app/services/email/gmail_client.py:202-211 | paging takes the hits up to the limit |
| MailSync.RunKeepsCovered | backend/app/services/email/processing_service.py:55-140 | a Gmail run, finished or not, leaves everything behind the cursor accounted for |
| MailSync.NoMessageIsSkipped | backend/app/services/email/processing_service.py:55-263 | however arrivals, deletions, runs and failures interleave, no message after the last full scan is passed over by the cursor |
| MailSync.FullScanReachesIff | backend/app/services/email/gmail_client.py:183-215 | a finished full scan moves the cursor past all arrivals and accounts for a message if and only if it was accounted for before or is among the hits within the limit; if all hits fit, if and only if the query finds it |
| MailSync.PassedOverForGood | backend/app/services/email/gmail_client.py:157-215 | a message behind the cursor without a row never gets one, through any later events, until its id arrives again or a full scan takes it |
| MailSync.UnmatchedIsNeverReached | backend/app/services/email/gmail_client.py:191-200 | a message that does not match the query, once behind the cursor without a row, is never processed by any later run |
| MailSync.FullScanCanPassOver | backend/app/services/email/gmail_client.py:197-215 | a message without an attachment ends up behind the cursor without a row |
| HstRecovery.ExpenseRepository.PropagateHst | backend/app/db/repositories/expense_repo.py:415-477 | the expenses after the loop, each query visiting the document table in an order of its own, and the number of rows that were filled |
| HstRecovery.FillsExactlyTheMatched | backend/app/db/repositories/expense_repo.py:434-474 | only the tax of the tenant's bank-statement expenses with an amount and no tax changes, to that of an invoice or receipt of the same tenant with a positive tax, a total within a cent and a date within 35 days, at the least amount difference; a row stays without tax exactly when there is none |
| HstRecovery.OtherTenantsDoNotMatter | backend/app/db/repositories/expense_repo.py:452-464 | documents of other tenants, added, removed or changed, make no difference to a run |
| HstRecovery.SecondRunIsIdle | backend/app/db/repositories/expense_repo.py:423-429 | a second run updates nothing, in whatever order the database answers |
| HstRecovery.ReportInFields | backend/app/db/repositories/expense_repo.py:381-413 | which expenses a report counts, and what each adds to its tax, total and missing columns |
| HstRecovery.MonthMovesByTheCopiedTax | backend/app/db/repositories/expense_repo.py:365-413 | in every month of any report the tax rises by exactly what was copied there, the missing count falls by exactly the rows filled, and the expense total stays |
| HstRecovery.RunMoves | backend/app/db/repositories/expense_repo.py:448-477 | a run fills exactly the rows it counts, with exactly the tax it copies, and leaves every other row |
| HstRecovery.YearMovesByTheCopiedTax | backend/app/db/repositories/expense_repo.py:365-477 | summed over the months of a report that shows the filled rows, the tax rises by all that was copied, the missing count falls by the number filled, and the expense total stays |
| HstRecovery.RunMovesTheReport | backend/app/db/repositories/expense_repo.py:365-477 | so it is for every run and every tenant-wide report over a period that holds the tenant's expenses |
| UploadGate.AsciiSurvivesDecoding | backend/app/services/virus_scan.py:66-73 | an ASCII character occurs in decoded UTF-8 text if and only if its byte occurs |
| UploadGate.SequenceIsShortest | backend/app/services/virus_scan.py:66-70 | a decoded sequence is the shortest encoding of its character, and no surrogate |
| UploadGate.EncodedIsWellFormed | backend/app/services/virus_scan.py:66-70 | every character but the surrogates is read back from its encoding |
| UploadGate.CsvIsAByteTest | backend/app/services/virus_scan.py:56-74 | the CSV test is a byte test on the first 8192 bytes, whichever decoding is taken |
| UploadGate.MagicsAreDisjoint | backend/app/services/document_service.py:36-42 | no file starts with two of the magic prefixes |
| UploadGate.AcceptedContents | backend/app/services/virus_scan.py:22-53 | which first bytes each type must have |
| UploadGate.WhitelistsAgree | backend/app/db/models/document.py:26-35 | the whitelist of the upload service holds exactly the types the scanner's gate knows |
| UploadGate.ValidateFile | backend/app/services/document_service.py:45-89 | accepts a file if and only if it is at most 50 MB and the scanner's gate accepts it, and confirms the declared type |
| Instream.UnpackPack | backend/app/services/virus_scan.py:100 | a four-byte length reads back, most significant byte first |
| Instream.Send | backend/app/services/virus_scan.py:97-101 | the sending loop emits the framed chunks and the terminator |
| Instream.StreamLength | backend/app/services/virus_scan.py:97-101 | the wire carries the file, four bytes for each started block of 4096 and four at the end |
| Instream.StreamRoundTrips | backend/app/services/virus_scan.py:94-101 | a reader that refuses lengths over 4096 recovers exactly the file and stops exactly at the terminator, whatever follows |
| Payroll.GroupOwners | backend/app/services/labor/pushops_import.py:136-153 | each column's owner is the forward-filled grouping cell |
| Payroll.OwnerIsNearest | backend/app/services/labor/pushops_import.py:147-152 | it is the nearest non-blank grouping cell at or left of the column, and blank only if there is none |
| Payroll.FindColumn | backend/app/services/labor/pushops_import.py:172-176 | the first column with the header under the owner, none only if there is none |
| Payroll.SummaryColumns | backend/app/services/labor/pushops_import.py:156-189 | the layout is recognised exactly by its two headers, and CPP and EI come from the employer group only |
| Payroll.CostOfRow | backend/app/services/labor/pushops_import.py:205-237 | a row's cost, or none for a total row, an undated row or a zero cost |
| Payroll.ReadingInFields | backend/app/services/labor/pushops_import.py:192-226 | every figure of a row comes from the column the layout found for it |
| Payroll.CostInFields | backend/app/services/labor/pushops_vision.py:199-210 | a row costs gross plus employer CPP, EI and WCB on its own or the fallback date, by each route |
| Payroll.ParseSummary | backend/app/services/labor/pushops_import.py:198-240 | the CSV costs row by row, without total rows, undated rows and zero costs; an error exactly when none is left |
| Payroll.ExtractRows | backend/app/services/labor/pushops_vision.py:186-222 | the screenshot's costs row by row, without total rows, undated rows and costs that are not positive |
| Payroll.RoutesAgreeIff | backend/app/services/labor/pushops_vision.py:199-210 | for every table both routes yield the same costs after each row if and only if they agree on each row: no negative cost with a gross, and without one as much burden as the total column or no cost either way |
| Payroll.RoutesWithGrossAgreeIff | backend/app/services/labor/pushops_vision.py:199-210 | when every counted row shows a gross, both routes yield the same costs if and only if no row comes to a negative cost |
| Payroll.RowWithoutGrossAgreesIff | backend/app/services/labor/pushops_vision.py:205-210 | on a row without a gross they agree if and only if the burden equals the total column or neither is a cost |
| Payroll.NegativeRowShowsTheDifference | backend/app/services/labor/pushops_vision.py:209-210 | a correction of minus one hundred is booked by one route and dropped by the other |
| Payroll.TotalColumnShowsTheDifference | backend/app/services/labor/pushops_vision.py:207-208 | a row with nothing but a total column of fifty is a cost for one route only |
| Payroll.DifferencesCanCancel | backend/app/services/labor/pushops_vision.py:205-210 | the routes can end with the same costs although they disagree on each of two rows |

## Left out

- HTTP, OAuth, object storage, mail and AI services: only the shape of their answers enters the model.
- Cryptography and access-token contents: hashes are injective and tokens opaque.
- Isolation anomalies: transactions are serial.
- Several tabs on one store, and logging in or out in the same tab while a refresh is pending: the code does not coordinate them.
- Deleting a user, which removes the user's token rows: the token table only grows here.
- The 28-digit decimal context: money is exact.
- Counts without a location: their prior count may belong to any location, so the chain results are about one tenant and location whose scope holds no other counts.
- Ties between counts of one week in the prior-count query: the table's unique constraint rules them out for a location.
- `_get_all_pages`, clock rows, shift parsing, `variance_pct`, missed clock-outs and the employee ranking: single formulas or sorts.
- PushClient.RateLimiter.Acquire: is about one caller at a time; for any number of callers the properties are stated over their passes.
- PushSync.PullAcceptedIff: a text too long only by spaces, which the database shortens instead of refusing, counts as one that does not fit.
- PushClient.Get: its requests are not interleaved with other callers' on the same limiter.
- The "Unassigned" label of the position report: positions are grouped by name as stored, as the query does.
- Unicode case folding, whitespace and digits in vendor names, file names and sheet labels: ASCII rules are modelled.
- The storage upload and the OCR queue of document ingestion, and the filter on ignored file names.
- Drive sync: it lists files by page token and shares only ingestion with the mail runs.
- MailSync.NoMessageIsSkipped: follows one Gmail mailbox from its last full scan on, and no arrival races with a scan.
- MailSync.ScanMessages: supposes that no page is empty while hits are left.
- An error while the renewed access token is stored: the worker then commits rows and cursor as for a finished run.
- The fallback from a stale history id to a full scan inside the Gmail client: it appears as a full-scan event.
- The scanner's answer and its interpretation: only the stream that is sent is modelled.
- CSV tokenizing, workbook reading, and the parsing of amounts and dates in cells: rows of read cells are the input.
- The per-employee CSV layout and the fuzzy header search that precedes it: a lookup per row with no state.
- Sheet cells beyond column H, and the item fields that are copied unread (pack size, unit, cases, packs, weight).
- The grouping of collected tax by month beyond its filter and slices: the same sum as the other reports.
