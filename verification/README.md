# A verified model of the CRM backend

This project models the stateful core of the multi-tenant CRM API (the NestJS backend under `api/`) and proves
what it keeps over whole runs. Four pieces are modelled:

- **Sessions.** Registration, login, refresh-token rotation with reuse detection, logout, password reset and
  change, mailed verification tokens, and the blacklist of access tokens (rotation as in section 4.14.2 of
  RFC 9700, `jti` and `exp` as in sections 4.1.7 and 4.1.4 of RFC 7519). `AuthSpec` serves one request at a time;
  `SessionRefinement` shows that this refines `SessionMachine`, where a login session has at most one current
  token. `RotationSteps` takes all its requests apart at every `await` and lets any number of them interleave;
  `RotationSerial` leads back to serial runs. `Accounts` follows a user from registration to the mails and
  passwords that come later.
- **The tenant store.** Customers, orders, notes, tags, links, users and files as tables stamped with their
  organization, with the scoped and the unscoped statements, pre-checks, unique indexes and cascades. `Tenancy`
  has one `Step` per request; `Consistency`, `Isolation` and `Purge` build up to the isolation theorem.
- **The order ledger.** Totals on two-decimal columns with exact real inputs, numbering by count, and the
  aggregates computed from the ledger, each report against the lists it reports on (`ReportFigures`). `Undo`,
  `TakeBack` and `Listings` relate the store's requests to one another, `Secrets` two auth runs.
- **Caches and pages.** The read-through caches against the query they stand for, in one piece and taken apart
  (`CacheRaces`), and pages against the list.

The specification of a request is a function from the old state to the new state and the reply. The services and
repositories are classes that update their tables in place, statement by statement as the code does; each method
is proved to do exactly what its specification function says, and `Server.Handle` puts them together behind the
tenant guard. The theorems are lemmas about runs of the specification. `RecordEffects` and `AuthEffects` say column
by column what each request writes, answers and refuses, in terms of its input and not of the functions that
specify it, and `Accounts` puts them together. The table below lists the theorems first, then the methods, then
these effects; its last rows only confirm that lists, filters and patches read as they should.

Ids, random tokens and the clock are inputs of a request; the ids of new rows have not been used before. SHA-256
and Argon2 are injective (`Digest`), a token counts as signed exactly when it was issued here, and the clock of a
run does not go backwards where a statement depends on it. Money inputs are exact reals and stored money is whole
cents.

Where the code and its own words disagree, the model follows the code:

- `nextOrderNumber` is called gap-tolerant (api/src/modules/order/order.repository.ts:82). It is not: of
  orders 1..n, deleting any but number n blocks the next create (`OrderGaps.DenseDeletionBlocks`,
  and `OrderGaps.DeletionBlocksExactlyWhen` for every deletion).
- The README says every `where` clause carries the organization (api/README.md:49-50). Several writes and joins go
  by bare id; `Isolation` proves that the pre-checks and the same-tenant links make up for it.
- The "refresh-token blacklist" (api/src/infra/redis/redis.service.ts:48) holds the `jti` of access tokens.
- Refresh tokens are called opaque random strings (api/src/modules/auth/token.service.ts:11); they are JWTs with an
  expiry of their own. One setting gives that expiry and the stored one, read by the JWT library and by `parseTtl`.
  Refresh answers "expired" where the stored one is the shorter ("1w" is signed for a week and stored for 15
  minutes, `SessionExpiry.NeverExpiresExactlyWhen`), or where the clock passes both between the signature check
  and the row lookup (`RotationSteps.ExpiredExactlyWhen`, `RotationWitness.ExpiredIsReached`).

## Model

| member | source | states |
|---|---|---|
| SessionRefinement.RunRefines | api/src/modules/auth/auth.service.ts:54-211 | every serial run of register, login, refresh, logout, forgot, reset, verify and change-password requests is, reply by reply and state by state, a run of the abstract session machine |
| SessionRefinement.StepRefines | api/src/modules/auth/auth.service.ts:109-149 | each single request keeps the token tables coherent and simulates one machine step |
| SessionTheorems.RefreshOutcomes | api/src/modules/auth/auth.service.ts:109-136 | refresh rotates exactly when the token is genuine, unexpired, its session's current one, honoured there still and its user active; it reports reuse exactly when a genuine unexpired token is not current, and that session is then over; it answers "expired" exactly when the current token still verifies but its stored lifetime is over; every rejection but reuse changes nothing |
| SessionRefinement.RefreshSimulates | api/src/modules/auth/auth.service.ts:109-136 | refresh on the token table does and answers what the session machine does, keeping the table coherent |
| SessionTheorems.AtMostOneLive | api/src/modules/auth/auth.repository.ts:24-48 | in every serial run each family has at most one unrevoked token, and one user |
| SessionExpiry.NeverExpiresExactlyWhen | api/src/modules/auth/auth.service.ts:111-127 | no serial run under one configuration ever answers "expired" if and only if the lifetime that the JWT library signs is at most the one that refreshTtlSeconds stores; otherwise a registration and one refresh get the answer |
| SessionExpiry.SettingsDecide | api/src/modules/auth/token.service.ts:25-59 | for a setting with unit s, m, h or d it is never answered; for any number of weeks, signed as such and stored as 900 seconds, it is |
| SessionRefinement.LogoutSimulates | api/src/modules/auth/auth.service.ts:141-149 | logout ends a session exactly when it presents the current token |
| SessionRefinement.ResetSimulates | api/src/modules/auth/auth.service.ts:169-182 | a successful reset changes one password, spends one mail and ends every session of that user |
| SessionRefinement.ChangeSimulates | api/src/modules/auth/auth.service.ts:202-211 | a successful change of password ends every session of that user |
| SessionRefinement.SignedTokenHasRow | api/src/modules/auth/token.service.ts:50-83 | every refresh token signed here has a stored row, and the signed user and family are those of the row |
| SessionTheorems.EndedForever | api/src/modules/auth/auth.service.ts:228-243 | a family without an unrevoked token never gets one again, in any run |
| SessionTheorems.ReuseEndsFamily | api/src/modules/auth/auth.service.ts:121-124 | after reuse is detected no later request yields a token of that family |
| SessionTheorems.LogoutEndsFamily | api/src/modules/auth/auth.service.ts:141-145 | after logout with the current token no later request yields a token of that family |
| SessionTheorems.PasswordChangeEndsSessions | api/src/modules/auth/auth.repository.ts:43-48 | reset and change of password end all sessions of the one user and leave every other user's session as it was |
| SessionTheorems.OldTokensDie | api/src/modules/auth/auth.service.ts:169-211 | after it, no refresh token issued earlier to that user ever succeeds again |
| SessionTheorems.RedeemedAtMostOnce | api/src/modules/auth/auth.repository.ts:61-72 | a mailed verification token succeeds at most once in any serial run |
| SessionTheorems.RedeemsExactlyWhen | api/src/modules/auth/auth.repository.ts:61-65 | it succeeds if and only if an unused row of its own type carries its hash and has not expired |
| RotationMails.RedeemedAtMostExactlyWhen | api/src/modules/auth/auth.service.ts:169-197 | with the awaits interleaved a mailed token is redeemed at most n more times if and only if it is marked as used or expired and at most n requests in flight have read it; while it is open there is no bound |
| AccessTokens.LogoutIsPermanent | api/src/modules/auth/strategies/jwt.strategy.ts:35-46 | when the access lifetime is at most the refresh lifetime, an access token issued before a logout that names its jti is rejected at every later time, whatever requests follow |
| AccessTokens.AcceptedExactlyWhen | api/src/modules/auth/strategies/jwt.strategy.ts:35-46 | within one run under configured lifetimes, the access token that a registration, login or refresh hands out under a non-empty jti is accepted later if and only if it has not expired and no logout since named its jti |
| AccessTokens.PermanentExactlyWhen | api/src/infra/redis/redis.service.ts:50-60 | for configured lifetimes, logout is permanent if and only if the access lifetime is at most the refresh lifetime |
| AccessTokens.ConfiguredLogoutIsPermanent | api/src/modules/auth/token.service.ts:25-31 | the same condition for any access lifetime written with a unit against any refresh string, bare numbers and unreadable strings included |
| Ttl.TtlInvertsPrinting | api/src/modules/auth/token.service.ts:90-104 | parseTtl inverts printing any number with unit s, m, h, d or none, white space around it included |
| Ttl.UnitsScale | api/src/modules/auth/token.service.ts:90-104 | a day reads as 24 hours, an hour as 60 minutes, a minute as 60 seconds, seconds as the bare number |
| Ttl.UnknownUnitFallsBack | api/src/modules/auth/token.service.ts:90-104 | a number with any other unit reads as 900 seconds |
| RotationSteps.RunKeepsInv | api/src/modules/auth/auth.service.ts:54-211 | with every await of every auth request a step, signing and storing apart, and requests interleaving freely: each row is its family's login row or the rotation of an earlier, revoked row of the same family and user, and no revocation is ever undone |
| RotationTheorems.OneRoot | api/src/modules/auth/auth.service.ts:223-226 | every family has exactly one row without a predecessor, the one its login created |
| RotationTheorems.SucceededIsRevoked | api/src/modules/auth/auth.service.ts:132-134 | a row with a successor is revoked, so live rows are leaves |
| RotationTheorems.LiveBound | api/src/modules/auth/auth.service.ts:109-136 | live tokens of a family number at most 1 + the sum over rotated rows of (successors - 1) |
| RotationTheorems.UnbranchedHasOneLive | api/src/modules/auth/auth.service.ts:132-134 | where no row was rotated twice, at most one token of the family is live |
| RotationWitness.BoundAttained | api/src/modules/auth/auth.service.ts:117-134 | the bound is tight: for every k >= 1 an interleaving of k refreshes of one token leaves k live tokens |
| RotationTheorems.OneUserPerFamily | api/src/modules/auth/auth.repository.ts:13-22 | in every interleaving all rows of a family belong to the user of its login |
| RotationEnds.DeadExactlyWhenQuiet | api/src/modules/auth/auth.repository.ts:36-41 | in runs where the clock goes forward and random ids are new, a family can come to hold a live token if and only if one is live or a refresh that read one of its live rows is still in flight, its user active (or an operator able to make it so) |
| RotationEnds.ResetEndsExactlyWhen | api/src/modules/auth/auth.service.ts:177-181 | right after the last step of a password reset or change, an existing session of the user can come back if and only if a refresh of it was past its row lookup |
| RotationResets.SessionsAfterReset | api/src/modules/auth/auth.service.ts:83-105 | from then on, nobody logging in anew, the user can have a live token outside any given set of families if and only if a request of the user was in flight: a refresh past its row lookup (user active, or an operator able to make it so), a login past its password check or a registration past its user row |
| RotationResets.NewSessionAfterReset | api/src/modules/auth/auth.service.ts:83-92 | a session that did not exist at the reset can be live after it if and only if a login or registration of the user was in flight past its check |
| RotationSteps.ExpiredExactlyWhen | api/src/modules/auth/auth.service.ts:117-127 | the answer "expired" is given exactly by the row lookup that finds an unrevoked row whose expiry is before the clock at that step |
| RotationSteps.ExpiredTakesTime | api/src/modules/auth/auth.service.ts:111-127 | where the row outlives its token, that takes the clock passing exp between the signature check and the lookup |
| RotationWitness.ExpiredIsReached | api/src/modules/auth/auth.service.ts:111-127 | a run that gets the answer: checked a millisecond before the hour is over, looked up a millisecond after |
| RotationSerial.UninterruptedIsSerial | api/src/modules/auth/auth.service.ts:54-217 | the steps of any auth request that nothing interrupts, its password write, mail, access jti and revocations included, have exactly the effect and answer of the serial service |
| RotationSerial.SerialIsInterleaved | api/src/modules/auth/auth.service.ts:54-217 | every serial run of auth requests is a run of their steps, from any world at rest in which no row has been rotated twice |
| RotationSerial.SerialHasOneLive | api/src/modules/auth/auth.repository.ts:28-48 | so serial runs of all auth requests leave each family at most one live token, by the interleaved bound |
| Forests.LeafCount | api/src/modules/auth/auth.service.ts:228-243 | in a growing forest, leaves = roots + the sum over inner nodes of (children - 1); the counting behind the bound |
| Roles.OwnersAreMade | api/src/modules/user/user.service.ts:56-64 | a user becomes OWNER exactly by a promotion through an accepted OWNER token of the same organization, or by registering the organization |
| Roles.TokensTellTheTruth | api/src/modules/auth/token.service.ts:33-47 | a newly issued access token says OWNER exactly when its user then is an owner of its organization |
| Roles.OwnerLineage | api/src/modules/user/user.service.ts:56-73 | whoever gains OWNER during a run registered the organization or was promoted through a token that was outstanding at the start or was issued during the run to a user who then was an owner |
| Roles.OwnerlessForGood | api/src/common/guards/tenant.guard.ts:38-41 | an organization with no owners and no unexpired OWNER tokens never has an owner again, later registrations drawing new organization ids |
| Roles.OwnerReturnsExactlyWhen | api/src/modules/user/user.service.ts:56-64 | under one configured blacklist lifetime, an organization without owners can have one again if and only if it has a member and an issued OWNER token of it is, now or later, neither expired nor blacklisted |
| Purge.PurgeTheorem | api/README.md:46-56 | remove the requests of all other organizations from any run: one organization gets the same replies and ends with the same part of the store |
| CachePurge.CachedPurge | api/src/modules/dashboard/dashboard.service.ts:24-40 | the same with the caches in between: remove the other organizations' requests and reads, and replies and cached figures stay the same |
| Purge.RunOnView | api/README.md:46-56 | what an organization experiences is the run of its own requests on its own rows |
| Purge.RunKeepsConsistent | api/prisma/schema.prisma:194-306 | every reachable store keeps links within one organization and all unique indexes |
| Isolation.StepConfined | api/src/common/repositories/base.repository.ts:14-21 | one request changes only the caller's rows, leaves every other organization's view equal, and acts and answers as on the caller's view alone, although some of its writes carry no tenant filter |
| Consistency.StepKeepsConsistent | api/prisma/schema.prisma:212-306 | one request keeps all same-tenant links and unique indexes |
| Consistency.CustomerRemoveKeeps | api/prisma/schema.prisma:252-304 | the cascades of a customer delete leave no dangling order, note or tag link |
| Isolation.CustomerRemoveConfined | api/src/modules/customer/customer.repository.ts:43-45 | a customer delete and its cascades touch only the caller's organization |
| Isolation.TagDetachConfined | api/src/modules/tag/tag.repository.ts:56-58 | detaching by two bare ids touches only the caller's organization, because the link's tag is the caller's |
| Isolation.OrderCreateConfined | api/src/modules/order/order.repository.ts:82-86 | numbering by count and the number index depend on the caller's orders only |
| Isolation.FilePresignConfined | api/prisma/schema.prisma:395-395 | the index on file keys, which spans all organizations, never couples two of them |
| Isolation.CustomerUpdateConfined | api/src/modules/customer/customer.repository.ts:36-41 | the re-read by bare id after a scoped update returns the caller's row |
| ObjectKeys.KeyDecodes | api/src/infra/storage/r2.service.ts:46-51 | a built key parses back to the organization, the second and the sanitised name, for every file name |
| ObjectKeys.KeysNeverMeet | api/src/infra/storage/r2.service.ts:46-51 | equal keys mean equal organization, second and sanitised name |
| ObjectKeys.SanitizeIsIdempotent | api/src/infra/storage/r2.service.ts:48-48 | sanitising is idempotent, yields only safe characters and fixes exactly the safe names |
| ObjectKeys.SanitizeIsPerCharacter | api/src/infra/storage/r2.service.ts:48-48 | sanitising works unit by unit: it keeps exactly the ASCII letters, digits, dot, dash and underscore, and puts an underscore for every other UTF-16 unit |
| OrderLedger.RunKeepsTotals | api/src/modules/order/order.service.ts:23-89 | over every run from a ledger where it holds: each total stays within (quantity + 3)/2 cents of the formula on its own row; with non-negative inputs within quantity/2 + 1; with whole-cent inputs it equals the formula |
| OrderLedger.RunKeepsComputed | api/src/modules/order/order.service.ts:23-89 | over every run from a ledger where it holds, each order's money columns and total are what some money inputs compute at its quantity |
| OrderLedger.UpdateRestoresFormula | api/src/modules/order/order.service.ts:66-73 | an update without money fields restores the formula from any stored row, and repeating it leaves the total alone |
| OrderLedger.OrdersHaveOrigin | api/src/modules/order/order.service.ts:23-89 | after any request every order is an untouched old row or exactly what this request wrote from its own input |
| Money.DriftBound | api/src/modules/order/order.service.ts:17-21 | for any rounding that errs by at most half a cent, through the clamp at zero, the total is within (abs(quantity) + 3)/2 cents of the formula on the rounded fields |
| Money.SharpDriftBound | api/src/modules/order/order.service.ts:17-21 | with the code's own rounding and non-negative inputs the drift is at most quantity/2 + 1 cents |
| Money.SharpDriftIsReached | api/src/modules/order/order.service.ts:17-21 | for every quantity some input drifts by exactly that much |
| Money.ExactTotal | api/src/modules/order/order.service.ts:17-21 | on whole-cent inputs the computed total is exact |
| OrderNumbers.NumbersStayWithinPeak | api/src/modules/order/order.repository.ts:82-86 | over every run order numbers are unique in the organization and never exceed its peak number of simultaneous orders |
| OrderNumbers.RunStaysDense | api/src/modules/order/order.repository.ts:82-86 | without deletions the n orders are numbered exactly 1 to n and no create is blocked |
| OrderNumbers.CreateFailsExactlyWhenBlocked | api/src/modules/order/order.service.ts:23-46 | a create for a known customer fails if and only if number count + 1 is in use |
| OrderNumbers.BlockedWastesANumber | api/prisma/schema.prisma:306-306 | when it fails, some number in 1..count is unused (pigeonhole) |
| OrderGaps.DeletionBlocksExactlyWhen | api/src/modules/order/order.repository.ts:82-86 | whether one order is deleted or any number with their customer, the next create is blocked if and only if a surviving order holds the number one above the remaining count |
| OrderGaps.DenseDeletionBlocks | api/src/modules/order/order.repository.ts:82-86 | from orders 1..n, deleting one blocks if and only if it was not number n |
| OrderGaps.GapBlocks | api/src/modules/order/order.service.ts:23-46 | as requests: two creates, the first order removed, and the next create is answered with a unique violation |
| OrderRaces.RacesKeepConsistent | api/prisma/schema.prisma:306-306 | with the customer check, the count and the insert of a create as separate steps among all other requests, numbers stay unique and links inside their organization |
| OrderRaces.SecondIsRefused | api/src/modules/order/order.service.ts:28-30 | of two creates that drew the same number, the second to store is refused |
| OrderRaces.CollisionHappens | api/src/modules/order/order.repository.ts:83-86 | concretely: two creates that both draw before either stores |
| OrderRaces.DeletedCustomerIsRefused | api/src/modules/order/order.service.ts:23-46 | a create whose customer is deleted after the check is refused by the foreign key when it stores, and writes nothing |
| OrderRaces.RacedNumbersStayWithin | api/src/modules/order/order.repository.ts:83-86 | interleaved, numbers exceed the peak of simultaneous orders by one at most |
| OrderRaces.ExcessIsReached | api/src/modules/order/order.repository.ts:83-86 | and that one is reached: wherever n > 0 orders are numbered within n, a create that draws before a deletion and stores after it leaves number n + 1, with never more than n orders |
| OrderRaces.UninterruptedIsAtomic | api/src/modules/order/order.service.ts:23-46 | checking, drawing and storing with nothing in between is the atomic create, its errors included |
| OrderNumbers.BlockedThroughRun | api/src/modules/order/order.repository.ts:82-86 | once blocked, every create of the organization fails until one of its own orders is deleted |
| OrderNumbers.HoldingTakesOrders | api/prisma/schema.prisma:306-306 | holding the numbers 1..m takes at least m orders |
| OrderNumbers.NumberDecodes | api/src/modules/order/order.repository.ts:85-85 | a formatted number decodes back for every n, past five digits too |
| OrderNumbers.FormatIsInjective | api/src/modules/order/order.repository.ts:85-85 | no two numbers format alike |
| Reports.BreakdownSums | api/src/modules/analytics/analytics.repository.ts:76-83 | the status breakdown adds up to the order count and lists exactly the statuses in use |
| Reports.RevenueByMonthAgrees | api/src/modules/analytics/analytics.repository.ts:49-61 | month buckets rise strictly from the window's first month on, are at most months + 1 when no order is dated after now, and add up to the window's revenue, which is at most all revenue |
| Reports.BucketValues | api/src/modules/analytics/analytics.repository.ts:49-61 | each row has its month's bucket, and the bucket holds exactly that month's sum |
| Reports.BucketsExactly | api/src/modules/analytics/analytics.repository.ts:49-61 | the buckets are exactly the months that have rows, each with the sum of its own |
| ReportFigures.SalesReportAgrees | api/src/modules/analytics/analytics.service.ts:16-31 | the sales report against the listed orders: as many orders as are listed, the sum of the uncancelled totals, an average within half a cent per order of it (0 without orders), and monthly buckets that rise and add up to the uncancelled totals dated from twelve months back |
| ReportFigures.MonthlyRevenueIsListed | api/src/modules/analytics/analytics.repository.ts:49-61 | a month has a bucket if and only if something uncancelled of the window is listed for it, and the bucket holds the sum of those totals |
| ReportFigures.MonthlyGrowthIsListed | api/src/modules/analytics/analytics.repository.ts:63-74 | a month has a growth bucket if and only if listed customers of the window came in it, and the bucket holds their number |
| ReportFigures.BreakdownIsListed | api/src/modules/analytics/analytics.repository.ts:76-83 | the breakdown counts the listed orders of each status and leaves out the statuses without any |
| ReportFigures.ConversionIsListed | api/src/modules/analytics/analytics.service.ts:41-52 | the conversion rate is, to the nearest hundredth of a percent, the share of the customers listed as ordered or delivered among all listed ones, 0 without customers |
| Reports.CustomerGrowthAgrees | api/src/modules/analytics/analytics.repository.ts:63-74 | new customers per month rise by month and add up to the customers created in the window |
| Reports.StepMovesRevenue | api/src/modules/analytics/analytics.repository.ts:33-39 | every request moves revenue by exactly the change in its own orders' non-cancelled totals, cascades included, and nobody else's |
| Reports.RunMovesRevenue | api/src/modules/analytics/analytics.repository.ts:33-39 | over any run revenue moves by the sum of those changes |
| Reports.ConversionRateIsAShare | api/src/modules/analytics/analytics.service.ts:41-52 | the conversion rate is the rounded share of converted customers and stays within 0 to 100 percent |
| Calendar.MinusMonthsLands | api/src/modules/analytics/analytics.repository.ts:56-56 | subtracting n months lands in the month n back |
| Calendar.MinusMonthsKeepsDayAndTime | api/src/modules/analytics/analytics.repository.ts:56-57 | subtracting n months keeps the time of day and the day of the month, or takes the last day of a shorter month |
| Calendar.YearTable | api/src/modules/analytics/analytics.repository.ts:52-56 | the month boundaries follow the calendar's table in every year, leap years included |
| Calendar.NewYearsDay | api/src/modules/analytics/analytics.repository.ts:52-56 | year y starts 365 days per year gone by and one more per leap year after 1970, by the rule of fours, hundreds and four hundreds |
| Listings.CardCountsAgree | api/src/modules/customer/customer.repository.ts:8-12 | the order and note counts on a customer's card are the sizes of the lists one gets by asking for them |
| Listings.OrderShowsItsCustomer | api/src/modules/order/order.repository.ts:8-10 | in every reachable store a listed order shows a customer of the organization as it now stands |
| Listings.DashboardAgrees | api/src/modules/dashboard/dashboard.service.ts:28-36 | the dashboard counts are the sizes of the corresponding lists, and its revenue is the sum of the totals of the listed uncancelled orders |
| Secrets.RepliesRevealOnlyChecks | api/src/modules/auth/auth.service.ts:54-217 | two auth runs with other passwords in force and typed, in which every password check comes out the same, get the same replies throughout, user records included |
| Secrets.PasswordsNeverShow | api/src/modules/auth/auth.service.ts:54-217 | had everyone chosen other passwords, equal where they are equal now, no reply of any run would differ |
| Secrets.SanitizeDropsOnlyTheHash | api/src/modules/user/user.service.ts:23-26 | what leaves of a user is every column but the hash |
| Money.AverageIsClose | api/src/modules/analytics/analytics.service.ts:26-26 | the average order value times the count misses the revenue by at most half a cent per order |
| Caches.AnswersAreRecent | api/src/modules/dashboard/dashboard.service.ts:24-40 | every cached answer is what the same organization's query gave on the database at an earlier read less than 30 s (sales: 60 s) ago |
| Caches.AnswersNeverGoBack | api/src/modules/analytics/analytics.service.ts:16-31 | with each read served in one piece, the snapshots behind successive answers never go backwards |
| Caches.ComputesExactlyWhen | api/src/infra/redis/redis.service.ts:20-32 | a read recomputes if and only if the last fill is at least the lifetime ago, or there was none |
| Caches.StoreHoldsLastFill | api/src/infra/redis/redis.service.ts:25-32 | under an organization's key the store holds its own latest fill and nothing else, whatever else is written |
| Caches.MarksOutlastReads | api/src/infra/redis/redis.service.ts:54-56 | a logout's mark stays as it was written, whatever is read and requested after it, until the same jti is marked again |
| CacheRaces.GoesBackExactlyWhen | api/src/modules/dashboard/dashboard.service.ts:24-40 | with lookup, query and fill as separate steps, figures older than a past step can be answered later on if and only if such figures are still kept, or a read in flight has computed them and not yet kept them |
| CacheRaces.OlderIsAnswered | api/src/modules/dashboard/dashboard.service.ts:24-40 | concretely: two reads miss together, the second computes last and answers first, and then the first answers with its older figures |
| CacheRaces.UninterruptedIsReadThrough | api/src/modules/dashboard/dashboard.service.ts:24-40 | the steps of a read that nothing interrupts are the read-through |
| Redis.KeysNeverMeet | api/src/common/constants/index.ts:20-23 | no two organizations and no two uses of the store share a key |
| Pagination.PagesPartition | api/src/common/dto/pagination.dto.ts:61-71 | pages 1..totalPages put together are the whole result in order, for any limit >= 1 |
| Pagination.OnExactlyOnePage | api/src/modules/order/order.repository.ts:70-79 | when the result repeats nothing, each element is on exactly one page |
| Pagination.NextPageExactlyWhen | api/src/common/dto/pagination.dto.ts:61-71 | hasNextPage holds exactly when elements remain past the page, and exactly when the next page is not empty; hasPrevPage exactly when elements lie before it |
| Pagination.PagesBeyondAreEmpty | api/src/common/dto/pagination.dto.ts:42-44 | pages past totalPages are empty |
| ExtensionIdentity.OneCustomerPerFacebookId | api/prisma/schema.prisma:218-218 | every reachable store has at most one customer per organization and facebookId |
| ExtensionIdentity.SyncRefreshesMessengerFields | api/src/modules/customer/customer.repository.ts:94-109 | syncing an existing customer writes its four messenger fields and nothing else anywhere |
| ExtensionIdentity.FirstContactCreates | api/src/modules/extension/extension.service.ts:53-62 | the first extension request for an unknown facebookId creates exactly one customer that has it |
| ExtensionIdentity.StepKeepsIdentity | api/src/modules/customer/customer.service.ts:43-55 | a customer loses its facebookId exactly when its organization deletes it or edits the id |
| ExtensionIdentity.ExtensionWritesLandOnOneCustomer | api/src/modules/extension/extension.service.ts:27-62 | until then every note, order and sync for the facebookId lands on that one customer, in every run |
| Undo.UndoRestores | api/src/modules/customer/customer.service.ts:25-72 | creates, status changes, assignments, note, tag, profile and customer updates, updates of orders that some money inputs compute, attach, detach, presigned uploads, first contacts through the extension and its notes and orders, and role changes that demote no OWNER or come from one: each has a single request that puts the store back exactly |
| TakeBack.TakenBackExactlyWhen | api/src/modules/customer/customer.service.ts:25-72 | over all sequences of later requests by the same caller, with new ids and a clock that is not set back: a successful request can be taken back if and only if it is none of these: a removal; an update of an order whose money columns no inputs compute; a demotion of an OWNER by another role; the confirmation of an upload not yet confirmed; a sync later than the customer's last contact time or bringing its first message |
| TakeBack.NonOwnersMakeNoOwner | api/src/modules/user/user.service.ts:56-64 | callers whose tokens do not say OWNER make nobody an owner, whatever requests they make and whatever ids and clocks they get |
| Undo.OrderUpdateUndoneExactlyWhen | api/src/modules/order/order.service.ts:59-76 | putting an updated order's fields back as stored, in whole cents, restores it if and only if its total was exact before |
| Undo.OrderPatchLaws | api/src/modules/order/order.service.ts:66-73 | the same for orders, the total always recomputed from the stored fields |
| Undo.OrderPatchesCompose | api/src/modules/order/order.service.ts:66-73 | whole-cent order updates compose, totals included |
| Undo.PivotUndone | api/src/modules/tag/tag.repository.ts:48-58 | attach and detach take each other back and are idempotent |
| CustomerService.CustomerRepository.IndexAdmits | api/prisma/schema.prisma:218-218 | decides the (organization, facebookId) index |
| TagService.TagRepository.IndexAdmits | api/prisma/schema.prisma:242-242 | decides the (organization, name) index |
| Server.Server.Handle | api/src/common/guards/tenant.guard.ts:20-44 | an authenticated request is refused without an organization; otherwise it takes the in-place tables exactly one step of the store specification under the token's identity and keeps them consistent |
| TenantContext.TenantGuard.CanActivate | api/src/common/guards/tenant.guard.ts:20-44 | passes exactly public, tenant-free or organization-carrying requests; binds the context to the token's identity and otherwise leaves it alone |
| TenantContext.TenantContext.RequireOrganizationId | api/src/common/context/tenant-context.service.ts:38-44 | the organization of the context, or an error when it is missing or empty |
| TenantContext.TenantContext.Set | api/src/common/context/tenant-context.service.ts:46-50 | sets user, organization and role |
| CustomerService.CustomerRepository.Create | api/src/modules/customer/customer.repository.ts:23-27 | inserts for the caller's organization unless the facebookId index refuses |
| CustomerService.CustomerRepository.FindById | api/src/modules/customer/customer.repository.ts:29-34 | the caller's customer with its joins, or none |
| CustomerService.CustomerRepository.Assigned | api/src/modules/customer/customer.repository.ts:36-41 | column by column, the merge that an update specifies |
| CustomerService.CustomerRepository.Update | api/src/modules/customer/customer.repository.ts:36-41 | scoped write, index check and re-read by bare id; touches one row or nothing, and answers the re-read row or an error |
| CustomerService.CustomerRepository.WhereColumns | api/src/modules/customer/customer.repository.ts:47-62 | the organization's customers that meet the criteria on their own columns |
| CustomerService.CustomerRepository.Where | api/src/modules/customer/customer.repository.ts:47-64 | and the tag criterion |
| CustomerService.CustomerRepository.FindMany | api/src/modules/customer/customer.repository.ts:66-76 | their cards |
| CustomerService.CustomerRepository.Delete | api/src/modules/customer/customer.repository.ts:43-45 | deletes the caller's customer with every cascaded row, or nothing |
| CustomerService.CustomerRepository.SetStatus | api/src/modules/customer/customer.repository.ts:78-83 | writes the status of the caller's customer only |
| CustomerService.CustomerRepository.FindByFacebookId | api/src/modules/customer/customer.repository.ts:89-91 | the one customer with the facebookId in the organization, or none |
| CustomerService.CustomerRepository.UpsertByFacebookId | api/src/modules/customer/customer.repository.ts:94-109 | refreshes the messenger fields of the customer that has the id, else inserts |
| CustomerService.CustomerService.AssertAgentInOrg | api/src/modules/customer/customer.service.ts:75-80 | true exactly for users of the caller's organization |
| CustomerService.CustomerService.Create | api/src/modules/customer/customer.service.ts:25-30 | new state and reply equal the specified create, errors included |
| CustomerService.CustomerService.FindAll | api/src/modules/customer/customer.service.ts:32-35 | every matching customer of the organization |
| CustomerService.CustomerService.FindOne | api/src/modules/customer/customer.service.ts:37-41 | the customer or NotFound |
| CustomerService.CustomerService.Update | api/src/modules/customer/customer.service.ts:43-49 | new state and reply equal the specified update in each of its four outcomes |
| CustomerService.CustomerService.Remove | api/src/modules/customer/customer.service.ts:51-55 | new state and reply equal the specified delete with cascades |
| CustomerService.CustomerService.ChangeStatus | api/src/modules/customer/customer.service.ts:57-62 | new state and reply equal the specified status change |
| CustomerService.CustomerService.Assign | api/src/modules/customer/customer.service.ts:64-72 | new state and reply equal the specified assignment |
| OrderService.OrderRepository.CustomerInOrg | api/src/modules/order/order.repository.ts:21-26 | true exactly for the caller's customers |
| OrderService.OrderRepository.Create | api/src/modules/order/order.repository.ts:28-30 | inserts unless the (organization, number) index refuses |
| OrderService.OrderRepository.FindById | api/src/modules/order/order.repository.ts:32-37 | the caller's order with its customer, or none |
| OrderService.OrderRepository.Where | api/src/modules/order/order.repository.ts:54-68 | the organization's orders that meet the criteria |
| OrderService.OrderRepository.FindMany | api/src/modules/order/order.repository.ts:70-79 | their cards |
| OrderService.OrderRepository.Update | api/src/modules/order/order.repository.ts:39-41 | writes the caller's order or nothing |
| OrderService.OrderRepository.Delete | api/src/modules/order/order.repository.ts:43-45 | deletes the caller's order or nothing |
| OrderService.OrderRepository.NextOrderNumber | api/src/modules/order/order.repository.ts:82-86 | the formatted count + 1 of the caller's orders |
| OrderService.OrderService.Create | api/src/modules/order/order.service.ts:23-46 | new state and reply equal the specified create, with both failures |
| OrderService.OrderService.FindAll | api/src/modules/order/order.service.ts:48-51 | every matching order of the organization |
| OrderService.OrderService.FindOne | api/src/modules/order/order.service.ts:53-57 | the order or NotFound |
| OrderService.OrderService.Assigned | api/src/modules/order/order.service.ts:66-73 | column by column, the merge that an update specifies, with the given total |
| OrderService.OrderService.Update | api/src/modules/order/order.service.ts:59-76 | new state and reply equal the specified partial merge and recompute |
| OrderService.OrderService.ChangeStatus | api/src/modules/order/order.service.ts:78-83 | new state and reply equal the specified status change |
| OrderService.OrderService.Remove | api/src/modules/order/order.service.ts:85-89 | new state and reply equal the specified delete |
| NoteService.NoteRepository.CustomerInOrg | api/src/modules/note/note.repository.ts:20-25 | true exactly for the caller's customers |
| NoteService.NoteRepository.Create | api/src/modules/note/note.repository.ts:27-31 | inserts unless the author does not exist |
| NoteService.NoteRepository.FindById | api/src/modules/note/note.repository.ts:33-38 | the caller's note with its author, or none |
| NoteService.NoteRepository.ListByCustomer | api/src/modules/note/note.repository.ts:40-46 | the organization's notes on the customer with their authors |
| NoteService.NoteRepository.Update | api/src/modules/note/note.repository.ts:48-53 | rewrites the content of the caller's note only |
| NoteService.NoteRepository.Delete | api/src/modules/note/note.repository.ts:55-57 | deletes the caller's note or nothing |
| NoteService.NoteService.Create | api/src/modules/note/note.service.ts:14-22 | new state and reply equal the specified create |
| NoteService.NoteService.ListByCustomer | api/src/modules/note/note.service.ts:24-26 | the organization's notes of the customer |
| NoteService.NoteService.GetOrThrow | api/src/modules/note/note.service.ts:39-43 | the note or NotFound |
| NoteService.NoteService.Update | api/src/modules/note/note.service.ts:28-32 | new state and reply equal the specified update |
| NoteService.NoteService.Remove | api/src/modules/note/note.service.ts:34-37 | new state and reply equal the specified delete |
| TagService.TagRepository.Create | api/src/modules/tag/tag.repository.ts:16-18 | inserts unless the (organization, name) index refuses |
| TagService.TagRepository.FindAll | api/src/modules/tag/tag.repository.ts:20-25 | the organization's tags |
| TagService.TagRepository.FindById | api/src/modules/tag/tag.repository.ts:27-29 | the caller's tag or none |
| TagService.TagRepository.Update | api/src/modules/tag/tag.repository.ts:31-33 | renames or recolours the caller's tag unless the index refuses |
| TagService.TagRepository.Delete | api/src/modules/tag/tag.repository.ts:35-37 | deletes the caller's tag with its links, or nothing |
| TagService.TagRepository.CustomerInOrg | api/src/modules/tag/tag.repository.ts:41-46 | true exactly for the caller's customers |
| TagService.TagRepository.Attach | api/src/modules/tag/tag.repository.ts:48-54 | adds exactly the one link |
| TagService.TagRepository.Detach | api/src/modules/tag/tag.repository.ts:56-58 | removes exactly the one link |
| TagService.TagService.Create | api/src/modules/tag/tag.service.ts:10-12 | new state and reply equal the specified create |
| TagService.TagService.FindAll | api/src/modules/tag/tag.service.ts:14-16 | the organization's tags |
| TagService.TagService.Update | api/src/modules/tag/tag.service.ts:18-22 | new state and reply equal the specified update |
| TagService.TagService.Remove | api/src/modules/tag/tag.service.ts:24-27 | new state and reply equal the specified delete with its links |
| TagService.TagService.Attach | api/src/modules/tag/tag.service.ts:29-34 | new state and reply equal the specified attach, with both pre-checks |
| TagService.TagService.Detach | api/src/modules/tag/tag.service.ts:36-39 | new state and reply equal the specified detach, which checks the tag only |
| UserService.UserRepository.FindById | api/src/modules/user/user.repository.ts:15-17 | the user by bare id, from any organization |
| UserService.UserRepository.FindMany | api/src/modules/user/user.repository.ts:53-79 | the organization's users |
| UserService.UserRepository.Update | api/src/modules/user/user.repository.ts:34-36 | writes one row by bare id, or fails where there is none |
| UserService.UserService.GetInOrg | api/src/modules/user/user.service.ts:66-73 | the user only if it belongs to the caller's organization |
| UserService.UserService.FindOne | api/src/modules/user/user.service.ts:45-48 | the user without its password hash, or NotFound |
| UserService.UserService.List | api/src/modules/user/user.service.ts:34-43 | the organization's users without password hashes |
| UserService.UserService.Update | api/src/modules/user/user.service.ts:50-54 | new state and reply equal the specified profile update |
| UserService.UserService.ChangeRole | api/src/modules/user/user.service.ts:56-64 | new state and reply equal the specified role change, OWNER only by OWNER |
| FileService.FileRepository.Create | api/src/modules/file/file.repository.ts:16-18 | inserts unless the global key index refuses |
| FileService.FileRepository.FindByKey | api/src/modules/file/file.repository.ts:20-22 | the caller's file with the key, or none |
| FileService.FileRepository.FindById | api/src/modules/file/file.repository.ts:24-26 | the caller's file or none |
| FileService.FileRepository.MarkStatus | api/src/modules/file/file.repository.ts:28-30 | sets the status of one row by bare id, or fails where there is none |
| FileService.FileRepository.Delete | api/src/modules/file/file.repository.ts:32-34 | deletes the caller's file or nothing |
| FileService.FileService.PresignUpload | api/src/modules/file/file.service.ts:20-36 | new state and reply equal the specified pending upload |
| FileService.FileService.ConfirmUpload | api/src/modules/file/file.service.ts:38-43 | new state and reply equal the specified confirmation |
| FileService.FileService.GetDownloadUrl | api/src/modules/file/file.service.ts:45-51 | the caller's file or NotFound |
| FileService.FileService.Remove | api/src/modules/file/file.service.ts:53-58 | new state and reply equal the specified delete |
| ExtensionService.ExtensionService.SyncCustomer | api/src/modules/extension/extension.service.ts:27-36 | new state and reply equal the specified sync |
| ExtensionService.ExtensionService.ResolveCustomer | api/src/modules/extension/extension.service.ts:53-62 | finds the customer or creates the lightweight one |
| ExtensionService.ExtensionService.AddNote | api/src/modules/extension/extension.service.ts:38-41 | new state and reply equal the specified find-or-create and note |
| ExtensionService.ExtensionService.CreateOrder | api/src/modules/extension/extension.service.ts:43-51 | new state and reply equal the specified find-or-create and order |
| RedisService.RedisService.Get | api/src/infra/redis/redis.service.ts:20-23 | a value strictly before its expiry, else nothing |
| RedisService.RedisService.Set | api/src/infra/redis/redis.service.ts:25-32 | a positive TTL sets an expiry, a missing or zero one none |
| RedisService.RedisService.Del | api/src/infra/redis/redis.service.ts:34-36 | removes exactly the named keys |
| RedisService.RedisService.BlacklistToken | api/src/infra/redis/redis.service.ts:54-56 | marks the jti until its TTL is over |
| RedisService.RedisService.IsBlacklisted | api/src/infra/redis/redis.service.ts:58-60 | true exactly while the mark is alive |
| DashboardService.DashboardService.Stats | api/src/modules/dashboard/dashboard.service.ts:24-40 | answer and new cache equal the specified read-through with 30 s |
| DashboardService.DashboardService.Sales | api/src/modules/analytics/analytics.service.ts:16-31 | answer and new cache equal the specified read-through with 60 s |
| AuthService.AuthRepository.CreateRefreshToken | api/src/modules/auth/auth.repository.ts:13-22 | appends the row |
| AuthService.AuthRepository.RevokeRefreshToken | api/src/modules/auth/auth.repository.ts:28-33 | stamps the one row, revoked before or not, or fails where there is none |
| AuthService.AuthRepository.RevokeFamily | api/src/modules/auth/auth.repository.ts:36-41 | stamps exactly the unrevoked rows of the family |
| AuthService.AuthRepository.RevokeAllForUser | api/src/modules/auth/auth.repository.ts:43-48 | stamps exactly the unrevoked rows of the user |
| AuthService.AuthRepository.CreateVerificationToken | api/src/modules/auth/auth.repository.ts:52-59 | appends the row |
| AuthService.AuthRepository.MarkVerificationUsed | api/src/modules/auth/auth.repository.ts:67-72 | stamps the one row, or fails where there is none |
| AuthService.TokenService.IssueTokens | api/src/modules/auth/token.service.ts:68-83 | signs an access token with the user's role and organization and a refresh token of the family |
| AuthService.AuthService.IssueAndPersist | api/src/modules/auth/auth.service.ts:228-243 | signs a pair and stores the refresh half in the family |
| AuthService.AuthService.Register | api/src/modules/auth/auth.service.ts:54-78 | new state and reply equal the specified registration from the user row on, the user record included |
| AuthService.AuthService.Login | api/src/modules/auth/auth.service.ts:83-104 | new state and reply equal the specified login, the record as before it included |
| AuthService.AuthService.Refresh | api/src/modules/auth/auth.service.ts:109-136 | new state and reply equal the specified rotation with reuse detection |
| AuthService.AuthService.Logout | api/src/modules/auth/auth.service.ts:141-149 | new state equals the specified logout |
| AuthService.AuthService.ForgotPassword | api/src/modules/auth/auth.service.ts:154-167 | new state equals the specified request for a reset mail |
| AuthService.AuthService.ResetPassword | api/src/modules/auth/auth.service.ts:169-182 | new state and reply equal the specified reset |
| AuthService.AuthService.VerifyEmail | api/src/modules/auth/auth.service.ts:187-197 | new state and reply equal the specified verification |
| AuthService.AuthService.Me | api/src/modules/auth/auth.service.ts:213-217 | the caller's record without its hash, or unauthorized |
| AuthService.AuthService.ChangePassword | api/src/modules/auth/auth.service.ts:202-211 | new state and reply equal the specified change |
| Accounts.TokenActsAsItsUser | api/src/common/guards/tenant.guard.ts:37-42 | whoever presents a newly issued access token acts as the user that the request was about, in that user's organization and role |
| Accounts.OwnerLogsIn | api/src/modules/auth/auth.service.ts:54-92 | after a registration its user logs in with the password of the registration and with no other, at any time |
| Accounts.FirstTokenRotates | api/src/modules/auth/auth.service.ts:54-136 | the refresh token of a registration rotates if and only if neither its own lifetime nor the stored one is over |
| Accounts.VerificationMailWorks | api/src/modules/auth/auth.service.ts:187-254 | the token mailed at registration verifies the address if and only if its day is not over, sets emailVerified and nothing else of the user, and never resets a password |
| Accounts.NewPasswordIsInForce | api/src/modules/auth/auth.service.ts:83-211 | after a successful reset or change the user logs in with the new password and no other, if active |
| Accounts.ResetMailWorks | api/src/modules/auth/auth.service.ts:154-197 | the token mailed for a forgotten password resets it if and only if its hour is not over, and never verifies an address |
| AuthEffects.TokensCarryTheRow | api/src/modules/auth/token.service.ts:33-83 | whatever answers with a pair, its access token says the id, organization, role and email that stand in the user's row, the drawn jti and the configured expiry; its refresh token names that user and the family, is signed, and is the newest stored row, with the stored lifetime |
| AuthEffects.Registered | api/src/modules/auth/auth.service.ts:54-78 | a registration stores an active, unverified OWNER with the given email, names and password and a verification mail good for a day, and answers with that record |
| AuthEffects.LoggedIn | api/src/modules/auth/auth.service.ts:83-104 | a login succeeds exactly for an active user and its password, notes the time, and shows the record from before |
| AuthEffects.RefreshStamps | api/src/modules/auth/auth.service.ts:109-136 | refresh refuses exactly the tokens that are not signed here or past their exp; on reuse it stamps the unrevoked rows of the token's family, on success the token's own row, and no other old row changes |
| AuthEffects.LoggedOut | api/src/modules/auth/auth.service.ts:141-149 | logout stamps exactly the unrevoked rows of the token it is given and blacklists exactly the non-empty jti it is given, for the stored refresh lifetime |
| AuthEffects.Redeemed | api/src/modules/auth/auth.service.ts:169-197 | redeeming a mail writes the one column of its user, marks that mail alone, and a reset stamps the user's unrevoked rows |
| AuthEffects.PasswordChanged | api/src/modules/auth/auth.service.ts:202-211 | a change of password demands the current one, writes the new one and stamps exactly the user's unrevoked rows |
| RecordEffects.CustomerCreated | api/src/modules/customer/customer.service.ts:25-30 | a created customer holds each given field in the column of its own name, else the schema default: NEW, no message, no contact time, created now; refused exactly for an agent outside the organization or a taken facebookId |
| RecordEffects.CustomerUpdated | api/src/modules/customer/customer.service.ts:43-49 | each given field of an update lands in its column, every other column stays; the four outcomes by their conditions |
| RecordEffects.CustomerStatusChanged | api/src/modules/customer/customer.service.ts:57-62 | the caller's customer gets the status, in the table and in the reply, and nothing else changes; NotFound for any other id |
| RecordEffects.CustomerAssigned | api/src/modules/customer/customer.service.ts:64-72 | the agent is written, or cleared, if the customer and the agent are of the organization |
| RecordEffects.CustomerRemoved | api/src/modules/customer/customer.service.ts:51-55 | a delete takes the customer, its orders, notes and tag links, and nothing else |
| RecordEffects.OrderCreated | api/src/modules/order/order.service.ts:23-46 | a created order holds its input in the columns of the same names, money to the nearest cent, the total of the inputs clamped at zero, the schema defaults and the number after the count; refused exactly for a customer outside the organization or where that number is taken |
| RecordEffects.OrderUpdated | api/src/modules/order/order.service.ts:59-76 | each given field of an update lands in its column, money rounded, every other column stays, and the total is that of the merged fields |
| RecordEffects.OrderStatusChanged | api/src/modules/order/order.service.ts:78-83 | the caller's order gets the status, in the table and in the reply, and nothing else changes; NotFound for any other id |
| RecordEffects.OrderRemoved | api/src/modules/order/order.service.ts:85-89 | a delete takes the one order |
| RecordEffects.NoteCreated | api/src/modules/note/note.service.ts:14-22 | a note on a customer of the organization, written by the caller, now |
| RecordEffects.NoteUpdated | api/src/modules/note/note.service.ts:28-32 | the content of the caller's note alone |
| RecordEffects.TagCreated | api/src/modules/tag/tag.service.ts:10-12 | a tag of the given name, of the given colour or the default, unless the organization has the name |
| RecordEffects.TagUpdated | api/src/modules/tag/tag.service.ts:18-22 | the given ones of name and colour alone, unless another tag of the organization has the name |
| RecordEffects.TagPivotWritten | api/src/modules/tag/tag.service.ts:29-39 | attach adds the one link and detach removes it, with their checks |
| RecordEffects.UserUpdated | api/src/modules/user/user.service.ts:50-54 | the given ones of the three profile columns alone |
| RecordEffects.UserRoleChanged | api/src/modules/user/user.service.ts:56-64 | the role of a user of the organization; refused exactly where OWNER is given by anyone else than an OWNER |
| RecordEffects.UploadPresigned | api/src/modules/file/file.service.ts:20-36 | a pending file of the caller under a key that reads back as organization, second and sanitised name; refused exactly where the key is taken |
| RecordEffects.UploadConfirmed | api/src/modules/file/file.service.ts:38-43 | the status of the caller's file with the key alone |
| RecordEffects.NewcomerSynced | api/src/modules/extension/extension.service.ts:27-36 | a sync of an unknown facebookId creates a customer with the synced fields and the source "extension" |
| RecordEffects.ContactSynced | api/src/modules/customer/customer.repository.ts:94-109 | a sync of a known one writes the messenger fields that are given and the contact time |
| RecordEffects.ExtensionNoteWritten | api/src/modules/extension/extension.service.ts:38-41 | an extension note lands on the contact or on a newcomer under its bare facebookId |
| RecordEffects.ExtensionOrderWritten | api/src/modules/extension/extension.service.ts:43-51 | and an extension order likewise, of one piece unless the quantity says otherwise |
| RecordEffects.CustomersRead | api/src/modules/customer/customer.service.ts:32-41 | a list holds exactly the organization's customers that meet the criteria, each as its row stands |
| RecordEffects.OrdersRead | api/src/modules/order/order.service.ts:48-57 | likewise for orders |
| OrderNumbers.NumberIsPadded | api/src/modules/order/order.repository.ts:85-85 | a number is written with the prefix and at least five digits, more only where it needs them |
| Money.RoundsHalvesAway | api/src/modules/order/order.service.ts:17-21 | a rounded column is the nearest cent and rounds a half away from zero |
| Redis.SetThenGet | api/src/infra/redis/redis.service.ts:20-32 | what is set is read back until its TTL is over, or always without one, and every other key reads as before |
| Listings.CustomerListingAgrees | api/src/modules/customer/customer.service.ts:32-41 | the list holds exactly the customers that can be found singly, with the same card |
| Listings.OrderListingAgrees | api/src/modules/order/order.service.ts:48-57 | likewise for orders |
| Listings.CustomerFiltersNarrow | api/src/modules/customer/customer.repository.ts:47-53 | each criterion keeps exactly the cards that meet it, an empty source keeping all |
| Listings.OrderFiltersNarrow | api/src/modules/order/order.repository.ts:54-59 | likewise for orders |
| Listings.TagFilterAgrees | api/src/modules/customer/customer.repository.ts:53-53 | filtering by tag keeps exactly the cards that show the tag |
| Undo.CustomerPatchLaws | api/src/modules/customer/customer.repository.ts:36-41 | absent fields stay, present ones land in their own column, and two updates equal the combined one |
| Listings.AgentOnCard | api/src/modules/customer/customer.repository.ts:8-12 | a card shows exactly the assigned agent, a user of the organization under its own name |
| Listings.AuthorOnCard | api/src/modules/note/note.repository.ts:7-9 | a note shows exactly its author, a user of the organization under its own name |

## Left out

- The lookup of a user by e-mail is an input of login and forgot-password, and the slug loop, the organization row
  and the subscription row of registration come before the modelled part.
- Interleaving is modelled for the requests of AuthService, for order creation and for the cached reads; the other
  requests on the tenant store are atomic steps, and the figures of one cached read are computed in one step, where
  the code sends several queries together.
- `SetActive` and `Activate` stand for an operator who changes `isActive` in the database; no endpoint does.
- User, organization and account deletion, and with them `ON DELETE SET NULL`, which no modelled request triggers.
- The search filter (`ILIKE`) and `sortBy`/`sortOrder`: listings are the whole filtered result, and `Pagination`
  cuts any fixed ordering of it.
- CustomerService.CustomerRepository.WhereColumns: does not model the search criterion.
- CustomerService.CustomerRepository.Where: does not model the search criterion.
- CustomerService.CustomerRepository.FindMany: does not model search, order and page window.
- CustomerService.CustomerService.FindAll: does not model search, order and page window.
- OrderService.OrderRepository.Where: does not model the search criterion.
- OrderService.OrderRepository.FindMany: does not model search, order and page window.
- OrderService.OrderService.FindAll: does not model search, order and page window.
- NoteService.NoteRepository.ListByCustomer: does not model the order by creation date.
- NoteService.NoteService.ListByCustomer: does not model the order by creation date.
- TagService.TagRepository.FindAll: does not model the order by name.
- TagService.TagService.FindAll: does not model the order by name.
- UserService.UserRepository.FindMany: does not model search, order and page window.
- UserService.UserService.List: does not model search, order and page window.
- Columns that no result depends on: `updatedAt`, `createdAt` of users, tags and files, `ip`, `userAgent`, `url`.
- Audit log, mail, queues, notifications, subscriptions, organization profile, and the calls to R2: only the file
  rows are modelled.
- Controllers, DTO validation and defaults, and the role-to-permission matrix, which admits fewer calls still.
- Floating point: totals are computed on exact reals, and a column never overflows Decimal(12,2).
- RedisService.RedisService.BlacklistToken: does not model that Redis rejects an expiry of 0 seconds; here such an
  entry is dead at once.
- `delByPattern`, which has no caller.
- FileService.FileService.PresignUpload: does not model the url column and the presigned upload in the answer, both
  made by R2.
- FileService.FileService.GetDownloadUrl: does not model the signed link in the answer, which R2 makes.
- What the JWT library makes of a lifetime setting is an input (`accessTtl` and `signedTtl` of `Env`). The lemmas on
  settings as written suppose that it reads a number with a unit s, m, h, d or w as that many of those.
- Dates before 1970 stand for the epoch in `MinusMonths`.
- The key-value store is one store in production; the cache theorems put the blacklist writes into the same store,
  while `AuthService` sees its blacklist entries only.
- Services require the guard to have bound the tenant context; `RequireOrganizationId` models the error that the
  code raises otherwise.
- `Server.Handle` answers the dashboard request uncached; the cached one is `DashboardService.Stats`.
