# Commerce core: money, stock and delivery protocols

A Dafny model of the step machines at the heart of a marketplace back end: the
cashback engine that repays an order in monthly installments, the event bus with its
dead-letter queue, cart pricing and checkout, stock reservations, returns and refund
settlement, the idempotency middleware, refresh-token rotation, the upload limiter and
the product listing query builder.

Tables and Redis keys are sequences and maps; unique keys, CHECK constraints, atomic
scripts and all-or-nothing transactions appear as explicit conditions. Concurrent code
is a machine whose steps are single calls into the database, Redis, the payment provider
or a handler; a run is any sequence of enabled steps. Code that updates objects in place
is a class whose methods are tied to the functions the theorems speak about. What comes
from outside (failures, the clock, other workers' commits, map iteration order, the
calendar) is a parameter. `dafny verify dfyconfig.toml` checks everything. Every lemma
carries `{:induction false}`: the proofs are written out and do not lean on automatic
induction.

## Layout

| files | subject |
|---|---|
| `CashbackTerms`, `CashbackDb`, `CashbackRuns`, `CashbackCron`, `CashbackBatch`, `CashbackLoop`, `CashbackMonths` | schedule arithmetic; tables and the payment transaction; whole runs; the two retry loops; one round of the monthly batch; its loop; month after month |
| `DeadLetters`, `EventBus`, `EventBusCounts` | attempt log and dead-letter table; delivery machine; what the attempt counts mean |
| `Pricing`, `Coupons`, `CartPricing`, `CartDisplay`, `Checkout`, `CheckoutSaga` | rounding; coupons; totals; the displayed cart; grouping by seller; the saga |
| `Stock`, `CartService` | interleaved reservations; one reservation call |
| `Returns`, `ReturnBounds`, `RefundSettlement` | return requests; bounds over all of them; approve and reject |
| `Idempotency`, `RefreshTokens`, `UploadLimiter` | one machine each |
| `Slugs`, `QueryBuilder`, `ListingQuery` | slug order; clauses, placeholders and their meaning; the queries |
| `Options`, `Faults`, `Sets`, `Sums` | shared definitions |

## Where the code does not do what is expected of it

Each item names the lemma or contract clause that states it, with a concrete case, an exact
condition, or both.

- The last installment of a plan sets `plans.status` to `completed`, which the CHECK in
  `deploy/postgres-ledger/init/50-cashback-schema.sql:25-26` does not admit and no
  migration widens: under that CHECK no run ever pays a balloon
  (`BalloonUnpaidUnderOldStatusCheck`; the exact condition is `FreshLandsIff`). The same
  file admits only periods 202600 to 209912; outside them no payment lands either.
- Workers of two periods alive at once can pay two installments with one credit
  (`OverlappingPeriodsLoseACredit`); a landing payment keeps the books exactly when its
  snapshot's counter is current (`InstallmentKeepsInvIff`, `StaleBreaksInv`).
- The monthly loop does not end when fifty or more due plans are stuck, because a wallet
  is frozen or the schema refuses a last installment or the period. It ends exactly when
  fewer are stuck (`LoopEndsIff`), and it pays exactly the due plans that are neither
  stuck nor behind fifty stuck ones (`PaidInTimeIff`); `FrozenBatch` is such a batch.
- Orders are inserted before their checkout session, and
  `migrations/ecom/0059_orders_v8.up.sql:8-9` makes the reference an immediate foreign
  key, so as shipped no checkout persists. A call persists exactly when it reaches the
  database, the key waits for the commit, every line makes an item that the CHECKs of
  `deploy/postgres-ecom/init/65-order-schema.sql:5-52` accept, and its transaction is not
  rolled back (`Shop.InitiateCheckout`). The commission table admits rates whose lines
  are refused (`AdmittedRatesCanBeRefused`).
- A dead letter's `attempt_count` exceeds the real failures, then by one, exactly when the
  rows of all failed deliveries stand in the window the scan reads (`CountTooHighIff`);
  `CountCanExceedFailures` is a dead letter that counts three failures of two. Ten early
  rows with at most one failure keep a message out of the queue as long as they stay
  (`StarvedWhileWindowStands`).
- The comment at `internal/order/coupon.go:73-74` says that preview and charge agree; they
  agree exactly when the units' rounding gains sum to -49..50 hundredths
  (`PreviewExactIff`, `PreviewCanDiffer`).
- The order page offers the rest of a partly returned item, and
  `UNIQUE (order_id, order_item_id)` refuses every request that contains it, for every
  reading of the quantities (`CreatedIff`); returning "everything that is left" works
  exactly when some item is untouched and none is partly returned (`ReturnTheRestIff`).
- A rejection acting on a stale reading overwrites a settled refund, for good; a run keeps
  refunds and events in step exactly when no rejection lands on a refunded return
  (`SettledIff`, `StaleRejectAfterApprove`). The other way round, a stale approval pays a
  rejected return out (`StaleApproveAfterReject`); no decision is ever changed exactly
  when every landing approval hits a pending return or one whose event exists, and no
  landing rejection hits a refunded one (`DecisionsFinalIff`).
- The hourly limit of 50 uploads admits 99 in some hours, never more
  (`AtMost99PerHour`, `NinetyNineIsReached`).
- Presenting a revoked refresh token reports the family as revoked even when that
  transaction failed (`TheftKillsFamilyIff`, `LostTheftLeavesFamilyLive`). A client whose
  rotation committed but was not acknowledged loses its session when it tries again
  (`RetryAfterLostAckKillsFamily`).
- The hourly clean-up (`internal/identity/cleanup/cleanup.go:50-54`) deletes token rows 30
  days after their expiry, revoked ones of living sessions included. A revoked token is
  answered as theft exactly when no clean-up has reached its expiry; afterwards it is
  merely unknown and the session lives on (`ReuseIsTheftIff`, `CleanedUpTheftGoesUnseen`).
- A password reset or change writes the reason `password_reset`, which the CHECK in
  `migrations/ecom/0055_identity_schema.up.sql:85` does not admit, and the error is
  dropped (`internal/identity/service.go:742`, `internal/identity/service.go:775`): as
  shipped it revokes nothing (`ResetLogsOutIff`).
- A request for which Acquire reports an error runs its handler without the key: there are
  at most 1 + panics + Acquire errors executions, and only then can two overlap
  (`AllExecutions`, `BypassCanOverlap`).
- The interface comment on `Poll` (`internal/idempotency/store.go:44`) promises an empty
  result when the key disappears. For a key that is absent throughout, `Poll` never
  returns anything but a timeout or a cancellation (last clause of its contract).

## Model

| member | source | states |
|---|---|---|
| CashbackTerms.TermsAre | internal/cashback/calculator.go:35-58 | what the schedule is: T months with T*bps <= 156000 < (T+1)*bps, M per month with M*156000 <= price*bps < (M+1)*156000, and the balloon is the price less (T-1)*M |
| CashbackTerms.SchedulableIff | internal/cashback/calculator.go:35-58 | the inputs with a schedule are 0 < price <= 1e14, 100 <= bps <= 10000 and price*bps >= 156000 |
| CashbackTerms.TermsExact | internal/cashback/calculator.go:35-58 | a schedule is returned exactly for those inputs; the balloon check never fires; 15 <= T <= 1560; M <= balloon <= 2M+T; (T-1)*M + balloon is the price |
| CashbackTerms.TermsFitInt64 | internal/cashback/calculator.go:35-58 | no intermediate of the computation leaves int64 |
| CashbackTerms.InstallmentIs | internal/cashback/calculator.go:60-69 | M before the last month, the balloon in it, zero exactly outside the schedule |
| CashbackTerms.PaidThroughClosedForm | internal/cashback/calculator.go:60-69 | installments 1..k sum to k*M before the last month and to the price with it |
| CashbackTerms.PaidThroughBounded | internal/cashback/calculator.go:60-69 | the running total climbs strictly, stays within the price and reaches it only with the last installment |
| CashbackDb.TxnIndex | internal/wallet/service.go:60-173 | lookup by idempotency key finds a transaction with that key exactly when there is one |
| CashbackDb.PostMoves | internal/wallet/service.go:60-173 | a new key moves the amount from equity to the user, a used key moves nothing, and afterwards the key is in the ledger |
| CashbackDb.FreshKeepsInv | internal/cashback/run_month.go:161-243 | a payment from a current snapshot keeps the whole table invariant: counter = paid rows, ledger keys = 1..k, credits = debits = installments 1..k, distinct payments and transactions |
| CashbackDb.StaleBreaksInv | internal/cashback/run_month.go:93-160 | a landing payment from an outdated snapshot pays one more row and breaks the invariant; from a counter that is behind it moves no coin |
| CashbackDb.InstallmentKeepsInvIff | internal/cashback/run_month.go:93-244 | a payment keeps the invariant exactly when it does not land or the snapshot's counter is current |
| CashbackDb.FreshLandsIff | internal/cashback/repository.go:207-288 | a current snapshot with no payment in the period lands exactly when the period is admitted and, for the last installment, `completed` is an admitted status |
| CashbackDb.OthersUntouched | internal/cashback/run_month.go:161-243 | a payment leaves every other plan, its paid count and its money unchanged |
| CashbackRuns.CreateKeepsInv | internal/cashback/service.go:56-163 | creating a plan from a delivery, or finding it already there, keeps the invariant |
| CashbackRuns.DeliveryCreatesIff | internal/cashback/service.go:56-163 | a first schedulable delivery creates one active, unpaid plan with its order, user, price, rate, start date and terms; any other changes nothing |
| CashbackRuns.PlanOfDelivery | internal/cashback/service.go:56-163 | in every run an order gets a plan exactly when it has a schedulable delivery, and the plan carries the first one's data to the end |
| CashbackRuns.StepEffect | internal/cashback/run_month.go:34-66 | a listing hands out the rows as they are, a new period drops them, a status change touches one status |
| CashbackRuns.ListablePlanCanBePaid | internal/cashback/run_month.go:93-244 | from every reachable state a plan that may be listed can be listed and paid, where the schema admits it |
| CashbackRuns.PayKeepsSnapshot | internal/cashback/run_month.go:93-160 | other workers' snapshots of the same period stay current or already have a payment in the period |
| CashbackRuns.StepKeepsInv | internal/cashback/run_month.go:22-244 | every step of plan creation, listing, paying, status change and period change keeps the system invariant |
| CashbackRuns.RunKeepsInv | internal/cashback/run_month.go:22-244 | every run keeps it |
| CashbackRuns.CashbackConservation | internal/cashback/run_month.go:93-244 | in every reachable state credits = debits = installments 1..k <= price, payments_made = k, and completed exactly when k = T, exactly when the credits equal the price |
| CashbackRuns.OnePlanPerOrder | internal/cashback/repository.go:51-99 | no run gives an order two plans |
| CashbackRuns.PaymentsOwnTheirTransactions | internal/cashback/repository.go:207-253 | in every reachable state payment rows are paid, unique per (plan, period), and own distinct ledger transactions that move their amount from equity to the user |
| CashbackRuns.BalloonUnpaidUnderOldStatusCheck | deploy/postgres-ledger/init/50-cashback-schema.sql:25-26 | under the shipped CHECK every plan in every run stays short of its price by at least the balloon |
| CashbackRuns.OverlappingPeriodsLoseACredit | internal/cashback/run_month.go:95-99 | a January snapshot used in February yields two paid rows and one credit |
| CashbackCron.Repository.ClaimPaymentPeriod | internal/cashback/repository.go:207-232 | refused exactly when a CHECK of the payments table refuses; otherwise claims exactly when the period has no payment, then adds one scheduled row |
| CashbackCron.Repository.Post | internal/wallet/service.go:60-173 | the result is the transaction of the key: the original with nothing changed, or one new balanced transaction |
| CashbackCron.Repository.MarkPaymentPaid | internal/cashback/repository.go:237-253 | marks exactly that row paid with its transaction |
| CashbackCron.Repository.RefreshPaymentsMadeCache | internal/cashback/repository.go:266-288 | the counter becomes the count of paid rows, the status completed when all are paid, unless a CHECK refuses |
| CashbackCron.Repository.PayInTx | internal/cashback/run_month.go:161-243 | the statements of the transaction together are one installment; it fails only through a fault or a CHECK |
| CashbackCron.Repository.WithTx | internal/cashback/repository.go:23-49 | at most 3 attempts; the log explains the new tables; success means exactly one own commit; an error after a commit means the acknowledgement was lost |
| CashbackCron.Repository.PayOnePlanInTx | internal/cashback/run_month.go:91-244 | the reads before the transaction and the transaction together commit at most once |
| CashbackCron.Repository.PayOnePlan | internal/cashback/run_month.go:71-89 | under any failures and foreign commits: at most 9 attempts, at most one own commit, and that commit pays this plan for this period |
| CashbackCron.ReplayKeepsBooks | internal/cashback/run_month.go:71-89 | any mixture of commits started from live snapshots of the period keeps the system invariant |
| CashbackCron.ExplainsCompose | internal/cashback/run_month.go:71-89 | accounts of consecutive stretches of the commit log add up |
| CashbackBatch.ListDuePlans | internal/cashback/repository.go:136-186 | due rows in id order; all of them or, when the limit is reached, those with the smallest ids |
| CashbackBatch.StuckChangesNothing | internal/cashback/run_month.go:93-130 | a frozen wallet, or a period or a last installment the schema refuses, leaves the tables alone |
| CashbackBatch.DuePlanIsPaid | internal/cashback/run_month.go:161-243 | any other due plan gets its payment for the period |
| CashbackBatch.AttemptShrinksDue | internal/cashback/run_month.go:44-62 | under any schema and any wallets: one attempt keeps the books, takes the plan off the due list unless it is stuck, and keeps the stuck plans |
| CashbackBatch.PassShrinksDue | internal/cashback/run_month.go:44-62 | a pass takes exactly its plans that are not stuck off the due list |
| CashbackBatch.PayBatch | internal/cashback/run_month.go:44-62 | the calls of a batch, skips and failures included, are one pass |
| CashbackLoop.LoopEndsIff | internal/cashback/run_month.go:34-66 | the loop reaches a short listing exactly when fewer than fifty due plans are stuck |
| CashbackLoop.RefusedPeriod | deploy/postgres-ledger/init/50-cashback-schema.sql:58-59 | in a period the schema does not admit every due plan is stuck, and the loop ends exactly when fewer than fifty are due |
| CashbackLoop.PaidInTimeIff | internal/cashback/run_month.go:34-66 | a due plan is paid in some round exactly when it is not stuck and fewer than fifty stuck plans have smaller ids |
| CashbackLoop.StuckForEver | internal/cashback/run_month.go:34-66 | every round keeps the set of stuck plans |
| CashbackLoop.PayRound | internal/cashback/run_month.go:35-62 | the body of the loop is one round of listing and paying |
| CashbackLoop.PayMonthlyInstallments | internal/cashback/run_month.go:22-69 | under exactly the condition of LoopEndsIff the loop ends after some rounds, what is due is what is stuck, and a second run in the period changes nothing |
| CashbackLoop.FrozenBatch | internal/cashback/run_month.go:34-66 | fifty frozen wallets: the loop does not end and the 51st plan is never paid |
| CashbackMonths.DueIff | internal/cashback/repository.go:140-158 | due means active, not paid up, nothing paid in the period, and the date of the next installment has come |
| CashbackMonths.RoundsAdvance | internal/cashback/run_month.go:34-66 | a run takes every plan that leaves the due list exactly one installment further and no other plan anywhere |
| CashbackMonths.OneMoreMonth | internal/cashback/run_month.go:22-69 | a run in time for a plan's next installment pays exactly that one |
| CashbackMonths.PaidOff | internal/cashback/run_month.go:22-69 | an active plan whose remaining installments each meet a run in time is completed, with credits equal to the price |
| CashbackBatch.PassStallsIff | internal/cashback/run_month.go:34-66 | a pass changes nothing exactly when every listed plan is stuck |
| DeadLetters.DlqRepository.ScanAttempts | internal/eventbus/dlq.go:134-170 | the history is the ten oldest outcomes of the message and the count its failures |
| DeadLetters.DlqRepository.InsertAttempt | internal/eventbus/attempts.go:42-56 | the outcomes logged for the message gain this one at the end, those of every other message stay |
| DeadLetters.DlqRepository.InsertIfThreshold | internal/eventbus/dlq.go:123-235 | each result is truthful about the table, the row's count is the failures of its history and lies in 3..11, nothing else changes |
| DeadLetters.DlqRepository.Resolve | internal/eventbus/dlq.go:315-344 | an open row gets its final status once, nothing else of any row changes, and no message enters or leaves the queue |
| DeadLetters.DlqIndex | internal/eventbus/dlq.go:172-235 | finds a row of the message exactly when one exists |
| DeadLetters.ThresholdReachedIff | internal/eventbus/dlq.go:134-170 | the threshold is reached exactly when two of the ten oldest rows are failures |
| DeadLetters.NoSuccessRowsReachThreshold | internal/eventbus/dlq.go:134-170 | without success rows, exactly when two rows are logged |
| DeadLetters.StarvedWhileWindowStands | internal/eventbus/dlq.go:134-150 | a full window with at most one failure lets no later failure through, whatever is logged afterwards |
| EventBus.StepKeepsSafety | internal/eventbus/redis_bus.go:200-462 | every call of every concurrent dispatch, failed or not, keeps the delivery invariant |
| EventBus.RunKeepsSafety | internal/eventbus/redis_bus.go:200-462 | every run keeps it |
| EventBus.NoMessageLost | internal/eventbus/redis_bus.go:200-462 | in every interleaving a delivered message is pending, handled or dead-lettered, and has at most one dead letter |
| EventBus.StepMovesMessage | internal/eventbus/redis_bus.go:200-462 | for every step: a first read makes a message delivered and pending, an acknowledgement that arrives takes it off the pending list, a success makes it handled, nothing else changes any of the three |
| EventBus.PendingIff | internal/eventbus/redis_bus.go:365-380 | in every run a delivered message is pending exactly until a delivery of it is acknowledged |
| EventBus.StepMovesDelivery | internal/eventbus/redis_bus.go:270-462 | where each call takes its delivery, the scan reaching the insert exactly when two of the ten oldest rows are failures; no other delivery moves |
| EventBus.StepMovesRows | internal/eventbus/redis_bus.go:623-661 | a queued row says what the delivery did, a written one goes to the end of the log, dead letters appear only by an insert |
| EventBus.CheckDelivery | internal/eventbus/redis_bus.go:388-462 | a threshold check through the repository leaves the dead-letter table as the machine's scan and insert do, and leads to the acknowledgement exactly when they do |
| EventBus.SuccessSettles | internal/eventbus/redis_bus.go:270-382 | from every state, one more successful and acknowledged delivery settles a pending message |
| EventBus.FailureSettles | internal/eventbus/redis_bus.go:297-462 | from every state with two failures in the window, one more failed delivery with nothing else failing dead-letters and acknowledges the message |
| EventBusCounts.HistoryTruthful | internal/eventbus/dlq.go:134-214 | the failures a check counts really happened, up to the checking delivery counted twice |
| EventBusCounts.StepKeepsRows | internal/eventbus/redis_bus.go:623-661 | attempt rows, queued or flushed, are truthful and at most one per delivery, the weekly purge included |
| EventBusCounts.StepKeepsCounts | internal/eventbus/redis_bus.go:388-462 | every step keeps every history and dead letter in range and truthful |
| EventBusCounts.RunKeepsCounts | internal/eventbus/redis_bus.go:388-462 | every run keeps them |
| EventBusCounts.DeadLetterCounts | internal/eventbus/dlq.go:134-214 | in every run a dead letter's count is the failures of its history, in 3..11; at least two failures happened, and at least the count unless the delivery was already logged |
| EventBusCounts.DeadByThirdFailure | internal/eventbus/redis_bus.go:297-314 | no success rows and earlier failures flushed when the third failure is checked: the message is dead after that check's insert, whatever happens between scan and insert |
| EventBusCounts.CountTooHighIff | internal/eventbus/dlq.go:134-214 | for every log: the count exceeds the real failures, then by one, exactly when the rows of all failed deliveries stand in the window |
| EventBusCounts.CountCanExceedFailures | internal/eventbus/redis_bus.go:297-314 | a run that ends with a dead letter counting three failures of a message that failed twice |
| Pricing.DiscountRoundsHalfUp | internal/order/pricing.go:16-28 | the discount is within half a unit of the exact percentage, ties to the buyer |
| Pricing.DiscountedUnitInRange | internal/order/pricing.go:30-34 | a discounted price lies between 0 and the list price |
| Pricing.TruncDivIs | internal/order/saga.go:136-137 | integer division as the program does it: the whole part, toward zero |
| Pricing.ReadingsAgree | cmd/core-svc/cart_enrich.go:163-170 | the display's raw percentage and the charge's clamped one give the same price for nil, negative and oversized values |
| Coupons.CouponValidIff | internal/order/coupon.go:55-78 | a coupon is valid exactly when active, running, affordable and not used up |
| Coupons.CouponPctIs | internal/order/service.go:542-563 | the charge takes the coupon's own percentage when those conditions hold and nothing otherwise |
| Coupons.CouponAnswer | internal/order/service.go:570-593 | the buyer is shown the coupon's percentage, the preview of one that applies and the first failing condition of one that does not |
| Coupons.ChargedExactly | internal/order/saga.go:131-166 | the per-unit discount of a basket is the exact percentage plus the summed rounding gains |
| Coupons.PreviewGapBounded | internal/order/coupon.go:55-78 | -(49Q+50) <= 100*(charged - previewed) <= 50Q+49 for every basket and percentage |
| Coupons.PreviewExactIff | internal/order/coupon.go:73-74 | charge equals preview exactly when the gains sum to -49..50 |
| Coupons.PreviewCanDiffer | internal/order/coupon.go:73-74 | two units of 5 at 10%: preview 1, charge 2 |
| CartPricing.TotalsIgnoreOrder | cmd/core-svc/cart_enrich.go:163-266 | coupon, grand total and seller totals do not depend on the order of the cart hash |
| CartPricing.SellersSumToGrand | cmd/core-svc/cart_enrich.go:183-258 | the seller totals add up to the grand total |
| CartPricing.DiscountsAccountForGap | cmd/core-svc/cart_enrich.go:183-243 | grand total plus the two discounts is the list price |
| CartPricing.CouponTakesOff | internal/order/saga.go:131-166 | basket subtotal less charge is the per-unit discount of the basket's units |
| CartPricing.CouponCharge | internal/order/saga.go:104-166 | a coupon that applies takes its own percentage off each unit, within the bound of PreviewGapBounded of what was shown; any other takes nothing |
| CartPricing.ChargedUnitRounds | internal/order/pricing.go:30-46 | basket price and charged price are each within half a unit of their exact percentage |
| CartDisplay.ResolveItems | cmd/core-svc/cart_enrich.go:119-129 | exactly the items whose variant exists, in order |
| CartDisplay.SubtotalOf | cmd/core-svc/cart_enrich.go:163-170 | the subtotal the coupon is judged by is the sum of the basket prices the charge uses |
| CartDisplay.PriceLine | cmd/core-svc/cart_enrich.go:190-214 | a displayed line costs what the charge takes, with its share of both discounts |
| CartDisplay.AccumulateLine | cmd/core-svc/cart_enrich.go:191-243 | one more line keeps grand total, discounts and seller accumulators exact |
| CartDisplay.AccumulateLines | cmd/core-svc/cart_enrich.go:183-243 | the loop ends with the grand total, both discounts and one exact accumulator per seller |
| CartDisplay.AddToSeller | cmd/core-svc/cart_enrich.go:236-242 | one more line keeps the accumulators exact and in first-seen order |
| CartDisplay.OrderSellers | cmd/core-svc/cart_enrich.go:245-249 | whatever order the map yields, the slice holds the sellers in first-seen order |
| CartDisplay.EmitTotals | cmd/core-svc/cart_enrich.go:250-258 | one row per seller, in first-seen order, with its exact total |
| CartDisplay.EnrichCart | cmd/core-svc/cart_enrich.go:100-267 | grand total, seller rows and discounts are those of the resolved lines under the applicable coupon |
| Checkout.LineSplits | internal/order/saga.go:131-166 | commission + KDV + seller net = gross on every line, commission and KDV are their rates of gross and commission rounded down, none is negative when bps*(10000+kdv) <= 10^8, and the item carries the line's variant, seller, quantity and list price |
| Checkout.SaneLinesAccepted | deploy/postgres-ecom/init/65-order-schema.sql:30-52 | at sane rates every line with units and a price that is not negative passes the CHECKs, free lines included |
| Checkout.AdmittedRatesCanBeRefused | deploy/postgres-ecom/init/40-ref-schema.sql:50-51 | 90% commission and 20% KDV on a line of 10000 leave the seller -800, which order_items refuses |
| Checkout.LineJoinsGroup | internal/order/saga.go:131-166 | a line joins its seller's group only, which stays exact; other groups are unaffected |
| Checkout.AddLine | internal/order/saga.go:131-166 | one more line keeps the grouping: one exact group per seller seen |
| Checkout.BuildGroups | internal/order/saga.go:131-166 | one exact group per seller of the cart, and the running total is the grand total |
| CheckoutSaga.ResolveForCharge | internal/order/saga.go:104-124 | succeeds exactly when every variant and commission is known, with the same lines and the same basket subtotal as the display |
| CheckoutSaga.DraftOrders | internal/order/saga.go:198-240 | one order per seller, each Total = Subtotal - Discount = sum of unit*qty, together the grand total |
| CheckoutSaga.PriceCart | internal/order/saga.go:104-166 | pricing succeeds exactly for chargeable carts and yields their orders and amount |
| CheckoutSaga.OrdersSumToGrand | internal/order/saga.go:131-166 | orders that cover the sellers once sum to the session amount |
| CheckoutSaga.OrdersAcceptedIff | deploy/postgres-ecom/init/65-order-schema.sql:5-52 | the CHECKs of orders and order_items accept a checkout exactly when every line makes an acceptable item |
| CheckoutSaga.PersistKeepsBooks | internal/order/saga.go:198-267 | orders and session inserted together keep the books: every session charges its orders and is charged once |
| CheckoutSaga.StatusChangesKeepBooks | internal/order/saga.go:288-318 | cancelling orders and moving the session's status keeps every amount |
| CheckoutSaga.Shop.InsertOrders | internal/order/saga.go:199-256 | all orders go in exactly when the foreign key waits for the commit (or there is none) and the CHECKs accept each; then the ids are the new positions |
| CheckoutSaga.Shop.Persist | internal/order/saga.go:198-267 | the inserts in order, each under foreign key and CHECKs: commits exactly when the key waits for the commit (or there is no order), every order is accepted and nothing rolls back; otherwise the tables are as before |
| CheckoutSaga.Shop.CancelOrders | internal/order/saga.go:288-304 | cancels exactly the orders with the given ids whose update succeeds |
| CheckoutSaga.Shop.Settle | internal/order/saga.go:275-318 | one payment call for the session amount; failure cancels and marks failed, success marks initiated |
| CheckoutSaga.Shop.PersistAndSettle | internal/order/saga.go:198-318 | orders, session and payment call appear together or not at all; a lost acknowledgement leaves the session pending and uncharged |
| CheckoutSaga.Shop.ChargeCart | internal/order/saga.go:104-319 | after the guards: tables and payment call change exactly when the cart is chargeable and acceptable, the key waits and the transaction commits, and then as specified |
| CheckoutSaga.Shop.InitiateCheckout | internal/order/saga.go:57-319 | changes the tables exactly when the call persists; under the shipped key never; otherwise orders, session and payment call carry one amount, a repeat changes nothing, and a failed payment leaves orders cancelled and the session failed |
| CheckoutSaga.DisplayEqualsCharge | cmd/core-svc/cart_enrich.go:163-266 | for the same cart in any order the charge equals the displayed grand total, and orders and seller rows match one to one |
| Stock.ManifestExact | internal/cart/repository.go:142-158 | the manifest remembers exactly the units taken when variants are distinct |
| Stock.ManifestForgetsDuplicates | internal/cart/repository.go:142-158 | with a variant listed twice it forgets units |
| Stock.TryReserveKeepsVariant | internal/cart/repository.go:29-40 | one script call moves units from the counter to the saga or nothing |
| Stock.ClosingStepSettles | internal/cart/repository.go:160-221 | for every variant: a commit leaves the counters and books the units as sold, a release or compensation gives back exactly the units taken, an expiry or crash only loses them |
| Stock.ClosingKeepsVariant | internal/cart/repository.go:160-221 | closing a saga moves its units where its phase says and balances the books |
| Stock.StepKeepsInv | internal/cart/service.go:55-117 | every step of every saga keeps the invariant |
| Stock.RunKeepsInv | internal/cart/service.go:55-117 | every run keeps it |
| Stock.StockConserved | internal/cart/service.go:55-117 | in every interleaving no counter is negative and stock + held + committed + expired = seeded; committed units are those of the committed sagas, expired ones those of the lapsed and crashed; with all sagas closed nothing is held |
| CartService.CartStore.TryReserve | internal/cart/repository.go:116-140 | succeeds exactly when there is enough, and then takes exactly qty |
| CartService.CartStore.ReleaseReservation | internal/cart/repository.go:160-192 | gives back every counter its manifest units and deletes the manifest; it is the machine's release |
| CartService.CartStore.CommitReservation | internal/cart/repository.go:194-221 | deletes the manifest and nothing else; it is the machine's commit |
| CartService.CartStore.ReleaseAfterCommit | internal/cart/repository.go:160-221 | a committed reservation cannot be released: nothing goes back to stock |
| CartService.CartStore.ReleasePartial | internal/cart/service.go:100-109 | undoes the calls that succeeded, unit for unit |
| CartService.CartStore.TakeItem | internal/cart/service.go:76-90 | takes the item exactly when its quantity is positive and in stock and the call works; otherwise undoes everything |
| CartService.CartStore.Undo | internal/cart/service.go:100-109 | after a partial failure every counter is back where it started, as in the machine |
| CartService.CartStore.Finish | internal/cart/service.go:92-97 | the manifest is written with exactly the cart, or everything is undone |
| CartService.CartStore.Reserve | internal/cart/service.go:55-97 | succeeds exactly when the cart is not empty, every quantity is positive and in stock and no call fails; all or nothing over counters and manifests; the call is a run of the machine |
| Returns.LineRefundIs | internal/order/returns.go:266-294 | a line refunds its quantity at the unit price the item was charged |
| Returns.LineOkIff | internal/order/returns.go:266-294 | a line is good exactly when it asks for one or more, and no more than the reading leaves of an item of the order |
| Returns.CheckLines | internal/order/returns.go:278-293 | all lines are good and this is their refund, or what is wrong with the first bad one |
| Returns.ResolveLines | internal/order/returns.go:266-294 | resolves exactly when there are lines and all are good, otherwise reports what is wrong with the first bad one; the refund is the sum over the lines |
| Returns.InsertedIff | internal/order/returns_repository.go:48-66 | the unique guard lets the rows in exactly when no item has a row and none is asked for twice |
| Returns.InsertedRows | internal/order/returns_repository.go:48-66 | the rows let in are one per line, in order, with its item and quantity |
| Returns.CreatedIff | internal/order/returns.go:296-368 | for every request and every reading: a return is made exactly when the lines resolve, no item has a row and none is asked for twice |
| Returns.ReturnService.CreateReturn | internal/order/returns.go:296-368 | the row-by-row transaction succeeds, and reports a duplicate, under exactly those conditions, and changes nothing otherwise |
| Returns.InsertedKeepsRows | internal/order/returns_repository.go:48-66 | inserted rows stay unique per item, within the ordered quantity, and add exactly the refund |
| Returns.CreatedKeepsInv | internal/order/returns.go:296-368 | a call from any stale reading keeps the tables right |
| ReturnBounds.CallsKeepInv | internal/order/returns.go:296-368 | every sequence of calls keeps them right |
| ReturnBounds.QuantityWithinOrder | internal/order/returns_repository.go:258-276 | the returned quantity and refund of each item are within what was ordered and paid |
| ReturnBounds.HasRowIffReturned | internal/order/returns_repository.go:258-276 | an item has a row exactly when some of it was returned |
| ReturnBounds.ReturnsBounded | internal/order/returns.go:266-368 | over every sequence of calls no item is returned beyond its quantity and refunds never exceed the order total |
| ReturnBounds.RefundWithinTotal | internal/order/saga.go:210-222 | the refunds of valid tables are at most the total of the order's lines |
| ReturnBounds.RefundsPlusRest | internal/order/returns.go:266-368 | to the unit: what was refunded and what returning the rest would refund make up the order total |
| ReturnBounds.ComputeReturnable | internal/order/returns.go:213-236 | a line is offered exactly when it is all that is left of an item with something left |
| ReturnBounds.FreshReturnSucceedsIff | internal/order/returns.go:296-368 | with an up-to-date reading a request succeeds exactly when it resolves, asks for nothing twice and touches only items of which nothing was returned |
| ReturnBounds.ReturnTheRestIff | internal/order/returns.go:266-294 | the default request succeeds exactly when some item is untouched and none is partly returned |
| ReturnBounds.WholeOrderRefund | internal/order/returns.go:266-368 | returning an untouched order as a whole refunds exactly its total |
| ReturnBounds.OfferCanBeUnacceptable | internal/order/returns.go:213-236 | an offered rest that is refused |
| RefundSettlement.StepKeepsEvents | internal/order/returns.go:449-552 | every decision keeps events unique, and every refunded return has one |
| RefundSettlement.RefundAtMostOnce | internal/order/returns.go:449-514 | in any interleaving with stale readings at most one event per return; without rejections refunded exactly when the event exists |
| RefundSettlement.RejectKeepsSettledIff | internal/order/returns.go:516-552 | a rejection keeps refunds and events in step exactly when the return is not refunded |
| RefundSettlement.SettledIff | internal/order/returns.go:449-552 | over every run: refunded exactly when the event exists, unless a rejection lands on a refunded return, which is never put right |
| RefundSettlement.StaleRejectAfterApprove | internal/order/returns.go:516-552 | a refunded return ends up rejected |
| RefundSettlement.DecisionsFinalIff | internal/order/returns.go:449-552 | over every run no decision is changed exactly when every landing approval hits a pending return or one whose event exists and no landing rejection hits a refunded one |
| RefundSettlement.DecisionsAreFinal | internal/order/returns.go:449-552 | in such a run refunded and rejected are terminal and rejected returns have no event |
| RefundSettlement.StaleApproveAfterReject | internal/order/returns.go:449-514 | a rejected return ends up refunded |
| Idempotency.Poll | internal/idempotency/store.go:93-116 | returns after at most seven loads with the first conclusive one; times out only after three seconds; an absent key only times out |
| Idempotency.Doubles | internal/idempotency/store.go:114 | the waits double up to one second |
| Idempotency.StepKeepsInv | internal/idempotency/middleware.go:28-91 | every step of every request on the key keeps the invariant, lost saves and releases included |
| Idempotency.RunKeepsInv | internal/idempotency/middleware.go:28-91 | every run keeps it |
| Idempotency.HandlerRunsOnce | internal/idempotency/middleware.go:28-91 | in every interleaving executions under the key do not overlap, are at most 1 + panics, at most one completes, and every answer or replay is its response |
| Idempotency.AllExecutions | internal/idempotency/middleware.go:39-45 | counting executions without the key too: at most 1 + panics + Acquire errors, and none overlap when Acquire reports no error |
| Idempotency.BypassCanOverlap | internal/idempotency/middleware.go:39-45 | one Acquire error and two handlers at work |
| Idempotency.NoExecutionAfterCompletion | internal/idempotency/middleware.go:50-70 | after a completed execution no run starts another under the key |
| Idempotency.Wrap | internal/idempotency/middleware.go:28-91 | one request alone is a run of the machine: the handler runs under the key exactly when it was free, its response is cached, a panic frees the key, a cached response is replayed |
| Idempotency.SendTwice | internal/idempotency/middleware.go:28-91 | the second request gets the first response |
| RefreshTokens.RevokeWhere | internal/identity/repository.go:177-184 | revokes exactly the live rows that are hit and changes nothing else |
| RefreshTokens.TokenStore.RotateRefreshToken | internal/identity/repository.go:362-446 | the statements in order compute the specified rotation, keep the invariant, and report success exactly for a rotatable token whose commit is acknowledged |
| RefreshTokens.TokenStore.RevokeToken | internal/identity/repository.go:448-462 | not found exactly when no live row has the hash, success exactly when there was one and it is revoked |
| RefreshTokens.TokenStore.CreateSession | internal/identity/repository.go:169-175 | inserts one live row exactly when the hash is unused |
| RefreshTokens.TokenStore.RevokeTokenFamily | internal/identity/repository.go:464-472 | afterwards the family has no live token exactly when the reason is admitted or it had none; no other row changes |
| RefreshTokens.TokenStore.RevokeAllUserTokens | internal/identity/repository.go:177-184 | afterwards the user has no live token exactly when the CHECK admits the reason or there was none; under the shipped CHECK nothing changes |
| RefreshTokens.TokenStore.SoftDeleteUser | internal/identity/repository.go:513-541 | deleting an account leaves it no live token exactly when the CHECK admits the reason or there was none |
| RefreshTokens.TokenStore.CleanUp | internal/identity/cleanup/cleanup.go:50-54 | leaves exactly the rows that had not expired by the cutoff and keeps the invariant |
| RefreshTokens.CleanUpKeepsInv | internal/identity/cleanup/cleanup.go:50-54 | deleting expired rows keeps hashes unique and chains right |
| RefreshTokens.InsertKeepsInvIff | internal/identity/repository.go:169-175 | a new row keeps the chains right exactly when its family's rows are revoked and have its user |
| RefreshTokens.RotatesIff | internal/identity/repository.go:362-446 | the table is rotated exactly when the token is live and unexpired, the hash unused, the reason admitted and the transaction commits; success, unknown, theft and expired are each reported exactly under their condition |
| RefreshTokens.SuccessorIsAlone | internal/identity/repository.go:362-446 | the new row has the new hash and expiry and the old user and family, the old row is revoked for rotation, and the new one is the family's only live one |
| RefreshTokens.RevokesAllIff | migrations/ecom/0055_identity_schema.up.sql:85 | an update leaves no live row among those hit exactly when its reason is admitted or there was none |
| RefreshTokens.TheftKillsFamilyIff | internal/identity/repository.go:392-403 | a revoked token is always answered as theft; the family is dead exactly when the update lands or it was dead |
| RefreshTokens.StepKeepsInv | internal/identity/repository.go:362-541 | every transaction, the clean-up included, keeps the chains right |
| RefreshTokens.StepKeepsDead | internal/identity/repository.go:362-541 | no transaction gives a family that was drawn and has no live token a new one |
| RefreshTokens.RunKeepsTokens | internal/identity/repository.go:362-541 | over every run, clean-ups included, only the last of a family can be live, and a family without a live token never gets one again |
| RefreshTokens.RevokedRowStaysIff | internal/identity/cleanup/cleanup.go:50-54 | over every run a revoked row is there, unchanged, exactly when no clean-up reached its expiry; once gone its hash is gone for ever |
| RefreshTokens.ReuseIsTheftIff | internal/identity/repository.go:362-472 | after any run a revoked token is answered as theft exactly when no clean-up reached its expiry and as unknown otherwise; when theft lands the family has no live token for the rest of the run |
| RefreshTokens.LostTheftLeavesFamilyLive | internal/identity/repository.go:392-403 | a lost theft transaction leaves the family live |
| RefreshTokens.CleanedUpTheftGoesUnseen | internal/identity/cleanup/cleanup.go:50-54 | a stolen token whose row was deleted is unknown, and its session lives on |
| RefreshTokens.RetryAfterLostAckKillsFamily | internal/identity/repository.go:362-446 | a client that retries a rotation whose acknowledgement was lost loses its session |
| RefreshTokens.ResetLogsOutIff | internal/identity/repository.go:177-184 | a password reset logs the user out exactly when the CHECK admits its reason or nobody was logged in; as shipped it changes nothing |
| UploadLimiter.Limiter.Allow | cmd/core-svc/upload_handlers.go:53-66 | one attempt moves only that user's window |
| UploadLimiter.GrantsAgainstWindow | cmd/core-svc/upload_handlers.go:40-66 | bounds the grants of any hour by the window the limiter is in |
| UploadLimiter.AtMost99PerHour | cmd/core-svc/upload_handlers.go:40-66 | any half-open hour of any non-decreasing history has at most 99 grants |
| UploadLimiter.WindowsAnHourApart | cmd/core-svc/upload_handlers.go:53-66 | window starts are at least an hour apart |
| UploadLimiter.NinetyNineIsReached | cmd/core-svc/upload_handlers.go:40-66 | 99 grants within an hour |
| Slugs.LeDecides | internal/catalog/repository.go:433-437 | slugs are ordered by their first differing character, a prefix before what extends it |
| Slugs.SortedIgnoresMapOrder | internal/catalog/repository.go:433-437 | sorted slugs are the same for every iteration order of the map |
| QueryBuilder.LaidMeaning | internal/catalog/repository.go:378-450 | numbered clauses over the final arguments accept exactly the rows their own values accept, whatever is appended before or after |
| ListingQuery.FilterPartsMean | internal/catalog/repository.go:378-450 | the conditions appended for a filter accept exactly the rows it describes: AND across slugs, OR within one, empty lists and false flags ignored |
| ListingQuery.SqlBuilder.AppendProductFilters | internal/catalog/repository.go:378-422 | appends those conditions in order, their values at the matching places, and argN stays len(args)+1 |
| ListingQuery.SqlBuilder.AppendAttrFilters | internal/catalog/repository.go:429-450 | the same for the attribute loop over the sorted slugs |
| ListingQuery.SqlBuilder.AppendFlags | internal/catalog/repository.go:404-420 | a flag adds its condition exactly when set and true, and binds nothing |
| ListingQuery.AppendOrderBy | internal/catalog/repository.go:486-494 | popularity binds its ids at the next placeholder, otherwise nothing is bound; argN stays len(args)+1 |
| ListingQuery.AppendSearchOrderBy | internal/catalog/repository.go:503-515 | likewise, with relevance on $1 as the default |
| ListingQuery.OrderMeans | internal/catalog/repository.go:474-494 | the listing order bound in the query is the one asked for: popularity, token, or id |
| ListingQuery.WantedKeyOrders | internal/catalog/repository.go:457-515 | which of two rows comes first under popularity, each sort token, relevance and the default |
| ListingQuery.SearchOrderMeans | internal/catalog/repository.go:503-515 | likewise for a search, where $1 is still the query text |
| ListingQuery.CategoryQueryMeans | internal/catalog/repository.go:542-563 | a category listing selects the active rows of locale and subtree that match, in the order and page asked for |
| ListingQuery.SearchQueryMeans | internal/catalog/repository.go:597-608 | a search selects the active rows of the locale that hit the text and match, in the order and page asked for |
| ListingQuery.ListProductsByCategory | internal/catalog/repository.go:542-563 | the builder calls produce exactly that query |
| ListingQuery.SearchProductsSummary | internal/catalog/repository.go:597-608 | the builder calls produce exactly that query |
| ListingQuery.MapOrderIrrelevant | internal/catalog/repository.go:429-450 | the query does not depend on map iteration order |

## Left out

- PaymentSummary counters, and that a failed commit of the last installment is reported as clean: the counters are bumped inside the retried closure.
- Cron workers of different periods at once: runs drop outstanding snapshots when the period changes; what goes wrong otherwise is stated by InstallmentKeepsInvIff.
- The wallet's internals: a post is the ledger transaction with its two entries and its idempotency key.
- Calendar arithmetic: the due date is a parameter.
- CashbackLoop.PayMonthlyInstallments: speaks of one worker without infrastructure failures; its requires is the exact condition of LoopEndsIff.
- The topic in the dead-letter key: one topic per group.
- Stream trimming, alerts, metrics and tracing of the event bus.
- The displayed coupon message, the KDV-included portion, currency, market, installments, sort order and labels of cart lines.
- Recording of coupon redemptions and the order ledger events of a checkout.
- A crash between persisting a checkout and the payment call (its effect on the tables is that of a lost acknowledgement), and two simultaneous first calls with one session id.
- Session ids as text: they are opaque numbers with one value for the empty key.
- Stock.StockConserved: release, commit and compensation are single steps that succeed; a failed script call is taken as not applied; reservation keys that expire count as expired units.
- SeedStock, which overwrites a counter unconditionally.
- Return reasons, photos, status history, the return window, ownership and seller checks.
- Return items across orders: one order at a time, and refund settlement separate from the request.
- Expiry of idempotency entries during a request, requests without a key, and what a handler that runs without the key answers.
- Statement-level races inside one token rotation; family roots, and hashes whose row was deleted, are taken as never drawn twice.
- The SQL text of the listing queries: clauses are their conditions with numbered placeholders, and text search, ranking and the category tree are parameters.
- ListProducts, the catalogue-wide listing: it shares every append function with the category listing.
- HTTP handlers, JSON, configuration, analytics, identity beyond refresh tokens, and the plain read and write modules: they would only add easy members.
