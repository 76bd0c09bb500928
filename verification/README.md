# Verified model of the eSIM shop's money and fulfilment core

The shop sells eSIM plans. Buyers pay with cash through OnePay and with eXu, a wallet currency kept in an
append-only ledger with idempotency keys. Orders move from pending to paid or failed and from paid to refunded;
each order may hold eXu, carry a referral, earn cashback and be refunded in parts. Payment notices, cron jobs and
webhooks may repeat, come late or stop half-way. These modules model that core and prove what it keeps.

- `Domain`, `Rounding`, `Ledger`, `Wallets`, `Orders`: the tables (`Db`) and, for every handler of the wallet and order
  services, a function from database to database with the handler's branches, constants and error cases.
- `ShopService` (class `Shop`) and `PaymentDesk` (class `Desk`): the same handlers as methods that update fields in
  place, step by step, each proved to leave exactly the state its function says, including on refusals, and each whole
  handler to keep the class's `Valid()`, the invariant of every run.
- `OrderView`, `Statements`, `Invariant`, `Runs`: a run is any sequence of checkouts, manual orders, payment notices,
  cancellations, cron jobs, refunds, admin operations and clock ticks. The invariant says that every balance is the sum
  of the ledger, that used expiry keys never block the expiry job, and that the entries of every order are exactly
  the ones its rows call for (`Statement`). Every step keeps it.
- `RunGuarantees`, `OrderGuarantees`, `Balances`, `Solvency`, `CrashRetry`, `CrashRefund`: what follows for whole runs:
  ledger and expiry, captures, cashback, rewards, refunds and what they return against what was taken, the exact effect
  of payments and refunds on every wallet, solvency if and only if, convergence of interrupted handlers if and only if.
- `Acceptance`, `Notices`: for each handler, read off the rows and the query alone, what it accepts, what it answers and
  what it writes then.
- `Examples`: runs from an empty shop that show where it fails an expectation.
- `OnePay`, `UrlQuery`, `Decimals`, `Topups`, `Payment`: the signature, the encoded payment URL, the topup job, and the
  notices of all three kinds of reference.
- `Pricing`, `UnitExpansion`: discounts, coupons, the price split and the conservation of order items.
- `GadgetKorea`, `JapanTravelSim`, `EsimAssignment`: the matching loops, proved against specifications without
  queues, batches or counters.
- `UrlAncestors`: the ancestor list of a URL.

Money is an integer number of VND, instants are integers in milliseconds, idempotency keys are a datatype with one
constructor per key prefix, and `Math.round(x)` is the floor of `x + 1/2`. A handler runs as one step, except
`completePaidOrderBenefits`, which may stop after any of its writes, and `executeTopup`, whose provider call lets
other steps in between. Provider replies, coupons' percentages, the exchange rate and the signature hash are
arbitrary inputs.

Where the code does not meet a property one might expect, the model follows the code and proves the exact
condition, with an example of its failure:

- A hold is captured although it expired (`src/wallets/wallets.service.ts:427-429`) while a later order may already
  have spent the same money. `Solvency.StepCoversIff` says for every step exactly when it leaves each wallet with its
  active holds covered, `Solvency.RunSolventIff` the same for whole runs, `Solvency.CaptureCoversIff` for the capture
  alone; `Solvency.LateCaptureOverdraws` is a run that ends at minus 92.
- Refunds may return more eXu than the order's capture took, in two ways. Every share is rounded by itself; and a hold
  that lapsed before the payment is never captured (`src/wallets/wallets.service.ts:427-429`), yet its share is paid
  back (`src/wallets/wallets.service.ts:608-617`). `OrderGuarantees.ReturnedWithinTakenIff` is the exact condition on the
  entries, over runs in `OrderGuarantees.RunRefunds`; after one full refund it is that the hold was captured or the
  order was to spend no eXu (`OrderGuarantees.RunFullRefund`). `OrderGuarantees.DriftIsReached` shows the first way,
  `Examples.LapsedHoldPaysOut` the second: a buyer with 100 eXu spends none and ends with 200.
- A completion that stops half-way leaves a PAID order, which a refund or the lapse of its hold may still reach. It
  converges if and only if neither happens (`CrashRetry.RetryConvergesIff`). After a refund in between the cashback
  nets to zero if and only if it had been posted or there was none, and the referrer keeps the reward if and only if it
  had been posted without being written back (`CrashRefund.RefundAfterStop`, `CrashRefund.CompletionAfterRefund`, with
  `Examples.HalfwayRefund`).
- A discount may raise a price that is not a whole thousand: `Pricing.DiscountRaisesIff`, with `Pricing.DiscountCanRaise`.
- A coupon may exceed a subtotal that is not a whole thousand; the price is then clipped to zero:
  `Pricing.CouponClippedIff`, with `Pricing.CouponCanExceed`. It never raises what is due.
- Items of a local plan from a per-unit provider lose cost: `UnitExpansion.LineConserved` and `UnitExpansion.Conserved`,
  with `UnitExpansion.CostCanBeLost`.
- Ancestors that end in white space are trimmed when asked for again: `UrlAncestors.RerunIff`, with
  `UrlAncestors.SpaceBreaksRerun`.
- The constants' documentation (`src/topup/topup.constants.ts:11-17`) has an admin refund a MANUAL_INTERVENTION topup;
  `refundOrder` accepts only paid and refunded orders (`src/wallets/wallets.service.ts:586-588`):
  `Topups.RefundIff`, `Topups.FinishedIsFinal`.
- A refund made while a topup's job is under way is overwritten by the job's outcome. Unless the job's last write was
  lost, a topup, COMPLETED or not, has money given back if and only if such a refund happened: `Topups.RefundRaceIff`,
  with `Topups.RefundedYetCompleted`.
- An order placed by submitOrder goes to the providers at once, and again if a signed notice pays it:
  `Payment.SubmissionsPerOrder`, with `Examples.DirectOrderSentTwice`. The shop itself builds no payment URL for such an
  order; as long as signed notices come only on orders whose URL it built, the order is sent exactly once
  (`Payment.DirectOrderSentOnce`).

## Model

| member | source | states |
|---|---|---|
| RunGuarantees.RunLedger | src/wallets/wallets.service.ts:880-925 | after any run of the shop (any checkouts, notices, cancellations, cron jobs, refunds and admin operations) each balance is the sum of its owner's entries, each entry shows its owner's running total, and no idempotency key occurs twice |
| Ledger.PostKeepsLedger | src/wallets/wallets.service.ts:880-925 | one posting, replayed or not, keeps balances equal to ledger sums, running balances right and keys distinct |
| Ledger.ReplayChangesNothing | src/wallets/wallets.service.ts:892-898 | repeating a keyed posting, whatever its other arguments, returns the first entry and changes nothing |
| Ledger.PostKeepsExpiryIff | src/wallets/wallets.service.ts:880-938 | that money has an expiry date and used expiry keys lie in the past of emptied wallets is kept by exactly those postings, of all that are accepted, that leave no money without a new expiry on a missing or used one |
| Ledger.PostKeepsExpiry | src/wallets/wallets.service.ts:900-938 | in particular by every posting the service makes: credits that restart the 365 days, debits, and credits that leave no money |
| RunGuarantees.ExpiryJobEmpties | src/wallets/wallets.service.ts:745-769 | whenever the job runs, every active wallet past its expiry ends without money and every other wallet is untouched: the job's own key never suppresses it |
| Invariant.ExpiryKeyIsUnused | src/wallets/wallets.service.ts:757-765 | a wallet that still has money never meets a used key for its current expiry date |
| Invariant.ExpireRowsKeep | src/wallets/wallets.service.ts:745-769 | the debit loop keeps the invariant, empties exactly the listed wallets and touches no order |
| OrderGuarantees.RunStatement | src/wallets/wallets.service.ts:421-522 | after any run an order's ledger entries are exactly those its status, hold, referral and refunds call for: none while pending or failed, one capture of minus the held amount if and only if the hold is CAPTURED, cashback only while paid |
| OrderGuarantees.CapturesMatchHold | src/wallets/wallets.service.ts:421-449 | number and sum of an order's capture entries, for captured and other holds |
| OrderGuarantees.CashbackNets | src/wallets/wallets.service.ts:633-650 | cashback and its reversal sum to the cashback while paid and to zero after the first and any further refund |
| OrderGuarantees.RewardNets | src/wallets/wallets.service.ts:497-521 | the referrer's net reward for an order is the reward while CREDITED and zero while PENDING or REVERSED |
| OrderGuarantees.RunReferrals | src/wallets/wallets.service.ts:292-380 | after any run a referee has at most one pending or credited referral, nobody refers themselves, and net rewards follow the referral's status |
| OrderGuarantees.RunRefunds | src/wallets/wallets.service.ts:590-617 | after any run the refunds of an order total at most the price fixed at checkout, the wallet gets at most what was refunded, k refunds drift at most k half units from the exact share of walletSpent, one full refund returns exactly walletSpent, and the eXu returned stays within what the capture took exactly under the condition of ReturnedWithinTakenIff |
| OrderGuarantees.ReturnedWithinTakenIff | src/wallets/wallets.service.ts:608-617 | the eXu returned stays within the eXu captured if and only if, for a captured hold, the rounding remainders do not outweigh the share of what is not refunded, and for any other, every refund's share rounds to nothing |
| OrderGuarantees.RunFullRefund | src/wallets/wallets.service.ts:608-617 | after any run, one full refund returns no more eXu than was captured if and only if the hold was captured or walletSpent is zero |
| Examples.LapsedHoldPaysOut | src/wallets/wallets.service.ts:427-429 | a six-step run from an empty shop: the hold of 100 eXu lapses, the order is paid and refunded, and the buyer who spent none of 100 eXu ends with 200 |
| OrderGuarantees.RefundDrift | src/wallets/wallets.service.ts:612-617 | the same drift bound for any list of amounts within the order's value, with the eXu returned between zero and the amounts |
| OrderGuarantees.FullRefundReturnsWalletPart | src/wallets/wallets.service.ts:608-617 | a single refund of everything returns exactly walletSpent, captured or not |
| OrderGuarantees.DriftIsReached | src/wallets/wallets.service.ts:612-617 | the drift bound is tight for every number of refunds: an order paid half in eXu and refunded unit by unit drifts by exactly half a unit each time, so returns up to twice its walletSpent |
| OrderGuarantees.ExuExceedsIff | src/wallets/wallets.service.ts:612-617 | for any refunds of any order, their shares exceed walletSpent if and only if the rounding remainders outweigh the eXu's share of what is not refunded |
| OrderGuarantees.ExuWithinSpent | src/wallets/wallets.service.ts:612-617 | the shares of any refunds stay within walletSpent if the share of what is not refunded makes up for half a unit per refund |
| Rounding.ShareBounds | src/wallets/wallets.service.ts:612-617 | the rounded proportional share lies between zero and the amount, within half a unit of exact |
| Rounding.RoundDivUnique | src/wallets/wallets.service.ts:612-617 | Math.round of a quotient is the only integer within half a unit of it, halves upwards |
| RunGuarantees.RunOnlyForward | src/wallets/wallets.service.ts:421-472 | between any two moments of a run order, hold and referral statuses only move forward, terminal holds are never left, prices never change and the ledger only grows |
| RunGuarantees.PaidIsCaptured | src/orders/orders.service.ts:1406-1431 | a successful notice on a pending order marks it paid, and its hold ends CAPTURED exactly if it was still HELD |
| Runs.StepKeeps | src/orders/orders.service.ts:1406-1655 | every handler keeps the whole invariant, and does to each order only what a payment, a failure, a hold expiry or one refund does |
| Invariant.CheckoutKeeps | src/payment/payment.service.ts:27-60 | checkout keeps the invariant whether it is refused, left pending or paid at once from the wallet |
| Invariant.FinalizeKeeps | src/orders/orders.service.ts:1406-1431 | paying an order keeps the invariant and changes no other order's rows or entries |
| Invariant.RefundKeeps | src/wallets/wallets.service.ts:581-743 | a refund keeps the invariant and changes no other order's rows or entries |
| Invariant.CancelKeeps | src/orders/orders.service.ts:1557-1616 | cancelling keeps the invariant and changes no other order's rows or entries |
| Invariant.FailOverdueKeeps | src/orders/orders.service.ts:1630-1655 | the cron job fails exactly the overdue pending orders, with their holds and referrals, and keeps the invariant |
| Invariant.ReferralAccepted | src/wallets/wallets.service.ts:292-357 | an accepted code belongs to somebody else and the buyer has no live referral yet |
| Orders.AcceptedReferralNotClipped | src/orders/orders.service.ts:669-710 | with an accepted referral wallet and cash add up to the subtotal minus the discount: the maximum with zero never bites |
| CrashRetry.RetryConvergesIff | src/wallets/wallets.service.ts:474-522 | completePaidOrderBenefits may stop after any of its writes, any number of times, between any steps of the shop: once it runs to its end the order's row, hold, referral, entries and refunds are those of one uninterrupted run if and only if no step in between refunded the order or lapsed its held hold |
| CrashRetry.RetryBalances | src/wallets/wallets.service.ts:474-522 | every wallet's balance is then what the order's own entries add up to plus what the rest of the shop posted, and undisturbed those entries are the uninterrupted run's |
| CrashRefund.RefundAfterStop | src/wallets/wallets.service.ts:633-683 | stopped after n writes and then refunded: cashback nets to zero if and only if it had been posted or there was none, the reward stays if and only if it had been posted but not written back, and a capture is there exactly if its write was done |
| Examples.HalfwayRefund | src/wallets/wallets.service.ts:633-650 | a run from an empty shop whose paid order is refunded before its first benefit: the cashback of 4 is taken back without having been posted |
| CrashRefund.CompletionAfterRefund | src/wallets/wallets.service.ts:474-522 | a completion after that refund captures the held eXu and posts missing cashback, which nets to zero in every case, and leaves the referral as it is |
| CrashRetry.ResumeIsExact | src/wallets/wallets.service.ts:421-449 | stopped after n writes and run again at once, it leaves the very same database as one uninterrupted run |
| CrashRetry.StepElsewhereIff | src/wallets/wallets.service.ts:474-522 | every step of the shop keeps the books, and leaves the rows and entries of a half-completed order alone if and only if it neither refunds it nor lapses its held hold |
| Solvency.RunSolventIff | src/wallets/wallets.service.ts:382-449 | over every run from an empty shop, each balance is at least the sum of the unexpired HELD holds at every moment if and only if each step meets its condition when it starts |
| Solvency.RunSolvent | src/wallets/wallets.service.ts:840-861 | then no balance is ever below its active holds, hence never negative |
| Solvency.StepCoversIff | src/wallets/wallets.service.ts:382-449 | for every step of the shop, if and only if: only late captures, refunds, admin debits, balance cancellations and the expiry job have a condition at all |
| Solvency.PaymentCoversIff | src/orders/orders.service.ts:1406-1431 | paying an order keeps all wallets covered if and only if its hold has not run out, or balance and cashback cover the captured eXu beside the other active holds |
| Solvency.RefundCoversIff | src/wallets/wallets.service.ts:633-711 | a refund does if and only if the buyer can give back the cashback out of balance and refund, and the referrer the reward |
| Solvency.ExpiryCoversIff | src/wallets/wallets.service.ts:745-769 | the expiry job does if and only if no wallet it empties has active holds |
| Balances.FinalizeBalance | src/wallets/wallets.service.ts:474-522 | a payment changes every user's balance by exactly the captured eXu, the cashback and the reward |
| Balances.RefundBalance | src/wallets/wallets.service.ts:581-743 | a refund changes every user's balance by exactly what it returns, less cashback and reward if this is the first refund |
| Solvency.CaptureCoversIff | src/wallets/wallets.service.ts:421-449 | a capture keeps every wallet covered if and only if the hold is unexpired, or the rest covers the other holds, or it was already posted |
| Solvency.PostCoversIff | src/wallets/wallets.service.ts:880-925 | a fresh posting keeps every wallet covered if and only if what is left covers the owner's active holds |
| Solvency.LateCaptureOverdraws | src/wallets/wallets.service.ts:427-429 | a concrete run: the same 100 eXu held twice and captured twice, ending at minus 92 |
| Acceptance.HoldAcceptedIff | src/wallets/wallets.service.ts:382-419 | a new hold is accepted if and only if the wallet is active, its money has not expired and the balance covers the active holds and the amount; it lasts thirty minutes |
| Acceptance.AvailableIs | src/wallets/wallets.service.ts:840-861 | nothing is available on a locked or expired wallet, else the balance less the active holds, never below zero |
| Acceptance.HoldCounts | src/wallets/wallets.service.ts:849-860 | a hold counts as active exactly if it is the user's, HELD and not run out |
| Acceptance.CodeAcceptedIff | src/wallets/wallets.service.ts:292-357 | a referral code is accepted if and only if there is no coupon, the order reaches 100000, the code is active, its owner is neither locked nor the buyer, and the buyer has no paid order and no live referral |
| Acceptance.CodeRefusals | src/wallets/wallets.service.ts:298-348 | each refusal is given only when its own check fails |
| Acceptance.PlacedIff | src/orders/orders.service.ts:503-584 | a request that does not pass writes nothing; any other opens the order at the right prices and, with a code, exactly its referral (owner, buyer, 10000, pending), even if the hold is then refused; placed if and only if no eXu is spent or the hold is accepted |
| Acceptance.PaidAtOnceIff | src/payment/payment.service.ts:41-45 | a checkout is paid at once if and only if nothing is left to pay; a manual order always is |
| Acceptance.ManualRowIs | src/orders/orders.service.ts:1042-1110 | a manual order, its buyer and plan once found, is placed and paid, costs its subtotal in cash, nothing if that is negative, and spends no eXu |
| Notices.UrlIff | src/payment/payment.service.ts:27-83 | an order is given a payment URL if and only if a checkout places it and leaves it waiting for a payment |
| Acceptance.CancelledIff | src/orders/orders.service.ts:1557-1616 | a cancellation is accepted if and only if the order exists, is pending and is the caller's unless an admin asks; its order, hold and referral then change and no other |
| Acceptance.OverdueFailExactly | src/orders/orders.service.ts:1630-1655 | the cron job fails exactly the orders pending for more than thirty minutes, with their holds and referrals |
| Acceptance.HoldsLapseExactly | src/wallets/wallets.service.ts:771-780 | exactly the HELD holds that have run out lapse |
| Acceptance.RefundedIff | src/wallets/wallets.service.ts:586-606 | a refund is accepted if and only if the order is paid or refunded and the amount lies between zero and what is left of payable and walletSpent |
| Acceptance.RunRefundedIff | src/wallets/wallets.service.ts:581-743 | after any run a refund request raises what was refunded by its amount exactly then, and changes nothing otherwise |
| Acceptance.RunReferralPaid | src/wallets/wallets.service.ts:497-521 | after any run an order has a referral discount if and only if it has a referral, and if it is paid its referrer has been given 10000 for it |
| Acceptance.ListsExpiredIff | src/wallets/wallets.service.ts:747-755 | the expiry job's query lists exactly the active wallets past their expiry |
| Acceptance.RunExpiresExactly | src/wallets/wallets.service.ts:745-769 | after any run the job takes the positive balances of exactly those wallets |
| Acceptance.PostedIs | src/wallets/wallets.service.ts:900-938 | a fresh posting adds one entry and moves one wallet: its balance by the amount, its expiry to 365 days from now for the four kinds of credit only |
| Acceptance.AdjustedIs | src/wallets/wallets.service.ts:524-548 | an adjustment moves the balance by its amount, as a credit or a debit by its sign |
| Acceptance.CancelledBalanceIs | src/wallets/wallets.service.ts:550-570 | the balance is taken to zero by one entry, if it was not zero |
| Acceptance.StatusIs | src/wallets/wallets.service.ts:572-579 | the wallet gets the status asked for and keeps the rest |
| ShopService.Shop.CreateTransaction | src/wallets/wallets.service.ts:880-925 | refuses zero, returns the old entry for a used key, else posts and resets the expiry as specified |
| ShopService.Shop.FindByKey | src/wallets/wallets.service.ts:892-898 | the scan of the log finds the first entry with the key |
| ShopService.Shop.GetAvailableBalance | src/wallets/wallets.service.ts:840-861 | nothing for locked or expired wallets, else the balance minus the sum of unexpired HELD holds, never negative |
| ShopService.Shop.CreateHold | src/wallets/wallets.service.ts:382-419 | at most one hold per order, only on an active wallet with enough available; a refusal rolls back |
| ShopService.Shop.CaptureHoldForOrder | src/wallets/wallets.service.ts:421-449 | posts and marks the capture only of a HELD hold |
| ShopService.Shop.ValidateReferralForOrder | src/wallets/wallets.service.ts:292-357 | each refusal in the order of the checks, or the referrer |
| ShopService.Shop.CompletePaidOrderBenefits | src/wallets/wallets.service.ts:474-522 | capture, cashback and reward with the ids written back, as the five specified writes |
| ShopService.Shop.RefundPaidOrder | src/wallets/wallets.service.ts:581-743 | refusals leave the state, else reversals, returns and the order row as specified |
| ShopService.Shop.CancelWalletBalance | src/wallets/wallets.service.ts:550-570 | the balance ends at zero |
| ShopService.Shop.ExpireWallets | src/wallets/wallets.service.ts:745-769 | the loop over the rows read at the start is the specified job |
| ShopService.Shop.CreatePendingOrder | src/orders/orders.service.ts:503-584 | order row, referral, hold, in this order; a refused hold leaves the order behind |
| PaymentDesk.Desk.CreateCheckout | src/payment/payment.service.ts:27-60 | an order with nothing left to pay is finalized and sent at once, any other is left pending, and the invariant is kept |
| PaymentDesk.Desk.SubmitManualOrder | src/orders/orders.service.ts:1042-1108 | a manual order is placed without discounts, finalized and sent, and the invariant is kept |
| PaymentDesk.Desk.SubmitOrder | src/orders/orders.service.ts:152-500 | submitOrder places the order and sends it unpaid, and the invariant is kept |
| ShopService.Shop.FinalizePaidOrder | src/orders/orders.service.ts:1406-1431 | marks the order paid, then completes its benefits |
| ShopService.Shop.CancelOrder | src/orders/orders.service.ts:1557-1616 | refuses unknown, foreign and non-pending orders without a change, else fails the order and rolls back hold and referral |
| ShopService.Shop.FailExpiredPendingOrders | src/orders/orders.service.ts:1630-1655 | bulk update and one rollback per id amount to one simultaneous change of the overdue orders |
| Notices.AnswerIff | src/payment/payment.service.ts:128-180 | 97 exactly for a bad signature, 01 exactly for a missing or unknown reference of its kind, by the first characters, 00 for the rest; the first two write nothing |
| Notices.OrderPaidIff | src/payment/payment.service.ts:182-233 | a signed notice on a pending order pays it, records the transaction number and sends it if and only if the response code is 0, and fails it otherwise |
| Notices.TopupPaidIff | src/payment/payment.service.ts:242-291 | the same for a pending topup and its job |
| Notices.LinkPaidIff | src/custom-payment-links/custom-payment-links.service.ts:238-257 | the same for a pending link |
| Payment.FirstValidNoticeWins | src/payment/payment.service.ts:128-291 | over every run of notices, shop steps, topup jobs and refunds: once a notice on a reference was answered 00, every later one on it, valid or not, leaves the whole state as it is |
| Payment.OnlyFirstValidCounts | src/payment/payment.service.ts:128-291 | any sequence of notices on one reference does exactly what its first validly signed one alone does |
| Payment.DecidedIgnoresNotices | src/custom-payment-links/custom-payment-links.service.ts:238-257 | a decided order, topup or link ignores every notice |
| Payment.NoticeDecides | src/payment/payment.service.ts:128-236 | a notice answered 00 decides its reference, success or failure |
| Payment.SubmissionsPerOrder | src/payment/payment.service.ts:196-233 | over every run an order is sent to the providers once if submitOrder placed it and once if it was ever paid, so twice exactly if both, and never otherwise |
| Payment.DirectOrderSentOnce | src/payment/payment.service.ts:50-83 | over every run whose signed notices come only on orders that createCheckout gave a payment URL, an order placed by submitOrder stays unpaid and is sent exactly once |
| Payment.PaidDirectOrderSentAgain | src/payment/payment.service.ts:196-233 | whenever a validly signed successful notice finds a directly placed order pending, the order has been sent once and is sent a second time |
| Examples.DirectOrderSentTwice | src/orders/orders.service.ts:152-500 | a three-event run from an empty shop: placed directly, numbered, paid by a notice signed with the service's hash, sent twice |
| Payment.OthersDoNotPay | src/orders/orders.service.ts:1406-1431 | no step but a payment notice turns an existing order into a paid one |
| PaymentDesk.Desk.HandleIpn | src/payment/payment.service.ts:128-236 | routing by prefix, codes 97, 01 and 00 and the new state as specified |
| PaymentDesk.Desk.HandleTopupIpn | src/payment/payment.service.ts:242-291 | a pending topup fails, or is paid and scheduled; others are left alone |
| PaymentDesk.Desk.FinalizeFromIpn | src/custom-payment-links/custom-payment-links.service.ts:238-257 | a pending link becomes paid or failed, terminal links stay |
| PaymentDesk.Desk.BeginTopup | src/topup/topup.service.ts:209-262 | the checks before the provider call, and the call counted |
| PaymentDesk.Desk.EndTopup | src/topup/topup.service.ts:263-288 | completion or manual intervention after the provider answered |
| Topups.TopupRun | src/topup/topup.service.ts:209-326 | whatever notices, job steps, cancellations and refunds in whatever order: at most one provider call, only after a notice paid the order, and the finished job leaves COMPLETED or MANUAL_INTERVENTION exactly unless its last write was lost |
| Topups.OutcomeIff | src/topup/topup.service.ts:232-326 | over every run a topup is COMPLETED if and only if a provider call was accepted and its completion saved, and MANUAL_INTERVENTION if and only if its job could not call or its call failed and that was saved |
| Topups.CompletesIff | src/topup/topup.service.ts:263-288 | an event completes a topup if and only if it ends its call that way; any other end of the call marks it for manual intervention unless that write is lost |
| Topups.CalledIff | src/topup/topup.service.ts:209-262 | the provider is called if and only if the job is scheduled and provider, package, ICCID and, for Gadget Korea, the eSIM's record are there |
| Topups.NoticeIff | src/payment/payment.service.ts:248-286 | a pending topup becomes PAID with the notice's payment id and its job scheduled if the notice reports success, else FAILED; any other topup is left alone |
| Topups.FailPendingIff | src/orders/orders.service.ts:1557-1655 | cancellation and the cron job fail a topup exactly if it is pending |
| Topups.FinishedIsFinal | src/topup/topup.service.ts:221-229 | after a saved outcome nothing changes the topup again, refunds included |
| Topups.RefundIff | src/wallets/wallets.service.ts:581-606 | a topup accepts an amount, zero included, exactly if it is within what is left and the job is under way or its last write was lost; then it becomes refunded, else nothing changes |
| Topups.RefundRaceIff | src/topup/topup.service.ts:209-326 | over every order of events, unless the job's last write was lost, a topup has money given back if and only if a refund of a positive amount that fits came in while its job was under way; a COMPLETED one always has its last write |
| Topups.RefundedYetCompleted | src/topup/topup.service.ts:274-276 | for instance a full refund during the provider call, overwritten by the completion |
| OnePay.CanonicalIgnoresOrder | src/payment/onepay.service.ts:76-92 | the hashed string depends only on the values of the vpc_ names, not on insertion order or other parameters |
| OnePay.CanonicalReadsBack | src/payment/onepay.service.ts:80-84 | what is hashed is exactly the vpc_ parameters, each once, as name=value in the order of their names: free of separators it reads back as that list |
| OnePay.BeforeIff | src/payment/onepay.service.ts:82 | the order of names is by first difference, a proper prefix first |
| OnePay.PaymentFields | src/payment/onepay.service.ts:27-42 | each field carries its value; the amount is the price with two zeros behind it |
| Decimals.DecimalReads | src/payment/onepay.service.ts:27 | a number's text reads back as the number, without a leading zero |
| OnePay.VerifyIff | src/payment/onepay.service.ts:60-70 | a query carrying the signed parameters verifies exactly when its signature is the non-empty hash made for them |
| OnePay.PaymentUrlVerifies | src/payment/onepay.service.ts:24-58 | the payment URL's encoded query, read back, is the parameters it was built from and verifies, whatever characters they contain |
| OnePay.PaymentQueryVerifies | src/payment/onepay.service.ts:29-51 | the parameters with the extra ones and their own signature verify as they stand |
| UrlQuery.QueryRoundTrip | src/payment/onepay.service.ts:53-55 | percent-encoded names and values, joined by = and &, read back as the same parameters in the same order |
| OnePay.SortedUnique | src/payment/onepay.service.ts:80-84 | two sorted lists of the same names are equal |
| Pricing.CartSplit | src/orders/orders.service.ts:646-737 | for every catalogue cart and coupon nothing is clipped, what is due is wallet plus cash, and the wallet pays at most what was asked |
| Pricing.ReferralSplit | src/orders/orders.service.ts:702-714 | from the minimum order on, the referral discount is never clipped |
| Pricing.CashbackBounds | src/orders/orders.service.ts:715-717 | cashback is two percent of what is due to the nearest unit, never more than what is due |
| Pricing.DiscountBounds | src/orders/orders.service.ts:43-51 | a discounted whole-thousand price is a whole thousand between zero and list price, within 500 of exact |
| Pricing.DiscountedIs | src/orders/orders.service.ts:43-51 | without a discount the list price, with one the only whole thousand less than 500 below or at most 500 above the exact price |
| Pricing.CouponNear | src/coupons/coupons.service.ts:160-163 | the coupon is its percentage of the subtotal to the hundredth, and taken off to the thousand |
| Pricing.DiscountRaisesIff | src/orders/orders.service.ts:43-51 | for any list price, exactly when the discounted price does not exceed it |
| Pricing.DiscountCanRaise | src/orders/orders.service.ts:43-51 | one percent off 1600 costs 2000 |
| Pricing.CouponBounds | src/coupons/coupons.service.ts:160-163 | on a whole-thousand subtotal the coupon takes off between nothing and everything, in whole thousands |
| Pricing.CouponClippedIff | src/orders/orders.service.ts:688-710 | a coupon never raises what is due, and takes off its full discount exactly while it stays below the upper half of the last thousand; from there on nothing is due |
| Pricing.CouponCanExceed | src/orders/orders.service.ts:692-710 | the whole of 600 is a coupon of 1000, and nothing is due |
| Pricing.CouponExceedsIff | src/coupons/coupons.service.ts:160-163 | on any subtotal, exactly when the rounded coupon exceeds it |
| UnitExpansion.CreateItems | src/orders/orders.service.ts:586-638 | the items written for a cart sum, in quantity, price and cost, to what the lines call for, and each item is a unit of an expanded line or the whole of another |
| UnitExpansion.CreateLineItems | src/orders/orders.service.ts:586-638 | one line makes as many items as it has units, at least one, or one item, each with the unit's or the line's price and cost |
| UnitExpansion.ItemIs | src/orders/orders.service.ts:586-638 | Gadget Korea and JapanTravelSim items are single units priced and converted per unit, all others whole lines, local costs being VND already |
| UnitExpansion.Conserved | src/orders/orders.service.ts:532-542 | for every mix of lines the items add up to the ordered quantity and the subtotal, and miss the order's cost by exactly the gaps of local per-unit lines |
| UnitExpansion.LineConserved | src/orders/orders.service.ts:586-638 | per line, exactly when quantity and cost are kept |
| UnitExpansion.CostCanBeLost | src/orders/orders.service.ts:618-620 | a local plan of a per-unit provider without a rate costs the order but not its items |
| EsimAssignment.AssignEsims | src/webhooks/webhooks.service.ts:257-291 | each eSIM with an ICCID goes to the first item of its package code with room, else to none |
| EsimAssignment.GreedyIsMaximal | src/webhooks/webhooks.service.ts:257-291 | for every package code exactly min(eSIMs with an ICCID, total quantity of its items) are assigned |
| EsimAssignment.FirstFit | src/webhooks/webhooks.service.ts:257-291 | an eSIM goes to the first item of its code with room and gets its plan, to none only if all of them are full, and is skipped only without an ICCID |
| EsimAssignment.RoomIs | src/webhooks/webhooks.service.ts:275 | an item takes its quantity, one if it has none, nothing if it is negative |
| EsimAssignment.CapacityAndCode | src/webhooks/webhooks.service.ts:270-291 | no item holds more than its quantity, and only eSIMs of its own code |
| GadgetKorea.AggregateQuantities | src/orders/orders.service.ts:893-904 | one product per lower-cased option with the sum of its items' quantities |
| GadgetKorea.QuantityAdds | src/orders/orders.service.ts:892-896 | every item adds its quantity to what is asked for its own lower-cased option, and to no other |
| GadgetKorea.AssignTopups | src/orders/orders.service.ts:905-931 | the n-th item of an option gets the n-th id returned for it, or none |
| GadgetKorea.IdsComplete | src/orders/orders.service.ts:912-919 | every product with both ids is queued under its lower-cased option, behind those before it |
| GadgetKorea.NoSharedTopup | src/orders/orders.service.ts:920-931 | distinct ids returned never reach two items |
| GadgetKorea.OwnOption | src/orders/orders.service.ts:905-931 | each id given was returned for the item's own lower-cased option |
| GadgetKorea.ServedIsMin | src/orders/orders.service.ts:920-931 | per option min(ids returned, items) items are served |
| GadgetKorea.ServedIff | src/orders/orders.service.ts:889-931 | an item is served exactly if enough ids came back for it and those before it; always when the requested quantity came back |
| JapanTravelSim.Submit | src/orders/orders.service.ts:934-977 | the batch loop sends the batches and gives every item the last channel id answered for its id |
| JapanTravelSim.BatchesPartition | src/orders/orders.service.ts:939-941 | the batches put end to end are all items in order; each has ten of them but the last, which has one to ten |
| JapanTravelSim.ItemIdInjective | src/orders/orders.service.ts:951 | the ids built from the index tell an order's items apart |
| JapanTravelSim.ChannelIs | src/orders/orders.service.ts:960-962 | an id's channel is the channel id of its last datum, none exactly without one |
| JapanTravelSim.AssignmentIs | src/orders/orders.service.ts:970-977 | an item gets that channel id unless it is empty |
| JapanTravelSim.ItemGetsTheLast | src/orders/orders.service.ts:960-977 | whatever the provider answers, item k gets what the last batch naming its id says, and none if no batch names it |
| JapanTravelSim.ItemGetsItsOwn | src/orders/orders.service.ts:960-977 | if no other batch names item k, it gets exactly what its own batch answered for its own id, none exactly if that batch failed, left it out or answered an empty id |
| JapanTravelSim.BatchedIsUnbatched | src/orders/orders.service.ts:934-977 | for a provider that answers item by item, batching gives every item what one request would have |
| UrlAncestors.BuildUrlAncestors | src/utils/url-ancestors.ts:16-56 | the loop terminates and returns the specified ancestors of the normalized path |
| UrlAncestors.AncestorsExact | src/utils/url-ancestors.ts:42-55 | from the path through exactly its slash-boundary prefixes, strictly shrinking, to the root |
| UrlAncestors.NormalizeIsNormal | src/utils/url-ancestors.ts:19-37 | the normalized path is empty or has no query, fragment, double slash or trailing slash |
| UrlAncestors.CutAtIs | src/utils/url-ancestors.ts:24-27 | everything before the first query or fragment mark is kept, and everything if there is none |
| UrlAncestors.TrimIs | src/utils/url-ancestors.ts:20 | white space is removed at the two ends and nothing else |
| UrlAncestors.CollapseDrops | src/utils/url-ancestors.ts:30 | of two adjacent slashes one is dropped, wherever they stand |
| UrlAncestors.CollapseIdle | src/utils/url-ancestors.ts:30 | a path without adjacent slashes is left alone |
| UrlAncestors.StripIs | src/utils/url-ancestors.ts:33-35 | trailing slashes are dropped and nothing else |
| UrlAncestors.RerunIff | src/utils/url-ancestors.ts:16-56 | rerun on the i-th result yields the list from i on, exactly unless that result ends in white space |
| UrlAncestors.SpaceBreaksRerun | src/utils/url-ancestors.ts:20 | for instance the middle ancestor of a path with a space before its second slash |
| UrlAncestors.RerunWithoutSpaces | src/utils/url-ancestors.ts:16-56 | in particular for every path free of white space |

## Left out

- Database races, deadlocks and failures inside a handler, other than the interruptions of completePaidOrderBenefits and the lost writes of executeTopup: handlers are atomic.
- Floating point: sums of VND are integers and percentages are reals, so rounding errors of doubles below Math.round are not modelled.
- The provider calls and items of submitOrder (`src/orders/orders.service.ts:222-500`): its order, referral, hold and the fact that it sends are modelled.
- Admin PATCH of orders, eSIMs and links, soft deletion of failed orders, and all CRUD services.
- Coupon eligibility and usage counting: a checkout takes the coupon's discount as given; the arithmetic is in Pricing.
- Trimming and upper-casing of referral codes: a request carries the code as stored; an empty code counts as absent.
- Descriptive columns (reason, notes, metadata, source type, refund.walletTransactionId, payment method) and the fallbacks for missing price columns of old orders.
- The eXu and cash effects of refunding a topup on its buyer's wallet: topups keep rows of their own with status and refunded amount, and do not count among the paid orders the referral check looks at.
- Exchange rates, HTTP, provider protocols, mail, QR images, invoices, WebSockets: inputs or nothing.
- The keyed hash: any function from strings to strings; that nobody else can compute it is not stated.
- UTF-8 itself: any text encoding with a decoder that gives every string back. Amounts are written in decimal, also from 10 to the 21 on.
- Strings are sequences of Unicode characters, not UTF-16 units; the sort order of astral names may differ, the independence from insertion order does not.
- The batch-level order id, group, SKU, days and mail address sent to JapanTravelSim; only the item ids matter to the matching.
- The upsert of eSIM records from a webhook, and their activation codes.
- Airalo, EsimAccess and local-inventory submissions: one call or one repository query each, nothing to match.
- Fractional quantities: quantities are integers.
- GadgetKorea.AggregateQuantities: the order of products in the request is not modelled.
- Overview reports and crash recovery of refundOrder, whose keys contain a fresh refund id.
