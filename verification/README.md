# Vintage.br marketplace: verified model of the order, money and session protocols

This project models the parts of the marketplace API in which several parties change the same rows at once, and proves
what those changes keep. Nothing here executes the services; every statement is checked by Dafny's verifier
(`dafny verify dfyconfig.toml`).

The main part is the money and order protocol. The database is a value (`Types.Db`): orders with their dispute and
snapshot, listings, bundles, wallets, ledger rows and a clock. Every `$transaction`, and every single `updateMany`, is a
function on it (`Transactions`). The class `Store.Store` performs the same transactions in place, statement by statement
and loop by loop, and each of its methods is proved to end in exactly the state the function gives. `Runs` lets any
number of calls read a row at one moment and commit at another, with other calls, hourly jobs, crashes, provider answers
and time in between; most writes of a commit carry no guard of their own, and are safe only by the invariants proved in
`Escrow`, `Lifecycle`, `Ledger`, `Refunds`, `Timing` and `Progress` for every run. Where an invariant does not survive
every run, as with listings written on a stale read, the runs in which it does are characterised exactly.

| files | what they hold |
|---|---|
| `Basics`, `Types`, `Pricing`, `Transactions`, `Due` | rows, checkout arithmetic, what each transaction does, which orders each job selects |
| `Store`, `Passes` | the tables changed in place; a pass of each hourly job with nothing in between |
| `Reads`, `Escrow`, `Sales`, `Lifecycle`, `Ledger` | one invariant each, kept by every transaction whatever stale copy it carries |
| `Runs`, `SettledRuns`, `Checkout` | the interleaved runs, and what holds at every moment of each |
| `Refunds`, `MoneyBack`, `Outrun` | how often a buyer is paid back, whether at all, and for an order that goes on; each as an exact condition |
| `Timing`, `Progress` | never too early, and never too late: the hourly jobs' passes with everything else in between |
| `Listings`, `Bundles` | whether a listing is sold once, and whether a bundle keeps two items; each as an exact condition |
| `Accounts` | what deleting an account leaves behind, and for how long |
| `Races` | runs, step by step from an empty shop, that break a wider promise |
| `Provider` | the payment client's retry loop and idempotency keys |
| `Returns` | exactly when settling a return is safe for the escrow, and when it pays the buyer twice |
| `Tokens`, `TokenStore` | refresh-token rotation with reuse detection (section 4.14.2 of RFC 9700), statement by statement |
| `Offers`, `OfferBook` | counter-offer chains |
| `Gateway`, `GatewayServer`, `RateLimit` | the chat gateway's in-memory maps and its fixed-window limiter |
| `SearchIndex`, `Catalog` | the search index beside the listing table |
| `Ads`, `AdServer` | ad selection, billing and clicks |
| `TaxIds`, `PixKeys`, `Keywords`, `Text` | CPF and CNPJ numbers, PIX keys, the prohibited-content check |

Conventions: ids are positions in append-only tables; money is in cents (ad prices in the scale of their columns); a day
is 86,400 seconds. A few fields are history variables that no modelled code reads: an order's `paidAt`, a world's `late`
and `jobs`, a token's `chain` and `source`, the access tokens `issued`, the gateway's `presence`, an impression's
`billed`.

In a run a pass of an hourly job is several steps: a query, which starts a call on every order it selects; each of those
calls, with anything else in between; and an end, possible once none of them is in flight. A pass that loses a call to a
crash never ends. Passes of the same job may overlap: the job's lock lasts five minutes, and lets the job run unlocked
when its table cannot be read (`apps/api/src/common/services/cron-lock.service.ts:27-61`).

## Assumptions about the surroundings

- The payment provider answers a refund key (payment and amount) it has once accepted with success ever after, and a
  reported failure means that no money moved. `Provider.Provider.Request` shows what the client's retries leave of the
  second: it fails exactly when an attempt got through and every reply was lost or transient.
- Socket ids are unique, refresh tokens and their hashes are injective, the clock does not run backwards.
- The progress theorem assumes that each hourly job goes on finishing passes, one begun in every period; what a finished
  pass has done is proved (`Progress.PassLeavesNoneDue`).

## Where the code does less than it says

For each of these a lemma gives a concrete case, and another the exact condition.

- A buyer can be paid back twice, once in the wallet and once by the provider, which the comments at
  `apps/api/src/orders/orders-cron.service.ts:172-181` mean to rule out. It happens exactly when auto-cancel's refund is
  first accepted after a dispute or another auto-cancel is through with the order, or is accepted before a refused
  auto-cancel makes its wallet credit (`Refunds.PaidBackTwiceIff`); with auto-cancels of the order kept apart, exactly
  when it is accepted after a dispute has refunded the order (`Refunds.PaidBackTwiceAloneIff`). Cases:
  `Races.RefundedTwice`, and with no dispute `Races.RefundedTwiceByOverlap`.
- Auto-cancel refunds before it claims. When it loses its race to the seller, the buyer has the money back while the
  order goes on (`Races.RefundedYetShipped`); exactly when: `Outrun.GoesOnIff`, `Outrun.RefundedYetGoesOnIff`.
- A crash between a dispute settled for the buyer and its refund loses the refund for good, as no job looks for it
  (`Races.RefundForgotten`). A refunded order is paid back exactly when no crash dropped its own refund or auto-cancel's
  was accepted (`MoneyBack.PaidBackIff`).
- A listing can be sold twice. Sellers, jobs and moderators write listings without claiming them, so a write that was
  checked before a sale can land after it (`Races.SoldTwice`: a seller saves a listing as ACTIVE while a buyer checks
  out). A listing is sold to one order at a time throughout a run exactly when no such write lands on an order that
  forbids its status (`Listings.SoldOnceIff`); with nothing between check and write, only moderation can still do it
  (`Listings.FreshOverwritesIff`).
- Deleting an account cancels the buyer's unpaid orders, leaves their snapshots, and leaves their listings SOLD to nobody,
  off sale for good unless a write in flight or a lifted suspension brings them back (`Accounts.LeftBehind`,
  `Accounts.DeletionLeaves`, `Accounts.NeverOnSaleAgain`). An order that is over still has its snapshot exactly when such
  a deletion cancelled it (`SettledRuns.KeptAfterwardsIff`).
- A bundle's minimum of two items is checked on an unlocked read, so two removals at once leave one item
  (`Bundles.TwoRemovalsLeaveOne`); exactly when: `Bundles.KeepsTwoIff`.
- Settling or escalating a return of a COMPLETED order, which `apps/api/src/returns/returns.service.ts:75` allows, takes
  the seller's pending balance below zero or out of step (`Returns.CompletedReturnOverdraws`); exactly when:
  `Returns.ApproveKeepsEscrowIff`, `Returns.EscalateKeepsEscrowIff`.
- Approving a return credits the buyer's wallet and then asks the provider for the same money, so it pays twice exactly
  when the order has a payment whose refund the provider accepts (`Returns.ApprovedReturnPaysTwice`; exactly when:
  `Returns.ApprovePaysTwiceIff`).
- The sweep after a refresh-token replay does not reach a refresh that has already claimed its token, which goes on to
  create a live session (`Tokens.SweptSessionGoesOn`; exactly when: `Tokens.SweepEndsSessionIff`). An administrator's
  forced logout, documented as ending refresh tokens too, leaves every live session refreshable
  (`Tokens.ForcedLogoutLeavesSessions`, of every session).
- A seller can accept their own counter-offer, because accepting checks the seller alone
  (`Offers.SellerAcceptsOwnCounter`; exactly when: `Offers.AcceptedByOtherPartyIff`), and `findThread` leaves out the
  last offer of a negotiation exactly when it has used up its counter-offers (`Offers.FourOffers`; exactly when:
  `Offers.FirstThreeLosesIff`).
- A listing is left out of step with the search index, with no sync to come, exactly by a cancellation after the last
  payment attempt, by a bulk writer (ban, vacation on or off, account deletion) that finds a listing it had not read, and
  by the retention job when the row it deletes is back on sale (`SearchIndex.StepAgreesIff`). Cases:
  `SearchIndex.ReactivatedIsMissing`, `SearchIndex.BannedStaysListed`, `SearchIndex.ReapedStaysListed`.
- A campaign's `spentBrl` column holds whole cents, so it equals the recorded costs only when one impression costs a
  whole number of cents, and below half a cent nothing is ever spent (`Ads.CheapImpressionSpendsNothing`; exactly when:
  `Ads.SpentIsSumIff`, `Ads.CheapIsFreeIff`).
- Normalising a phone key twice is not normalising it once for short numbers (`PixKeys.ShortPhoneGrows`; exactly when:
  `PixKeys.IdempotentIff`).

One comment is wrong without a promise being broken:

- The comment on `enterHold` says that the buyer may still dispute during the hold; `disputes.service.ts:113` refuses any
  order that is not DELIVERED, and the model follows the code.

## Model

| member | source | states |
|---|---|---|
| Pricing.OrderAddsUp | apps/api/src/orders/orders.service.ts:155-179 | for every price, weight and coupon percentage: item + shipping + stored fee = total + stored discount to the cent, and the order is free exactly when the total is 0, exactly when the coupon is for at least 100% |
| Pricing.DiscountSplits | apps/api/src/coupons/coupons.service.ts:46-49 | the rounded and capped discount and what it leaves round to the rounded subtotal, and leave nothing exactly from 100% on |
| Pricing.BundleAddsUp | apps/api/src/bundles/bundles.service.ts:271-289 | equal shares of the combined shipping sum to it within half a cent an item, and each total is within a cent of its stored parts |
| Checkout.SingleOrder | apps/api/src/orders/orders.service.ts:185-311 | a checkout that finds the listing on sale stores one order that adds up exactly, is paid from the start exactly when there is nothing to pay, and then puts exactly its price in escrow |
| Checkout.BundledOrders | apps/api/src/bundles/bundles.service.ts:218-289 | a bundle's orders share the shipping cost of the heaviest item within half a cent each, add up within a cent, and are never free |
| Checkout.MaxWeightIsMax | apps/api/src/bundles/bundles.service.ts:218 | the weight the bundle ships for is the largest of its items' |
| Checkout.EveryOrderAddsUp | apps/api/src/orders/orders.service.ts:219-237 | in every run every order adds up within a cent and an order for nothing never waits for payment |
| Checkout.ExactForGood | apps/api/src/orders/orders.service.ts:219-237 | what an order is for, its parties and its amounts never change after checkout |
| Store.Store.CreateOrder | apps/api/src/orders/orders.service.ts:185-320 | the in-place checkout ends in exactly the state of the transaction function, and succeeds exactly when the listing is still on sale |
| Store.Store.CheckoutBundle | apps/api/src/bundles/bundles.service.ts:232-330 | the two loops that claim listings and create orders end in exactly the all-or-nothing transaction |
| Store.Store.Settle | apps/api/src/payments/payments.service.ts:940-1004 | settlement flips PENDING to PAID, adds the price to pending and writes one hold row, or changes nothing |
| Store.Store.CancelByBuyer | apps/api/src/orders/orders.service.ts:471-502 | the buyer's cancellation, with its conditional reactivation, is exactly its transaction |
| Store.Store.CancelStalePending | apps/api/src/orders/orders-cron.service.ts:341-367 | the stale-payment cancellation, with its unconditional reactivation, is exactly its transaction |
| Store.Store.AutoCancel | apps/api/src/orders/orders-cron.service.ts:193-277 | the unshipped cancellation's claim, reversal, credit, reactivation and purge are exactly its transaction |
| Store.Store.MarkShipped | apps/api/src/orders/orders.service.ts:541-549 | claims PAID and stamps the shipment, or changes nothing |
| Store.Store.MarkDelivered | apps/api/src/orders/orders.service.ts:635-651 | claims SHIPPED and sets the delivery time and the dispute deadline five days later, or changes nothing |
| Store.Store.EnterHold | apps/api/src/orders/orders.service.ts:734-757 | claims DELIVERED and starts the hold window, or changes nothing |
| Store.Store.FinalizeEscrow | apps/api/src/orders/orders.service.ts:798-880 | claims HELD and moves exactly the item price from pending to balance with one row, or changes nothing |
| Store.Store.ForceHold | apps/api/src/admin-analytics/admin-orders.controller.ts:127-146 | the administrator's re-hold as one indivisible step |
| Store.Store.OpenDispute | apps/api/src/disputes/disputes.service.ts:82-152 | opens a dispute on a DELIVERED order that has none, or changes nothing |
| Store.Store.EscalateStuck | apps/api/src/orders/orders-cron.service.ts:498-529 | claims SHIPPED and opens a dispute unless there is one |
| Store.Store.Resolve | apps/api/src/disputes/disputes.service.ts:276-402 | claims the open dispute, overwrites the order's status, settles the escrow to the winner's side and purges the snapshot |
| Store.Store.RefundFallback | apps/api/src/disputes/disputes.service.ts:476-529 | credits the wallet with the order's total exactly when the buyer has no refund row for it |
| Store.Store.SpendBalance | apps/api/src/promotions/promotions.service.ts:168-190 | a promotion's debit takes the price only from a balance that covers it |
| Store.Store.AutoConfirmOrders | apps/api/src/orders/orders-cron.service.ts:70-101 | the job's loop is exactly the pass over what it selected; it leaves none of it due and no other order changed, and keeps the escrow, sale and dispute invariants |
| Store.Store.ReleaseHeldEscrow | apps/api/src/orders/orders-cron.service.ts:109-138 | the job's loop is exactly the pass over what it selected; it leaves none of it due and no other order changed, and keeps the escrow, sale and dispute invariants |
| Store.Store.AutoCancelUnshippedOrders | apps/api/src/orders/orders-cron.service.ts:145-305 | the same, for any set of refunds the provider accepts |
| Store.Store.EscalateStuckShipments | apps/api/src/orders/orders-cron.service.ts:471-542 | the job's loop is exactly the pass over what it selected; it leaves none of it due and no other order changed, and keeps the escrow, sale and dispute invariants |
| Store.Store.EditListing | apps/api/src/listings/listings.service.ts:319-379 | every check is on the listing as read before; the write is unconditional, whatever the listing has become |
| Store.Store.RemoveListing | apps/api/src/listings/listings.service.ts:434-467 | with nothing in between, a listing is deleted exactly when none of its orders is still open |
| Store.Store.DeleteAccount | apps/api/src/users/users.service.ts:833-845 | both updateMany statements of the deletion: exactly the buyer's PENDING orders are cancelled, snapshots kept, and exactly the seller's ACTIVE and PAUSED listings deleted |
| Store.Store.RemoveBundleItem | apps/api/src/bundles/bundles.service.ts:129-160 | every check is on the bundle as read before, whatever it is by now; the deletion removes just that item, if it is still there |
| Bundles.KeepsTwoIff | apps/api/src/bundles/bundles.service.ts:142-157 | in every run a bundle that began with two different items or more has at least two exactly when no removal ever deleted one of its last two |
| Bundles.AloneKeepsTwo | apps/api/src/bundles/bundles.service.ts:142-157 | in every run with no two removals of it in flight at once a bundle keeps at least two items |
| Bundles.TwoRemovalsLeaveOne | apps/api/src/bundles/bundles.service.ts:129-160 | two removals that both read three items leave one |
| Passes.PassLeavesNoneDue | apps/api/src/orders/orders-cron.service.ts:70-138 | of a pass with nothing in between: no order is left due and no order that was not due has changed |
| Passes.PassIsSafe | apps/api/src/orders/orders-cron.service.ts:70-138 | a job's pass keeps pending equal to the escrow, listings sold at most once and every dispute and snapshot in step with its status |
| Progress.PassLeavesNoneDue | apps/api/src/orders/orders-cron.service.ts:70-138 | of a pass with any other steps between its query and its end: each order due at its start has left its status for good once no call of the pass is in flight or lost |
| Reads.ExecExtends | apps/api/src/orders/orders.service.ts:219-237 | no transaction removes a row or changes what an order is for, so stale copies stay usable |
| Reads.ClaimAllSells | apps/api/src/bundles/bundles.service.ts:253-269 | a bundle's claim loop that succeeds had distinct listings, all on sale, and sells exactly those |
| Escrow.Keeps | apps/api/src/orders/orders.service.ts:290-311 | every transaction, whatever stale copy it carries, keeps each seller's pending equal to the prices of the seller's orders in escrow |
| Runs.PendingIsEscrow | apps/api/src/orders/orders.service.ts:798-880 | in every run, re-holds included, pending equals that sum, is never negative, and covers each order in escrow, so no unguarded decrement overdraws it |
| Sales.KeepsIff | apps/api/src/orders/orders-cron.service.ts:266-270 | of all transactions, whatever stale copies they carry, only an unclaimed write of a listing breaks "one standing order, off sale while it stands, SOLD while it can be cancelled", and only by writing a status that a standing order forbids |
| Sales.ReactivationIsSound | apps/api/src/orders/orders-cron.service.ts:341-360 | a cancellation that wins its claim finds the listing SOLD to no other order, so setting it ACTIVE is sound |
| Sales.BundleAllOrNothing | apps/api/src/bundles/bundles.service.ts:232-339 | a bundle checkout makes an order for every item, exactly when the bundle is open and all its items are distinct and on sale, and otherwise changes nothing |
| Listings.SoldOnceIff | apps/api/src/orders/orders.service.ts:185-251 | in every run a listing is sold to one order at a time, and off sale meanwhile, at every moment exactly when no unclaimed write of it landed on a standing order that forbids the status written |
| Listings.NoDoubleSale | apps/api/src/orders/orders.service.ts:185-251 | in every run a listing never overwritten so has at most one order that is not cancelled, and while it has one it is neither ACTIVE nor PAUSED |
| Listings.BackOnSaleIff | apps/api/src/listings/listings.service.ts:322-379 | while an order of it stands, a listing not overwritten before becomes ACTIVE or PAUSED exactly by an unclaimed write of that status |
| Listings.FreshOverwritesIff | apps/api/src/moderation/moderation.service.ts:79-125 | checked and written with nothing in between, a write overwrites a sale exactly when moderation takes the listing of an order that can still be cancelled, or a suspended listing with an order standing is put up again |
| Races.SoldTwice | apps/api/src/listings/listings.service.ts:319-379 | a run in which a seller's edit lands after a sale and a second buyer checks out: two PENDING orders of one listing |
| Runs.DisputedMeansOpen | apps/api/src/disputes/disputes.service.ts:82-152 | in every run an order has an OPEN dispute exactly while it is DISPUTED, and then still has its snapshot |
| SettledRuns.OneResolution | apps/api/src/disputes/disputes.service.ts:286-294 | in every run each resolved dispute was resolved by exactly one claimant, and no other by any |
| SettledRuns.KeptAfterwardsIff | apps/api/src/users/users.service.ts:842-845 | in every run, re-holds included, an order that is over still has its snapshot exactly when the deletion of its buyer's account cancelled it |
| SettledRuns.SnapshotIff | apps/api/src/disputes/disputes.service.ts:394-399 | without re-holds an order has its snapshot exactly while it is not over, or when its buyer's account deletion cancelled it |
| Accounts.DeletionIsRun | apps/api/src/users/users.service.ts:789-861 | the whole deletion transaction is a stretch of a run, from any moment on, so what holds in every run holds of runs with deletions |
| Accounts.DeletionLeaves | apps/api/src/users/users.service.ts:833-845 | in every run, deleting the account of the buyer of an unpaid order cancels it, keeps its snapshot, and leaves its listing (unless overwritten before) SOLD to nobody |
| Accounts.NeverOnSaleAgain | apps/api/src/users/users.service.ts:842-845 | a listing SOLD or DELETED with no standing order and no other write of it in flight stays so whatever happens, unless moderation begins to suspend it |
| Accounts.LeftBehind | apps/api/src/users/users.service.ts:842-845 | a run in which a buyer checks out and deletes the account: CANCELLED, snapshot kept, listing SOLD to nobody for good |
| SettledRuns.WalletsReplay | apps/api/src/orders/orders.service.ts:848-872 | without re-holds every wallet's balance and pending can be recomputed from its ledger rows, and the balance is never negative |
| SettledRuns.EscrowSettledOnce | apps/api/src/disputes/disputes.service.ts:330-391 | without re-holds an order's escrow is held at most once and settled at most once, to the seller's balance exactly when the order is COMPLETED |
| Ledger.Keeps | apps/api/src/promotions/promotions.service.ts:242-262 | every transaction but the re-hold keeps wallets replayable, balances non-negative and each order's hold and release rows as its status calls for |
| Lifecycle.StrictKeeps | apps/api/src/orders/orders.service.ts:635-651 | every transaction but the re-hold, account deletion included, keeps each order's dispute, snapshot and dates as its status calls for; only an unpaid cancelled order may have kept its snapshot |
| Lifecycle.StatusOnlyClimbs | apps/api/src/orders/orders.service.ts:541-549 | every change of status climbs in rank |
| SettledRuns.NothingRevisited | apps/api/src/orders/orders.service.ts:644-651 | between any two moments of a run a status stays or climbs, the dispute deadline never moves once set, and the release date does not move while HELD |
| Refunds.RefundedExactly | apps/api/src/disputes/disputes.service.ts:476-529 | in every run, overlapping auto-cancels included, all wallet refunds of an order are one row, to its buyer, for exactly its total; an auto-cancelled order was refunded by the method it records, and in no other way unless two refunds crossed |
| Refunds.PaidBackTwiceIff | apps/api/src/orders/orders-cron.service.ts:181-264 | in every run a buyer credited in the wallet is also paid back by the provider exactly when auto-cancel's refund was first accepted after a dispute or another auto-cancel was through with the order, or was accepted before a refused auto-cancel made its credit |
| Refunds.PaidBackTwiceAloneIff | apps/api/src/orders/orders-cron.service.ts:181-264 | where no two auto-cancels of the order are in flight at once, exactly when auto-cancel's refund was first accepted after a dispute had refunded the order |
| MoneyBack.PaidBackIff | apps/api/src/disputes/disputes.service.ts:405-446 | in every run, once no refund of a REFUNDED order is under way, its buyer has been paid back exactly when no crash dropped that refund or an auto-cancel's was accepted |
| MoneyBack.MoneyComesBack | apps/api/src/disputes/disputes.service.ts:418-446 | in every run, unless a crash drops the order's own refund, a paid order that is cancelled or refunded has been paid back, once its dispute refund is no longer under way |
| Outrun.GoesOnIff | apps/api/src/orders/orders-cron.service.ts:181-217 | in every run, when an auto-cancel whose refund was accepted commits, the buyer has the money, and the order goes on exactly when it had left PAID without being over |
| Outrun.RefundedYetGoesOnIff | apps/api/src/orders/orders-cron.service.ts:181-217 | in every run, with no accepted auto-cancel of it in flight, an order goes on refunded exactly when it outran an accepted auto-cancel, or a crash lost one, and nothing called it off since |
| Provider.Provider.Request | apps/api/src/payments/mercadopago.client.ts:143-221 | whatever the network loses, the retried request moves the money at most once and in 134 s at most; a success means it moved, and a reported failure means it did not exactly when no attempt got through |
| Provider.KeysDiffer | apps/api/src/payments/mercadopago.client.ts:131-141 | two payment attempts have the same key text exactly when they agree in method, order, amount, attempt number and extra |
| Races.RefundedTwice | apps/api/src/orders/orders-cron.service.ts:181-192 | a run at whose end the buyer has been paid back by wallet and by provider |
| Races.RefundedTwiceByOverlap | apps/api/src/orders/orders-cron.service.ts:199-205 | the same with no dispute: two overlapping auto-cancels, one refused and one accepted |
| MoneyBack.ForgottenForGood | apps/api/src/disputes/disputes.service.ts:418-446 | an order refunded in name only, with no refund or cancellation of it in flight, had its refund dropped by a crash and is never paid back whatever happens |
| Races.RefundForgotten | apps/api/src/disputes/disputes.service.ts:405-446 | a run after which a buyer who won the dispute is never paid, whatever follows |
| Races.RefundedYetShipped | apps/api/src/orders/orders-cron.service.ts:193-217 | a run at whose end the buyer has been paid back and the order is SHIPPED, its price still in escrow |
| Timing.NeverReleasedEarly | apps/api/src/orders/orders-cron.service.ts:76-130 | without re-holds an order enters HELD only by the buyer or more than five days after delivery, and leaves it only by an administrator or when the hold window has passed; otherwise only a settled dispute completes an order |
| Timing.BalanceNeverEarly | apps/api/src/orders/orders.service.ts:798-880 | without re-holds a balance rises only by an order's price, for its seller, when the order's hold window has passed in full, an administrator releases it or its dispute is settled; or by an order's total, for its buyer, when the step refunds that order, which is over without completing |
| Progress.DecidedInTime | apps/api/src/orders/orders-cron.service.ts:145-505 | while the hourly jobs go on finishing passes, with anything else going on during them, a paid order is over or DISPUTED within 40 days, the hold window and one job period for each of four stages |
| Returns.ApproveKeepsEscrowIff | apps/api/src/returns/returns.service.ts:347-422 | approving a return keeps the escrow sum exactly when the order's price is still in escrow (or 0, or already refunded) |
| Returns.EscalateKeepsEscrowIff | apps/api/src/orders/orders-cron.service.ts:420-451 | escalating a return keeps it exactly when the price is still in escrow (or 0, or there is a dispute) |
| Returns.CompletedReturnOverdraws | apps/api/src/returns/returns.service.ts:75-79 | at the end of a run that completes one sale, approving its return takes the seller's pending below zero, and escalating it breaks the escrow sum |
| Returns.ApprovePaysTwiceIff | apps/api/src/returns/returns.service.ts:389-434 | in any reachable state, approving the return of an order not credited before credits the wallet, and returns the payment too exactly when there is one and the provider accepts (or has accepted) its key; no other order's refunds change |
| Returns.ApprovedReturnPaysTwice | apps/api/src/returns/returns.service.ts:389-434 | at the end of a run that completes one sale, approving its return pays the buyer by wallet and by provider |
| Tokens.NoFork | apps/api/src/auth/auth.service.ts:1846-1871 | in every interleaving each sign-in's chain has at most one token that is live or claimed and not yet replaced |
| Tokens.LinksAreSimplePaths | apps/api/src/auth/auth.service.ts:1857-1871 | replacement links lead forward within one chain and no two share a target |
| Tokens.ReplayIsFinal | apps/api/src/auth/auth.service.ts:1826-1902 | whenever a used or revoked token is presented again, then from the moment that call commits, whatever happened in between and happens later, no row of the user of that moment is ever redeemed and no access token issued before is ever accepted |
| Tokens.SweepIsFinal | apps/api/src/auth/auth.service.ts:1884-1902 | after a replay's sweep no row of the user that existed can ever be redeemed, and no access token of an earlier version is ever accepted |
| Tokens.SweepEndsSessionIff | apps/api/src/auth/auth.service.ts:1846-1874 | a sweep ends a session for good exactly when none of its tokens is past its claim at that moment |
| Tokens.SweptSessionGoesOn | apps/api/src/auth/auth.service.ts:1846-1874 | a run in which a refresh past its claim creates a live session after the sweep |
| Tokens.ForcedLogoutLeavesSessions | apps/api/src/moderation/moderation.service.ts:211-228 | after a forced logout any live session's next refresh yields an accepted access token |
| TokenStore.TokenStore.RefreshToken | apps/api/src/auth/auth.service.ts:1810-1874 | one refresh on its own is the five steps of the protocol, and succeeds exactly for a live unexpired token |
| TokenStore.TokenStore.HandleReuse | apps/api/src/auth/auth.service.ts:1884-1902 | revokes every row of the user and bumps the version |
| TokenStore.TokenStore.RevokeRefreshToken | apps/api/src/auth/auth.service.ts:1919-1926 | logging out revokes the presented row alone |
| TokenStore.TokenStore.SignIn | apps/api/src/auth/auth.service.ts:2006-2037 | signing in creates one live row of its own chain and an accepted access token |
| Offers.OffersFormPaths | apps/api/src/offers/offers.service.ts:274-348 | in every interleaving an offer opens a negotiation or counters exactly one offer, as the other party, at depth one more and at most three; an offer is COUNTERED exactly when one counters it |
| Offers.AnswersAreFinal | apps/api/src/offers/offers.service.ts:222-235 | an answered offer keeps its answer for good |
| Offers.AcceptedByOtherPartyIff | apps/api/src/offers/offers.service.ts:189-235 | an accepted offer was made by the other party exactly when the buyer made it |
| Offers.SellerAcceptsOwnCounter | apps/api/src/offers/offers.service.ts:189-235 | a run in which a seller accepts the seller's own counter-offer |
| Offers.OnItsThread | apps/api/src/offers/offers.service.ts:384-392 | walking up from any offer reaches the root of the thread on which it stands at its depth |
| Offers.ThreadIsPath | apps/api/src/offers/offers.service.ts:393-415 | depth, parent and creation time all follow a thread's order |
| Offers.ThreadIsShort | apps/api/src/offers/offers.service.ts:288-292 | a negotiation has at most four offers |
| OfferBook.OfferBook.FindThread | apps/api/src/offers/offers.service.ts:372-415 | the walk terminates and returns the first three offers of the negotiation in order, or all if fewer |
| Offers.FirstThreeLosesIff | apps/api/src/offers/offers.service.ts:393-415 | the first three offers of a negotiation leave out its last exactly when it has used up its three counter-offers |
| Offers.FourOffers | apps/api/src/offers/offers.service.ts:288-292 | a run that ends in a negotiation of four offers, of which the first three leave out the last |
| OfferBook.OfferBook.Counter | apps/api/src/offers/offers.service.ts:274-348 | exactly the permitted counter-offers are made, in the negotiation they answer |
| OfferBook.OfferBook.Accept | apps/api/src/offers/offers.service.ts:189-235 | accepts exactly a pending unexpired offer on the seller's listing |
| OfferBook.OfferBook.Reject | apps/api/src/offers/offers.service.ts:417-446 | rejects exactly a pending offer on the seller's listing |
| Gateway.RunKeeps | apps/api/src/messages/messages.gateway.ts:175-226 | in every run the socket maps agree, without duplicates, empty lists or an eleventh socket; conversations and rate limits exist only for online users and connected sockets; presence alternates |
| Gateway.MapsAreInverse | apps/api/src/messages/messages.gateway.ts:538-540 | the two socket maps are exact inverses and a user is online exactly when a socket maps to them |
| Gateway.AtMostTwice | apps/api/src/messages/messages.gateway.ts:274-293 | whatever other handlers do, any 60 seconds see at most twice the ceiling of a socket's events accepted |
| RateLimit.AtMostTwice | apps/api/src/messages/messages.gateway.ts:44-46 | the same for one slot and any ordered sequence of checks |
| RateLimit.WithinWindow | apps/api/src/messages/messages.gateway.ts:280-291 | inside one window at most the rest of its ceiling is accepted |
| RateLimit.ExactInWindow | apps/api/src/messages/messages.gateway.ts:280-291 | inside one window nothing is refused that the ceiling allows |
| GatewayServer.GatewayServer.HandleConnection | apps/api/src/messages/messages.gateway.ts:173-203 | registers the socket up to the cap and announces the first one |
| GatewayServer.GatewayServer.HandleDisconnect | apps/api/src/messages/messages.gateway.ts:208-226 | removes the socket everywhere and announces the last one's going |
| GatewayServer.GatewayServer.CheckRate | apps/api/src/messages/messages.gateway.ts:274-293 | checks and ticks one slot, exactly as the limiter's function |
| GatewayServer.GatewayServer.HandleJoinConversation | apps/api/src/messages/messages.gateway.ts:474-508 | tracks the conversation of a connected participant |
| GatewayServer.GatewayServer.HandleLeaveConversation | apps/api/src/messages/messages.gateway.ts:510-533 | untracks it and keeps no empty set |
| GatewayServer.GatewayServer.IsUserOnline | apps/api/src/messages/messages.gateway.ts:538-540 | answers whether some socket maps to the user |
| SearchIndex.StepAgreesIff | apps/api/src/listings/listings.service.ts:322-382 | whichever service runs, with its own guard and syncs, between any other's read and write, a listing that agreed with the index still agrees exactly unless it is the last-attempt cancellation, a bulk writer finding a listing it had not read, or the reaping of a row back on sale |
| SearchIndex.IndexAgrees | apps/api/src/listings/listings-cron.service.ts:60-66 | from an empty site, in every run that never loses a listing it is in the index exactly when ACTIVE or else has an outstanding sync |
| SearchIndex.FirstLossShows | apps/api/src/payments/payments.service.ts:608-637 | the first such step leaves the listing out of step with the index, with no sync to come |
| SearchIndex.AloneAgrees | apps/api/src/users/users.service.ts:658-693 | no writer loses a listing when nothing comes between its read and its write |
| SearchIndex.ReactivatedIsMissing | apps/api/src/payments/payments.service.ts:617-633 | the cancellation after the last payment attempt leaves an ACTIVE listing out of the index with no sync to come |
| SearchIndex.BannedStaysListed | apps/api/src/moderation/moderation.service.ts:138-172 | a listing put on sale between a ban's read and its write stays indexed though suspended |
| SearchIndex.ReapedStaysListed | apps/api/src/common/crons/retention-cron.service.ts:228-269 | a listing back on sale between the retention job's read and its deletion stays indexed though gone |
| Catalog.Catalog.SyncSearchIndex | apps/api/src/listings/listings.service.ts:46-85 | a sync re-reads its row and adds or removes the listing accordingly |
| Catalog.Catalog.CheckoutBundle | apps/api/src/bundles/bundles.service.ts:253-361 | claims all the listings and fires a sync of each, exactly when all are distinct and on sale |
| Catalog.Catalog.CancelByBuyer | apps/api/src/orders/orders.service.ts:471-502 | claims the order, puts its listing back on sale only if SOLD, and fires its sync |
| Catalog.Catalog.GiveUpPayment | apps/api/src/payments/payments.service.ts:608-637 | claims the order and puts its listing back on sale, with no sync |
| Catalog.Catalog.Remove | apps/api/src/listings/listings.service.ts:434-466 | the loop over the orders lets the removal go on exactly when none of the listing is open, and the write fires its sync |
| Catalog.Catalog.RejectImage | apps/api/src/moderation/moderation.service.ts:280-321 | the loop suspends exactly the listings that show the image and fires a sync of each |
| Catalog.Catalog.BulkWrite | apps/api/src/users/users.service.ts:676-691 | a bulk writer changes exactly the rows that match by now, and syncs exactly the ids it had read |
| Catalog.Catalog.BanUser | apps/api/src/moderation/moderation.service.ts:138-172 | the read, the write and the syncs are the ban of the index model with nothing in between |
| Catalog.Catalog.ToggleVacation | apps/api/src/users/users.service.ts:658-693 | the same for going on vacation and coming back |
| Ads.BilledApartAndClickedOnce | apps/api/src/ads/ads.service.ts:105-143 | in every run billed impressions of one campaign and client are at least 60 s apart, and an impression is clicked at most once, with its own campaign, creative and client |
| Ads.OverspendsByLessThanOne | apps/api/src/ads/ads.service.ts:72-75 | a campaign overspends by less than one impression's debit |
| Ads.SpentIsSumIff | apps/api/prisma/schema.prisma:1410-1457 | spending equals the recorded costs exactly when nothing was billed or an impression costs a whole number of cents |
| Ads.CheapIsFreeIff | apps/api/src/ads/ads.service.ts:115-143 | a billed campaign has spent nothing exactly when an impression costs less than half a cent |
| Ads.CheapImpressionSpendsNothing | apps/api/src/ads/ads.service.ts:115-143 | a run that bills one impression at 0.4 cents and spends nothing |
| AdServer.AdServer.BestCampaign | apps/api/src/ads/ads.service.ts:79-103 | the loop picks the first of the best eligible campaigns, or none exactly when none is eligible |
| AdServer.AdServer.ServeAd | apps/api/src/ads/ads.service.ts:50-158 | records the impression, and bills it exactly when the client saw no ad of the campaign for 60 seconds |
| AdServer.AdServer.Click | apps/api/src/ads/ads.service.ts:162-257 | records a click exactly on an impression of this client's, not yet clicked, of an active ad |
| TaxIds.IsValidCPF | packages/shared/src/validation.ts:11-38 | the loops accept exactly the texts whose eleven digits, not all the same, pass both modulo-11 tests |
| TaxIds.IsValidCNPJ | packages/shared/src/validation.ts:118-147 | the same for the fourteen digits of a CNPJ |
| TaxIds.OnlyDigit | packages/shared/src/validation.ts:24-26 | the computed check digit is the only digit that passes the modulo-11 test, by either number's formula |
| TaxIds.OnePair | packages/shared/src/validation.ts:19-35 | every prefix has exactly one pair of digits that passes both tests |
| TaxIds.FormattedIsTheSame | packages/shared/src/validation.ts:43-46 | formatting keeps the digits and the validity, and formatting twice is formatting once |
| PixKeys.IdempotentIff | packages/shared/src/validation.ts:191-216 | normalising twice is normalising once for every text of every type but phones, and for a phone exactly when the text names a foreign number or holds at least ten digits |
| PixKeys.ShortPhoneGrows | packages/shared/src/validation.ts:199-211 | every number of fewer than ten digits gets another country code each time it is normalised |
| PixKeys.ValidKeysAreFixed | packages/shared/src/validation.ts:221-242 | in particular whenever the result is a valid key |
| PixKeys.SpellingsAgree | packages/shared/src/validation.ts:199-211 | exactly the spellings of a Brazilian number, with or without country code and punctuation, have its key |
| PixKeys.FormattedKey | packages/shared/src/validation.ts:194-196 | stripping a formatted CPF or CNPJ gives its digits back |
| Keywords.ChainIsImages | packages/shared/src/prohibited-keywords.ts:304-317 | the chain of replacements does to a text what it does to each character |
| Keywords.NormaliseJoin | packages/shared/src/prohibited-keywords.ts:304-317 | normalising distributes over concatenation |
| Keywords.NormaliseTwice | packages/shared/src/prohibited-keywords.ts:304-317 | normalising is idempotent |
| Keywords.FirstMatch | packages/shared/src/prohibited-keywords.ts:323-331 | the term returned is the first keyword whose normal form occurs in the text's, and none exactly when none does |
| Keywords.SwapIsSeenThrough | packages/shared/src/prohibited-keywords.ts:304-317 | exchanging a character for one with the same image changes no verdict |
| Keywords.PaddingIsSeenThrough | packages/shared/src/prohibited-keywords.ts:316 | inserting a character that is stripped changes no verdict |
| Keywords.ExchangeableIff | packages/shared/src/prohibited-keywords.ts:304-331 | two characters can be exchanged in every text, for every list of keywords, exactly when they have the same image |
| Keywords.MoreTextStaysProhibited | packages/shared/src/prohibited-keywords.ts:323-331 | a prohibited text stays prohibited whatever is added before and after it |

## Left out

- Returns as steps of a run: `Returns` proves exactly when they keep the escrow; the run theorems are about runs without them.
- The administrator's re-hold is one step in the escrow, sale and dispute theorems, and excluded from the ledger, deadline, timing and progress theorems, as it writes no ledger row.
- Bulk writes of listings (ban, vacation, account deletion) are one conditional step a listing in a run, so a run may have other steps in between that the single statement excludes. Reaping a deleted listing's row is in the search-index model alone.
- Coupon usage counters, order idempotency keys, and checks that only refuse a request (ownership, fraud, addresses, prohibited content).
- Minting payments: an order's payment is a step that writes a fresh id while the order is PENDING. Clearing it on a retry, an id written after settlement, and the cancellation after the last payment attempt (which otherwise equals the stale-payment one) are not modelled in runs.
- The stale-payment job's filter on live payments, and the shipped-stuck period as configuration (30 days here).
- The bundle checkout sells the items it read, even one removed from the bundle in between, and a removal deletes from a bundle that has been checked out since it read it; the model does the same, and states of it only what `Bundles` says of the number of items.
- Deletion of old refresh-token rows and of users; hashing and signing.
- Handlers of the gateway that overlap: each handler is one step, so a join whose participant check is answered after the socket's disconnection is not modelled.
- Concurrent serves and clicks of ads: each is one step. Audience scores are parameters, tables are read in order of creation.
- A failed index sync, which is logged and dropped, and a crash between a write and the syncs it fires: every fired sync runs at some moment.
- Time in the search-index model: which listings and orders a job selects by age. A row can be reaped there as soon as a read finds it deleted, so `SearchIndex.ReapedStaysListed` stands for a writer in flight for the whole retention period.
- The jobs that pause, clean up and reap listings, moderation's hiding of a reported one and account deletion are steps of `SearchIndex`, with their guards, but not methods of `Catalog.Catalog`. Guards that only refuse (seller standing, listing limits, ownership) are in neither.
- Passes.PassLeavesNoneDue: of a pass with nothing in between, as `Store.Store` performs it; `Progress.PassLeavesNoneDue` is the statement for interleaved ones.
- `listings.update` writes the status and the price alone, without images, price alerts and audit; favourites, promotions other than their wallet debits, pagination.
- Text outside ASCII: lower-casing, accents and white space of other alphabets. The keyword list is a parameter.
- Floating-point error and daylight saving: money is exact decimals, a day has 24 hours, the hold window is whole seconds.
- Notifications, e-mail, analytics, audit and metrics; HTTP plumbing; the wire formats of external clients, instalments; payouts and referrals.
