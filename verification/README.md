# Verified model of the ticket-sales core

The project models the parts of the ticket shop in which money, places and admissions can go
wrong, as tables that are changed by small atomic steps, and proves what every run of those steps
keeps.

* **Sale** (`SalesModel`, `SalesInvariant`, `SalesTickets`, `SalesStaff`, `SalesProtocol`,
  `SalesRuns`, `SalesGuarantees`, `SalesFulfilment`, `SalesRefinement`, `SalesStore`). Events, batches, holds, orders, tickets and payments
  are tables whose row ids are positions. A transaction or a guarded statement is a function on the
  tables. `SalesProtocol` makes webhook deliveries, reconciliations, card charges and expiry sweeps
  processes that take one database step at a time; anything may happen between two steps, and a process
  may fail or crash at each of them. Theorems speak about `Exec(actions)` for every `actions`.
  `SalesStore.Store` is the same code with its loops and in-place updates, each method proved to do
  what the step functions say, and `SalesRefinement` proves that a process nothing interrupts does
  what the service does in one go.
* **Money** (`Money`, `Pricing`, `PricingProofs`, `CheckoutAcceptance`, `Commission`, `Ledger`,
  `LedgerProofs`, `FinanceProtocol`, `FinanceRuns`, `FinanceGuarantees`, `FinanceRefunds`,
  `FinancePayouts`, `FinanceReconciliation`, `FinanceSummary`, `FinanceOverlaps`, `FinanceRefinement`,
  `FinanceStore`). Integer cents, half-up rounding as
  floor(x + 1/2) over exact rationals, the append-only ledger under its unique (order, account, type)
  key. In `FinanceProtocol` the accrual insert, the two reads and the insert of a posting, the read and
  the insert of a reversal, and the read-and-check and the insert of a promoter payout are separate
  steps that interleave freely.
* **Gate** (`GateModel`, `GateInvariant`, `GateProtocol`, `GateGuarantees`, `GateRefinement`, `GateStore`). Online
  admission, undo, any number of offline devices with their queues, requests that are processed item
  by item, dropped or resent, and responses that arrive late, twice or never.
* **Codecs** (`Base32`, `Csv`). The base32 loops against the number a byte string spells (section 6
  of RFC 4648), and the CSV writer against a reader of section 2 of RFC 4180.

`Base` holds the stock result types, the one notion of a sum over a table and integer division.

Findings that a maintainer may want to know:

* A crash between the flip of an order to PAID or EXPIRED and the settling of its holds leaves those
  holds ACTIVE for good (`SalesGuarantees.CrashStrandsUnit`); the exact condition is
  `SalesGuarantees.HoldCanSettleExactlyUnlessStranded`. Safety is not affected.
* `expireDueOrders` (packages/core/src/modules/orders/service.ts, lines 484-497) releases holds only
  for an order this very sweep expired; the comment above the call speaks of also releasing orders
  that had already left AWAITING_PAYMENT. The model follows the code.
* The comment on `resolveRuleForUnit` (packages/core/src/modules/promoters/commission.ts, lines 25-28) ranks
  the affiliate above the event; its weights put a rule of the event first. The model follows the code
  (`Commission.ResolveWins`).
* A ledger posting that read its order before a refund and writes after it leaves the refunded order
  unbalanced (`FinanceRefunds.PostingAcrossRefundBreaksIt`), in the worst case with the whole sale posted
  (`FinanceRefunds.SalePostedAfterRefund`); the exact condition is `FinanceRefunds.ReversalStaysZeroExactly`.
* Two overlapping refund calls of one order, with a posting between their reads, unbalance the event
  (`FinanceOverlaps.OverlappingRefundsBreakIt`); the exact condition is
  `FinanceReconciliation.ReconciliationExactly`.
* Two overlapping payouts of one promoter can pay the commission twice
  (`FinancePayouts.OverlappingPayoutsBreakIt`): the check and the insert are not one transaction, and the
  check does not count the payouts that are pending. What it would have to ask is the exact condition of
  `FinancePayouts.StartIsSafeExactly`.
* An empty data row comes back from a CSV export as one empty field (`Csv.PrintParse`), and a cell that already starts
  with an apostrophe followed by a formula character cannot be told from a guarded one
  (`Csv.UnguardExactly`).

Assumptions about what lies outside the modelled files: tables obey their unique keys
(packages/db/prisma/schema.prisma, lines 455, 461, 791, 829 and 907); a new ticket is VALID (line 457);
tokens are fresh and their hash is injective; a provider event id names one event; the PSP is a source
of arbitrary status events.

## Model

| member | source | states |
|---|---|---|
| `SalesGuarantees.NoOversell` | `packages/core/src/modules/inventory/reservations.ts:82-122` | In every interleaving of checkout, payment, expiry, issuing, refund and staff edits, with crashes between database steps, tickets ever issued for a batch <= sold + reserved <= its quantity, although issuing never reads the counters |
| `SalesTickets.TicketsWithinCommitted` | `packages/core/src/modules/tickets/service.ts:42-94` | In any consistent state the tickets of a batch fit the units of its ACTIVE and CONFIRMED holds: each ticket is charged to a distinct held unit of its order |
| `SalesGuarantees.CounterConservation` | `packages/core/src/modules/inventory/reservations.ts:146-230` | In every reachable state a batch's reserved counter is the sum of its ACTIVE holds and its sold counter the sum of its CONFIRMED ones |
| `SalesGuarantees.CountersNeverInconsistent` | `packages/core/src/modules/inventory/reservations.ts:170-223` | No run reaches the state in which confirm or release would throw that the counters are inconsistent |
| `SalesGuarantees.SoldOrReturned` | `packages/core/src/modules/orders/service.ts:397-500` | A CONFIRMED hold belongs to an order that reached PAID, an EXPIRED one to an EXPIRED order, and an order awaiting payment has only ACTIVE holds |
| `SalesGuarantees.PaidAtMostOnce` | `packages/core/src/modules/orders/service.ts:397-440` | Over a whole run the flip that decides who paid an order is won at most once, and was won if and only if the order reached PAID |
| `SalesGuarantees.AtMostOneTicketPerItem` | `packages/core/src/modules/tickets/repository.ts:88-124` | No order item ever has two tickets; a product, or an item of an order never paid, has none |
| `SalesGuarantees.ProcessedApprovalIsFulfilled` | `packages/core/src/modules/payments/service.ts:326-364` | However approvals were duplicated, reordered, failed or crashed, once an approval event is stored as PROCESSED its order has left the unpaid states and, while PAID, has exactly one ticket per ticket item |
| `SalesFulfilment.UninterruptedApprovalFulfils` | `packages/core/src/modules/payments/service.ts:326-511` | From the action that takes it up - a delivery, an unfinished event's redelivery, a reconciliation or a card charge - an approval that is not itself failed or crashed ends, however everything else interleaves, within seven steps of its own plus one per item of its order; then the order has left the unpaid states and, while PAID, has exactly one ticket per ticket item and none per product |
| `SalesFulfilment.OnTheWayExactly` | `packages/core/src/modules/payments/service.ts:326-511` | Exactly those actions set a process on the way of approving an order |
| `SalesFulfilment.IssuingLoopFulfils` | `packages/core/src/modules/tickets/service.ts:42-94` | In every run a process whose issuing loop has ended, whatever started it, stands before an order with exactly one ticket per ticket item and none per product |
| `SalesRefinement.UninterruptedDeliveryIsWebhook` | `packages/core/src/modules/payments/service.ts:326-364` | From any reachable state a delivery whose steps nothing interrupts ends exactly where the webhook does: a PROCESSED event is ignored, otherwise the stored content is applied start to end and the event ends PROCESSED, or FAILED with the tables as they were |
| `SalesRefinement.UninterruptedEventIsService` | `packages/core/src/modules/payments/service.ts:412-511` | From any reachable state an event in flight - a webhook's, a reconciliation's or a card charge's - that nothing interrupts moves the payment, marks the order paid with its holds confirmed, issues its tickets or refunds it, exactly as the service does in one go |
| `SalesRefinement.UninterruptedSweepIsService` | `packages/core/src/modules/orders/service.ts:479-500` | From any reachable state an expiry sweep whose steps nothing interrupts is the service's sweep over the orders then due |
| `SalesRefinement.ReconcileTakenUp` | `packages/core/src/modules/payments/service.ts:96-113` | For every provider status: which kind of event a reconciliation applies, only to a payment that is still pending, and nothing for PENDING |
| `SalesRefinement.CardChargeTakenUp` | `packages/core/src/modules/payments/service.ts:163-245` | A card charge creates its own payment and applies the gateway's answer to it |
| `SalesRefinement.FailureMarks` | `packages/core/src/modules/payments/service.ts:326-364` | A failed step marks the event FAILED for redelivery, but a refund's settling goes on and acknowledges it |
| `SalesRefinement.OneStepCalls` | `packages/core/src/modules/tickets/transitions.ts:20-27` | A ticket moves exactly along the arrows of its table; checkouts, Pix charges and staff edits are one transaction each and a crash changes no table |
| `SalesGuarantees.CapacityChainHolds` | `packages/core/src/modules/events/service.ts:224-275` | In every run committed units of an event <= configured batch quantities <= the event's capacity, if it has one |
| `SalesGuarantees.StrandedForever` | `packages/core/src/modules/orders/service.ts:397-440` | If the process that paid or expired an order is gone before settling its holds, no continuation whatsoever moves those holds |
| `SalesGuarantees.HoldCanSettleExactlyUnlessStranded` | `packages/core/src/modules/orders/service.ts:397-500` | An ACTIVE hold can still leave that status if and only if its order is unpaid or some process is just about to settle it |
| `SalesGuarantees.CrashStrandsUnit` | `packages/core/src/modules/orders/service.ts:397-440` | A concrete run: a crash between the flip to PAID and the confirmation leaves the unit reserved under every continuation |
| `SalesGuarantees.RedeliveryTicketsStrandedUnit` | `packages/core/src/modules/tickets/service.ts:42-94` | After that crash a redelivery of the same event still issues the order's ticket, while its unit stays reserved |
| `SalesRuns.EveryRunKeeps` | `packages/core/src/modules/payments/service.ts:412-511` | The whole invariant - counters, holds, tickets, claims, winners and what each process in flight may rely on - holds in every reachable state |
| `SalesRuns.NextKeeps` | `packages/core/src/modules/payments/service.ts:412-511` | Every single step of every process, staff call, checkout, failure or crash keeps that invariant |
| `SalesInvariant.GroupUnitsExact` | `packages/core/src/modules/orders/repository.ts:131-193` | Grouping an order's units gives one line per batch, its quantity being the number of that batch's ticket units |
| `SalesInvariant.ReserveSucceedsExactlyWhenAllFit` | `packages/core/src/modules/inventory/reservations.ts:92-122` | A reservation of several lines succeeds if and only if, batch by batch, the sum of all lines fits an open batch |
| `SalesInvariant.ReserveEffect` | `packages/core/src/modules/inventory/reservations.ts:92-122` | A successful reservation adds exactly the demanded units to each batch and exactly one ACTIVE hold per line, and changes nothing else |
| `SalesInvariant.CheckoutExact` | `packages/core/src/modules/orders/repository.ts:131-193` | A checkout succeeds if and only if each batch it asks units of is open and has room for all of them, and then reserves exactly those |
| `SalesInvariant.ConfirmMovesUnits` | `packages/core/src/modules/inventory/reservations.ts:146-192` | Confirming a paid order moves exactly its ACTIVE units from reserved to sold in each batch, marks exactly those holds CONFIRMED and never throws; a batch becomes SOLD_OUT if and only if it was OPEN, had an ACTIVE hold of the order and is now sold up to its quantity, and nothing else of its row changes |
| `SalesInvariant.ReleaseReturnsUnits` | `packages/core/src/modules/inventory/reservations.ts:194-230` | Releasing an expired order takes exactly its ACTIVE units off reserved, changes nothing else of any batch, marks exactly those holds EXPIRED and never throws |
| `SalesTickets.IssueForOrderCompletes` | `packages/core/src/modules/tickets/service.ts:42-94` | Issuing for a PAID order, even after partial earlier attempts, leaves exactly one ticket per ticket item, adds only VALID tickets of this order and touches no earlier row |
| `SalesTickets.TransitionTicketKeeps` | `packages/core/src/modules/tickets/transitions.ts:17-28` | Any guarded ticket transition of the table keeps the invariant |
| `SalesStaff.CreateSalesBatchExact` | `packages/core/src/modules/inventory/service.ts:119-170` | A batch is created if and only if the event is editable, the ticket type is one of that event and all quantities, the new one included, fit its capacity; a refusal names the first reason |
| `SalesStaff.UpdateBatchQuantityExact` | `packages/core/src/modules/inventory/service.ts:181-242` | A quantity edit is accepted if and only if the event is editable, a reason is given once sales began, and the result keeps committed units and capacity; a refusal names the first reason |
| `SalesStaff.TransitionBatchExact` | `packages/core/src/modules/inventory/transitions.ts:10-16` | A batch moves if and only if its event is editable, the arrow is one of the six of the table and, to open, units are left; only its status changes, and a refusal names its reason |
| `SalesStaff.ChangeEventCapacityExact` | `packages/core/src/modules/events/service.ts:224-275` | A capacity edit is accepted if and only if it is positive, justified, the event is editable and the configured quantities still fit; a refusal names the first reason |
| `SalesStaff.TransitionEventExact` | `packages/core/src/modules/events/transitions.ts:10-20` | An event moves if and only if the arrow is one of the table, and only its status changes |
| `SalesStore.DueOrdersExact` | `packages/core/src/modules/inventory/reservations.ts:232-243` | The sweep's work list holds distinct orders with a due ACTIVE hold, at most the limit, and all of them when the limit does not cut in |
| `SalesStore.SweepOrdersEffect` | `packages/core/src/modules/orders/service.ts:479-500` | A sweep expires and releases exactly the due orders that were still unpaid; every other order keeps its status and its holds |
| `SalesStore.Store.CreatePendingOrder` | `packages/core/src/modules/orders/repository.ts:131-193` | Order, items and holds are written together or, on a refusal, not at all |
| `SalesStore.Store.ReserveOrderLines` | `packages/core/src/modules/inventory/reservations.ts:82-122` | The loop of conditional updates comes to the all-lines reservation, or reports the refusal |
| `SalesStore.Store.ConfirmForOrder` | `packages/core/src/modules/inventory/reservations.ts:146-192` | The loop over ACTIVE rows, for an order that was paid, counts its ACTIVE holds and leaves every batch row as ConfirmMovesUnits tells it from the holds; a throw leaves the tables as they were |
| `SalesStore.Store.ListOrdersWithDueReservations` | `packages/core/src/modules/inventory/reservations.ts:232-243` | Returns the distinct orders of ACTIVE holds that are due, in row order, up to the limit |
| `SalesStore.Store.MarkOrderPaid` | `packages/core/src/modules/orders/service.ts:397-440` | True exactly for a call that finds the order awaiting payment; then its status is PAID, its holds are confirmed and each batch row is as the order's held units make it, otherwise nothing changes |
| `SalesStore.Store.SettleRefund` | `packages/core/src/modules/orders/service.ts:447-472` | Flips a PAID or partially refunded order to REFUNDED or CHARGEBACK as asked, exactly once, and touches no other order |
| `SalesStore.Store.ExpireDueOrders` | `packages/core/src/modules/orders/service.ts:479-500` | The sweep's loop refines the one-order-at-a-time sweep and never throws |
| `SalesStore.Store.IssueForOrder` | `packages/core/src/modules/tickets/service.ts:42-94` | The loop inserts a ticket per ticket item without one and reports exactly the inserted ones; it refuses an order that is not PAID |
| `SalesStore.Store.RefundTicketsForOrder` | `packages/core/src/modules/tickets/service.ts:328-354` | Ticket by ticket: a VALID or BLOCKED ticket of the order is REFUNDED afterwards, every other row is unchanged, and the count returned is the number of those closed |
| `SalesTickets.RefundTicketsKeeps` | `packages/core/src/modules/tickets/service.ts:328-354` | Closing an order's open tickets keeps the whole invariant, deletes no row, leaves the order no VALID or BLOCKED ticket and touches no other order's |
| `SalesStore.Store.ApplyApproval` | `packages/core/src/modules/payments/service.ts:412-511` | An approval run to its end leaves an unpaid or PAID order PAID with exactly one ticket per ticket item, and any other order as it was |
| `SalesStore.Store.ApplyEvent` | `packages/core/src/modules/payments/service.ts:412-511` | Per kind of provider event: exactly which payment moves from which statuses to which, and what becomes of order, holds and tickets; an unknown payment changes nothing |
| `SalesStore.Store.ApplyRefund` | `packages/core/src/modules/payments/service.ts:412-511` | A refund or chargeback moves the payment, takes a refundable order to exactly the end state asked for, closes its open tickets, and changes nothing else |
| `SalesStore.Store.ProcessWebhook` | `packages/core/src/modules/payments/service.ts:326-364` | A delivery is a duplicate if and only if its event was already PROCESSED; otherwise the stored content moves its payment, an acknowledged approval is fulfilled, a refund or chargeback ends its order, any other kind touches the payment alone, and an unknown payment leaves the event FAILED with the tables unchanged |
| `SalesStore.Store.UpdateBatchQuantity` | `packages/core/src/modules/inventory/service.ts:181-242` | The check-then-write method does exactly the specified edit or reports its error with the tables unchanged |
| `SalesStore.Store.ChangeEventCapacity` | `packages/core/src/modules/events/service.ts:224-275` | The check-then-write method does exactly the specified edit or reports its error with the tables unchanged |
| `PricingProofs.AcceptedCheckoutAgrees` | `packages/core/src/modules/orders/service.ts:160-247` | For every accepted checkout 0 <= discount <= ticket subtotal, the fee is the rounded share of the discounted ticket value (at most it, up to 100%), and total = sum of item prices - discount + the fee if the buyer pays it |
| `PricingProofs.AcceptedCheckoutUnits` | `packages/core/src/modules/offers/service.ts:209-255` | For every accepted checkout the ticket units of a batch are the selected ones plus those of the selected offers |
| `PricingProofs.AcceptedCheckoutItems` | `packages/core/src/modules/offers/service.ts:209-255` | For every accepted checkout and every conceivable item - batch, ticket type and price, or product and price - the order holds that item exactly as often as the selections and offers that sell it at that price ask for |
| `PricingProofs.AcceptedCheckoutProducts` | `packages/core/src/modules/offers/service.ts:209-255` | For every product an accepted checkout sells exactly the quantities of the selected offers of that product |
| `PricingProofs.EveryItemIsAsked` | `packages/core/src/modules/offers/service.ts:209-255` | Every item of an accepted order is the very unit, with its ticket type or product and its price, of a requested selection or offer |
| `PricingProofs.PlacedOrderReservesRequest` | `packages/core/src/modules/orders/repository.ts:131-193` | Placing an accepted checkout reserves, batch by batch, exactly the requested units, offers merged in |
| `PricingProofs.CouponDiscountExact` | `packages/core/src/modules/promoters/coupon.ts:40-47` | A coupon's discount lies between 0 and the subtotal; a fixed coupon takes its value or the whole subtotal |
| `PricingProofs.CreateOrder` | `packages/core/src/modules/orders/service.ts:144-247` | The pricing loops compute the specified order or error; the items of an accepted one are, as a multiset, exactly those the selections and offers sell |
| `PricingProofs.ResolveOffers` | `packages/core/src/modules/offers/service.ts:209-255` | The offers loop resolves to exactly the ticket units and products, with their ticket types, products and prices, that the offers sell, or to the first error |
| `Money.RoundDivNearest` | `packages/core/src/shared/money.ts:38-43` | Half-up rounding gives the one integer q with q - 1/2 <= x < q + 1/2 |
| `Money.CentsExact` | `packages/core/src/shared/money.ts:14-20` | Exactly the integers from 0 to 2^53 - 1 are amounts of cents |
| `Money.BpsWithin` | `packages/core/src/shared/money.ts:38-43` | A percentage of at most 100% of an amount lies between 0 and that amount |
| `CheckoutAcceptance.AcceptedExactly` | `packages/core/src/modules/orders/service.ts:144-247` | A checkout is priced and accepted if and only if its event is published and on sale, every selected batch and offer may be bought, the order is within the event's limit, the coupon and the amounts fit, and a contact was left |
| `CheckoutAcceptance.RefusedExactly` | `packages/core/src/modules/orders/service.ts:144-247` | A refused checkout reports the first thing wrong with it in the order the shop looks: event, window, the first selection that cannot be bought and why, offers, event limit, coupon and why, amounts, contact |
| `CheckoutAcceptance.ChargesCatalogPrices` | `packages/core/src/modules/orders/service.ts:208-247` | An accepted checkout's subtotal is quantity times stored price over the selections and offers, whatever the client sent; the discount is the coupon's own worth on the tickets, and fee and total follow |
| `CheckoutAcceptance.OffersAcceptedExactly` | `packages/core/src/modules/offers/service.ts:209-255` | The offers resolve if and only if each is active, of this event, and its product is active or its batch on sale |
| `Commission.ResolveRuleForUnit` | `packages/core/src/modules/promoters/commission.ts:31-52` | The scan returns an applicable rule that no applicable rule outranks, and none exactly when none applies |
| `Commission.ResolveWins` | `packages/core/src/modules/promoters/commission.ts:31-52` | The scan's rule is the first of those that cover the unit and are outranked by none: event before organization, then promoter before broad, then ticket type before any; there is none only when no rule covers it |
| `Commission.HistoryKeepsOnePerScope` | `packages/core/src/modules/promoters/repository.ts:538-572` | Any history of rule creations leaves at most one active rule per (event, promoter, ticket type) scope |
| `Commission.RuleBook.Supersede` | `packages/core/src/modules/promoters/repository.ts:538-572` | Inserts the new rule as active and takes the active flag off exactly the rules of its very scope, keeping one active rule per scope |
| `Commission.RuleBook.ListActiveByEvent` | `packages/core/src/modules/promoters/repository.ts:574-580` | Lists the active rules of the event and of no event, in creation order, one per scope when the table has one per scope |
| `Commission.ScoreTellsScope` | `packages/core/src/modules/promoters/commission.ts:31-52` | Among an event's candidates for a unit, equal 4/2/1 scores mean the same scope |
| `Commission.ResolutionIgnoresOrder` | `packages/core/src/modules/promoters/commission.ts:31-52` | For the active rules of an event, after any history, every ordering of the list resolves to the same rule |
| `Commission.UnitBaseExact` | `packages/core/src/modules/promoters/commission.ts:59-74` | For every safe price and every order a NOMINAL unit's base is its whole price, an AFTER_DISCOUNT unit's the price less its rounded share at most all of it; within the subtotal the clamp to zero never fires |
| `Commission.UnitEarnsExactly` | `packages/core/src/modules/promoters/commission.ts:79-122` | What one unit earns, told from the rules: nothing when none covers it, else the winning rule's rounded percentage of the unit's base, or its fixed value, and an error exactly when one of those amounts is not safe |
| `Commission.TicketOnlyRoundingBound` | `packages/core/src/modules/promoters/commission.ts:59-122` | For a ticket-only order of n AFTER_DISCOUNT units the bases miss subtotal - discount by at most n/2 + subtotal/20000 cents |
| `Commission.RoundingBound` | `packages/core/src/modules/promoters/commission.ts:59-122` | For any order the bases of its ticket units miss their proportional share of the discount by at most the same rounding slack |
| `Commission.ComputeCommission` | `packages/core/src/modules/promoters/commission.ts:79-122` | The loop totals what each unit earns as UnitEarnsExactly tells it, keeps exactly one snapshot, a copy, of each rule some unit earned by, and fails if and only if some unit's amount is invalid |
| `Commission.PercentCommissionWithinBase` | `packages/core/src/modules/promoters/commission.ts:79-122` | Percentage rules of at most 100% never pay more than the base they are computed from |
| `LedgerProofs.PostingConserves` | `packages/core/src/modules/finance/service.ts:67-115` | A paid order's entries, in both fee modes, with or without commission, sum to its total less the PSP cost |
| `LedgerProofs.PostGrows` | `packages/core/src/modules/finance/repository.ts:56-80` | Posting a batch appends only rows of the batch and leaves every key of the batch stored: a repeat adds nothing |
| `LedgerProofs.PostByOrder` | `packages/core/src/modules/finance/repository.ts:56-80` | Skipping duplicates over the whole ledger acts, for one order's batch, on that order's rows alone |
| `LedgerProofs.ReversalZeroes` | `packages/core/src/modules/finance/service.ts:122-158` | Reversing rows without a REFUND brings every account and the promoter's own balance to exactly zero |
| `LedgerProofs.LedgerPartition` | `packages/core/src/modules/finance/service.ts:182-203` | Every cent of an event's ledger lies in exactly one of its orders or in a payout |
| `FinanceRuns.EveryRunKeeps` | `packages/core/src/modules/finance/service.ts:67-158` | The ledger's shape - what an order's rows may be and what each call in flight may still write - holds under every interleaving of database steps |
| `FinanceGuarantees.OrderConservation` | `packages/core/src/modules/finance/service.ts:67-115` | In every interleaving, with retries, crashes and a commission appearing only later, a posted and unreversed order's rows sum to its total less the PSP cost |
| `FinanceRefinement.UninterruptedPostPosts` | `packages/core/src/modules/finance/service.ts:67-115` | From any reachable state a posting of a PAID order whose steps nothing interrupts leaves an order never posted with exactly its posting, adds nothing when all of it is stored, and touches no other order's rows |
| `FinanceRefinement.PostCallIsPosting` | `packages/core/src/modules/finance/service.ts:67-115` | The steps of such a posting are the service's posting, and of an order that is not PAID nothing |
| `FinanceRefinement.PayoutCallExact` | `packages/core/src/modules/finance/service.ts:332-371` | A payout whose check and write nothing comes between writes one entry of minus the amount exactly when 0 < amount <= what is owed, as the service does |
| `FinanceRefinement.ProducerPayoutExact` | `packages/core/src/modules/finance/service.ts:231-249` | A producer payout writes one entry of minus the amount on the producer's account, whatever its sign was |
| `FinanceRefinement.AccrueCallExact` | `packages/core/src/modules/promoters/service.ts:618-680` | A PAID order takes the first positive accrual it is given, and only that one |
| `FinanceRefinement.OrderCallsExact` | `packages/core/src/modules/orders/service.ts:397-500` | In the ledger protocol payment and expiry move an order from AWAITING_PAYMENT alone, and a refund call takes a paid one to REFUNDED or CHARGEBACK as asked |
| `FinanceRefinement.PlaceOrderExact` | `packages/core/src/modules/orders/service.ts:219-247` | An order enters the ledger protocol exactly when its amounts fit together, unpaid and without an accrual |
| `FinanceGuarantees.CheckoutIsPostedInFull` | `packages/core/src/modules/orders/service.ts:219-247` | Every accepted checkout can be placed, and its posting carries exactly what the buyer was charged less the PSP cost |
| `FinanceGuarantees.RefundZeroes` | `apps/web/src/lib/services.ts:445-456` | A refund run from start to end on an order that was PAID and not yet reversed ends the order with every account and its promoter at zero |
| `FinanceRefunds.ReversalStaysZeroExactly` | `packages/core/src/modules/finance/service.ts:67-158` | After such a refund, of a posted order or of one not yet posted, the accounts stay at zero under every continuation if and only if no call in flight will write a row of it or, without rows, only postings whose amounts cancel |
| `FinanceRefunds.StaysZeroExactly` | `packages/core/src/modules/finance/service.ts:67-158` | The same for any ended order at zero in any consistent state |
| `FinanceGuarantees.ZeroedForever` | `packages/core/src/modules/finance/service.ts:122-158` | While nothing in flight touches it, a zeroed, ended order's rows never change again, whatever is posted, reversed or paid out |
| `FinanceRefunds.PostingAcrossRefundBreaksIt` | `packages/core/src/modules/finance/service.ts:67-115` | A concrete run: a posting that read its order before the refund and writes after it leaves the refunded order unbalanced |
| `FinanceRefunds.SalePostedAfterRefund` | `packages/core/src/modules/finance/service.ts:67-115` | A concrete run: a refund before the first posting is written finds nothing to reverse, and the whole sale is then posted for the refunded order |
| `FinanceReconciliation.LedgerTotalsByOrder` | `packages/core/src/modules/finance/service.ts:182-203` | In every interleaving each of producerPayable, platformNet and promoterPayable is what the rows of the event's orders hold on its own account less what was paid out of that account; payouts is what was paid out of both |
| `FinanceSummary.SummaryFigures` | `packages/core/src/modules/finance/service.ts:182-203` | In every interleaving gross sales, discounts, platform fees, PSP costs and commissions of the summary are those of exactly the orders ever posted, each counted once |
| `FinanceSummary.SummaryPayables` | `packages/core/src/modules/finance/service.ts:182-203` | In every interleaving, over the posted and unreversed orders: producerPayable is the sum of subtotal - discount - the fee the producer bears - the posted commission, less its payouts; platformNet of fee - PSP cost; promoterPayable of the posted commissions, less their payouts; refunded is what the reversed orders had left the producer; all up to what a crossed refund left on the account |
| `FinanceSummary.BalancedSummary` | `packages/core/src/modules/finance/service.ts:182-203` | When every reversed order of the event stands at zero, as an uncrossed refund leaves it, those formulas hold exactly |
| `FinanceSummary.UnreversedSummary` | `packages/core/src/modules/finance/service.ts:182-203` | In every run that never reversed an order of the event: the three payables and the commission as sums over the posted orders, and refunded is 0 |
| `FinanceSummary.PromoterPayableIsOwed` | `packages/core/src/modules/finance/service.ts:308-325` | In every run the promoters' payable is the sum of what the event owes each promoter |
| `FinanceReconciliation.ReconciliationExactly` | `packages/core/src/modules/finance/service.ts:182-203` | Over a run, at every moment and for every event producerPayable + platformNet + promoterPayable equals total - PSP cost over the posted, unreversed orders less the payouts, if and only if no write of a reversal finds its order reversed already and adds entries that do not cancel out |
| `FinanceReconciliation.OrdersReconcileExactly` | `packages/core/src/modules/finance/service.ts:122-158` | The same for the orders: every order's rows hold what it brought in, or nothing once reversed, at every moment of a run if and only if no such write happens |
| `FinanceReconciliation.StepReconcilesExactly` | `packages/core/src/modules/finance/service.ts:122-158` | In every run a reconciled order stays so under the next action if and only if that action is not such a write |
| `FinanceOverlaps.Reconciliation` | `packages/core/src/modules/finance/service.ts:182-203` | However accruals, postings, payouts, refunds and crashes interleave, that sum holds as long as no order is reversed twice in that way, and so in every run whose refund calls of one order do not overlap |
| `FinanceOverlaps.ApartRefundsNeverReverseTwice` | `apps/web/src/lib/services.ts:445-456` | A run whose refund calls of one order do not overlap never reverses an order twice |
| `FinanceOverlaps.OverlappingRefundsBreakIt` | `packages/core/src/modules/finance/service.ts:122-158` | A concrete run with two overlapping refunds of one order, a posting between their reads, ends 100 cents below |
| `FinancePayouts.PayoutBoundExactly` | `packages/core/src/modules/finance/service.ts:332-371` | Over a run, at every moment the payouts to a promoter for an event are within the commission ever credited there and stay so under every continuation that starts no other one, if and only if each payout that passed its check also fitted: paid + pending + its amount <= credited when it did |
| `FinancePayouts.StartIsSafeExactly` | `packages/core/src/modules/finance/service.ts:332-371` | In any run a payout that passes its check leaves the promoter within the credit under every continuation without another start if and only if paid + pending + its amount <= credited |
| `FinancePayouts.StaysWithinCreditExactly` | `packages/core/src/modules/finance/service.ts:332-371` | A consistent state keeps payouts within credit under every continuation without another start if and only if paid + pending <= credited |
| `FinancePayouts.PayoutBound` | `packages/core/src/modules/finance/service.ts:332-371` | However everything interleaves, payouts to a promoter for an event never exceed the commission ever credited there as long as each fitted in that way, and so in every run whose payouts of that promoter for that event do not overlap |
| `FinancePayouts.ApartPayoutsFit` | `packages/core/src/modules/finance/service.ts:332-371` | Payouts of one promoter that do not overlap all fit, refunds and postings in between included |
| `FinancePayouts.OverlappingPayoutsBreakIt` | `packages/core/src/modules/finance/service.ts:332-371` | A concrete run: two overlapping payouts of 100 owed pay 200 and leave the balance at -100 |
| `FinancePayouts.OverdrawsExactly` | `packages/core/src/modules/finance/service.ts:332-371` | In every run a step takes a promoter's balance below zero if and only if it writes a payout larger than what is owed at that moment, or a reversal that takes back more than is owed |
| `FinancePayouts.UncrossedPayoutNeverOverdraws` | `packages/core/src/modules/finance/service.ts:332-371` | A payout with no reversal of, or other payout to, that promoter written between its check and its write leaves the balance non-negative |
| `FinanceStore.FinanceLedger.PostForOrder` | `packages/core/src/modules/finance/repository.ts:56-80` | The insert loop with the duplicate check comes to the specified posting and counts the new rows |
| `FinanceStore.FinanceLedger.PostForPaidOrder` | `packages/core/src/modules/finance/service.ts:67-115` | The entries pushed step by step are exactly the order's posting, and nothing is posted unless the order is PAID |
| `FinanceStore.FinanceLedger.ReverseForOrder` | `packages/core/src/modules/finance/service.ts:122-158` | Balances gathered in the map become one compensating entry per unbalanced account; an order already reversed or never posted is left alone |
| `FinanceStore.FinanceLedger.PromoterPayables` | `packages/core/src/modules/finance/service.ts:308-325` | The map holds exactly the promoters with a positive balance, each with that balance |
| `FinanceStore.FinanceLedger.RegisterPromoterPayout` | `packages/core/src/modules/finance/service.ts:332-371` | Accepted if and only if 0 < amount <= balance; then the balance drops by exactly the amount and stays non-negative |
| `FinanceStore.FinanceLedger.RegisterExternalPayout` | `packages/core/src/modules/finance/service.ts:231-249` | Lowers what the producer is owed and raises the payouts by exactly the amount |
| `GateGuarantees.CheckInEquivalence` | `packages/core/src/modules/checkin/service.ts:218-404` | In every run a ticket is CHECKED_IN if and only if it has exactly one check-in row, and its admissions less undos are 1 then and 0 otherwise |
| `GateGuarantees.AtMostOneAdmission` | `packages/core/src/modules/checkin/service.ts:261-333` | Without undo each ticket gets at most one server admission, online or synced, whatever is lost or resent |
| `GateGuarantees.QueueEntriesOnlyLeaveSettled` | `apps/web/src/app/(staff)/checkin/checkin-console.tsx:143-183` | Without undo an entry leaves a device's queue only once the server rejected its token or holds a check-in row for its ticket |
| `GateRefinement.UninterruptedSyncSettlesQueue` | `apps/web/src/app/(staff)/checkin/checkin-console.tsx:143-183` | From any reachable world a sync round that nothing interrupts does to the server exactly what the batch loop does with the device's queue, empties that queue, leaves no ticket it named VALID and touches no other device |
| `GateRefinement.ScanActionExact` | `packages/core/src/modules/checkin/service.ts:153-179` | In every run an online scan answers as its ticket's row tells, and the history gains exactly what it admits |
| `GateRefinement.ManualActionExact` | `packages/core/src/modules/checkin/service.ts:181-215` | In every run a manual admission acts like a scan on the event's own tickets and does nothing to any other |
| `GateRefinement.UndoActionExact` | `packages/core/src/modules/checkin/service.ts:218-245` | In every run an undo takes exactly one checked-in ticket's row away and is logged, or changes nothing |
| `GateRefinement.TicketEditsExact` | `packages/core/src/modules/tickets/service.ts:109-217` | Issuing, token rotation, blocking, unblocking and refunding move a ticket only from the statuses each allows and leave everything else of the gate as it was |
| `GateRefinement.DeviceActionsExact` | `apps/web/src/app/(staff)/checkin/checkin-offline.ts:93-116` | A device starts empty, and a scan offline admits, marks used and queues a token exactly when its hash is packed and unused |
| `GateGuarantees.DeviceQueuesSound` | `apps/web/src/app/(staff)/checkin/checkin-offline.ts:93-133` | On each device, in every run, queued hashes are distinct and inside the used set |
| `GateGuarantees.DashboardAlwaysConsistent` | `packages/core/src/modules/checkin/service.ts:337-350` | In every run sold counts the event's VALID and CHECKED_IN tickets, present its CHECKED_IN ones, absent the rest, and the entry rate is the rounded percentage of present in sold, within 0..100 |
| `GateInvariant.AdmitExact` | `packages/core/src/modules/checkin/service.ts:352-404` | Admission is accepted if and only if the ticket is VALID and then adds its one row; a refusal changes nothing and names the ticket's status, an already-used one with the existing row |
| `GateInvariant.ValidateExact` | `packages/core/src/modules/checkin/service.ts:153-179` | An online scan answers NOT_FOUND if and only if no ticket carries the token, WRONG_EVENT if and only if its ticket is another event's, lets it in if and only if it is VALID and of this event, with exactly that effect, and otherwise names its status |
| `GateInvariant.ClosedTicketRefused` | `packages/core/src/modules/checkin/service.ts:352-404` | Whatever the tables hold, a ticket neither VALID nor CHECKED_IN is refused with its status as the reason and nothing changes |
| `GateInvariant.UndoInverts` | `packages/core/src/modules/checkin/service.ts:218-245` | Undoing an admission restores exactly the tables before it |
| `GateInvariant.UndoExact` | `packages/core/src/modules/checkin/service.ts:218-245` | An undo goes through if and only if the ticket is of this event and CHECKED_IN; then the ticket is VALID and exactly its one row is gone |
| `GateInvariant.SyncItemExact` | `packages/core/src/modules/checkin/service.ts:270-325` | The answer to one synced item, told from its ticket's row: applied if and only if VALID in this event, with exactly that effect; NOT_FOUND if and only if no ticket carries the token; another event, BLOCKED, CANCELLED and REFUNDED each by its reason; CHECKED_IN as this device's duplicate or another's conflict; nothing else changes |
| `GateStore.ResendChangesNothing` | `packages/core/src/modules/checkin/service.ts:261-333` | Once a batch was processed, the same device resending any of it changes nothing and applies nothing |
| `GateStore.SyncBatchSettles` | `packages/core/src/modules/checkin/service.ts:261-333` | After a batch no ticket of the event that it named is still VALID |
| `GateStore.CheckinService.SyncOfflineBatch` | `packages/core/src/modules/checkin/service.ts:261-333` | The loop that pushes results computes the item-by-item batch |
| `GateStore.CheckinService.ValidateAndCheckIn` | `packages/core/src/modules/checkin/service.ts:153-179` | Answers and changes the tables exactly as ValidateExact tells from the ticket that carries the token |
| `GateStore.CheckinService.UndoCheckIn` | `packages/core/src/modules/checkin/service.ts:218-245` | Reverts a ticket if and only if it is checked in and of this event, and deletes exactly its row; otherwise changes nothing |
| `GateStore.CheckinService.CreateRow` | `packages/core/src/modules/checkin/repository.ts:122-160` | The unique insert refuses a second row for a ticket and otherwise appends it |
| `GateStore.DeviceStorage.ValidateLocally` | `apps/web/src/app/(staff)/checkin/checkin-offline.ts:93-116` | Scanning marks the hash used and queues it exactly when it is in the pack and unused |
| `GateStore.DeviceStorage.RemoveFromQueue` | `apps/web/src/app/(staff)/checkin/checkin-offline.ts:123-128` | Exactly the entries with the given tokens leave the queue |
| `GateGuarantees.RemoveTokensConcat` | `apps/web/src/app/(staff)/checkin/checkin-offline.ts:123-128` | The entries that stay keep their order |
| `GateStore.DeviceStorage.SettleSync` | `apps/web/src/app/(staff)/checkin/checkin-console.tsx:143-183` | Settling a response removes exactly the answered tokens from the queue, frees exactly the hashes of the entries sent whose token got a conflict, and changes nothing else |
| `Base32.RoundTrip` | `packages/core/src/shared/totp.ts:69-101` | Section 6 of RFC 4648: the encoding of n bytes has ceil(8n/5) letters, and decoding any text whose upper case is that encoding, with any number of trailing '=', gives the bytes back |
| `Base32.TypedDecodes` | `packages/core/src/shared/totp.ts:85-101` | However a secret is typed - letters in either case, white space anywhere, '=' signs at its end - it decodes to the bytes it encodes |
| `Base32.UnknownCharacterDecodesToNothing` | `packages/core/src/shared/totp.ts:85-101` | One character that is neither a letter in some case, nor white space, nor '=' makes the whole text decode to nothing |
| `Base32.LigatureDecodes` | `packages/core/src/shared/totp.ts:85-101` | A character outside ASCII whose upper case is plain letters decodes, anywhere in a text, like those letters |
| `Base32.EncodingIsInjective` | `packages/core/src/shared/totp.ts:69-83` | Two byte sequences never share an encoding |
| `Base32.Encode` | `packages/core/src/shared/totp.ts:69-83` | The shifting loop, its 32-bit accumulator wrapping unmasked, writes the base-32 digits of the whole byte string |
| `Base32.Decode` | `packages/core/src/shared/totp.ts:85-101` | The shifting loop writes the complete bytes of the digits, and no bytes at all for an unknown character |
| `Base32.DigitSurvivesWrap` | `packages/core/src/shared/totp.ts:73-99` | The digit taken from the wrapped accumulator is the digit of the unwrapped number |
| `Base32.EncodeThenDecode` | `packages/core/src/shared/totp.ts:69-101` | Encoding and then decoding returns the bytes |
| `Csv.PrintParse` | `apps/web/src/lib/csv.ts:11-24` | A reader of section 2 of RFC 4180 gets back from any export, after its byte order mark, every row and field as its guarded text, an empty row as one empty field; so what was written is what is read if and only if no row was empty |
| `Csv.ReadsField` | `apps/web/src/lib/csv.ts:11-17` | Any cell, with commas, quotes, CR and LF inside, reads back as its guarded text and nothing after it is consumed; it is quoted if and only if it holds one of those |
| `Csv.NoFieldReadsAsFormula` | `apps/web/src/lib/csv.ts:11-24` | No field a reader gets back from an export starts with =, +, - or @, whatever was exported |
| `Csv.UnguardExactly` | `apps/web/src/lib/csv.ts:11-17` | The text can be recovered from the export if and only if it did not already look guarded |
| `Csv.EscapeField` | `apps/web/src/lib/csv.ts:11-17` | The reassignments of s come to the specified escaped field |
| `Csv.WriteCsv` | `apps/web/src/lib/csv.ts:19-24` | The loop that pushes lines comes to the mark, the rows and their line breaks |

## Left out

- One organisation only: organisation scoping, roles and audit rows add fields and branches but no property proved here.
- Staff edits (quantity, capacity, batch and event status) and the online admit and undo calls are single steps: the windows between their checks and writes are not modelled, and the capacity chain and the check-in equivalence rely on it.
- A synced item is one step, so an insert race between two syncs of one ticket appears only as one following the other.
- The insert-or-reclaim of a provider event is one step, and so are the lookup of a payment and its guarded transition; a charge may start for any order, which allows more runs than the order-status checks of the charge methods do.
- A redelivered event is the event stored under its id, so its stored content is used; the choice of the newest pending payment and the throttle in reconciliation are replaced by any payment at any time.
- Card charges and reconciliation appear as processes of the sale protocol, and the accrual of a commission as a call of the ledger protocol, without a method of their own.
- Commission REVERSAL rows and coupon redemption counts: nothing in the ledger reads the former, and counting a redemption exactly once is not what the code does.
- FinanceOverlaps.Reconciliation: not promised for every run, because a run that reverses an order twice can break it (FinanceOverlaps.OverlappingRefundsBreakIt); FinanceReconciliation.ReconciliationExactly gives the runs that keep it.
- FinancePayouts.PayoutBound: not promised for every run, because payouts that pass their check beside a pending one can break it (FinancePayouts.OverlappingPayoutsBreakIt); FinancePayouts.PayoutBoundExactly gives the runs that keep it.
- FinanceGuarantees.RefundZeroes: assumes the refund call runs to its end; a crash inside it leaves the rows unreversed until the next refund event.
- The PSP cost of an order is fixed once the order exists; the wiring always reports 0.
- Csv.PrintParse: cells are already strings or null; the conversion of other values to text is not modelled.
- Safe-integer limits are modelled where the code checks them (Cents), not for every sum of amounts.
- HOTP, constant-time comparison, token generation, hashing and encryption: kept as injective or fresh values without any claim about them.
- HTTP routes, pages, e-mail, caches, time zones, slugs, order codes, support actions, ticket transfer and reports: lookups and rendering without a hard property.
