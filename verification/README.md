# Powergas order fulfilment, verified

This project models the order fulfilment core of the Powergas backend (orders, stock, riders, batches,
settlement, wallets, change requests, payments, commission rules) and proves what it keeps over whole runs.

## How the model is built

The database is one value, `Domain.World`, with one sequence or map per table. `Domain.Tx` lists the
transactions: one constructor per database transaction, or per write that follows an unlocked read.
`Transactions.Execute` says what each of them commits or why it fails; a failed one leaves the database as it
was. `Transactions.Run` performs a list of them with a clock value each.

Where a service method reads without a lock and writes later, reading and writing are two moments, and anything
may come in between. Either the transaction carries what was read (`UpdateStatus`, `ConfirmDelivery`,
`CancelOrder`, `BeginApproval` and `RejectChange` carry a status, `BeginApproval` and `InitiatePayment` whether a
payment with the key was found, `ReleaseRider` a count, `CountRetry` a retry count), or the call in progress is a
row of its own:

- a `Handler` is one execution of `settle`: what it read (`LoadSettlement`), one transaction per committed item
  (`CommitItem`), the outer transaction (`BookSettlement`), and the wallet credit (`CreditPayee`) after it. An
  order may have any number of them; `LoadSettlement` tests the order's status and nothing else.
- a `Delivery` is one execution of `handlePaymentCompleted`: it finds a request (`MatchCompletion`), marks it
  (`ApproveMatched`), reads the order's amounts (`ReadTotal`) and overwrites them (`AddAmount`).
- a `Check` is one execution of `updateStatus` on its way to a checkpoint: `VerifyCheckpoint` records the status it
  read and that it found the rider on the spot, `UpdateStatus` names its check and uses it up.

`setCommission` is two writes, `DeactivateRules` and `InsertRule`.

So there are four kinds of statement:

- over **every run**: any transactions in any order, with any stale reads and any overlap. These are legal histories
  and milestone columns, rider claims, proximity, confirmations, conservation of money, that no settlement aborts,
  the wallet ledger, payment retries, that amounts add up, and that an approved request was paid for.
- over every run in which **one thing is not stale**: the theorem is about one order, request, payment key or scope,
  and asks only for the writes that touch it. The condition is named in the theorem (`OrderPaths.SerialFor` for the
  status writes of one order, `OrderPaths.RealReads`, `Handlers.OneLoadPerEvent`, `OrderTotals.SumsFitThroughout`,
  `ChangeRequests.NeverDoubled`, `Commissions.NoClash`, `StockLedger.LedgerFits`); whatever the rest of the system
  does is arbitrary, and `SerialRuns.SerialRunsQualify` proves that every serial run meets all of them. Chained
  histories and ordered milestones, one settlement and one credit per order, the total of an order, final decisions,
  paid references, one rule per scope, one batch per order and the reservation ledger are of this kind.
- over every **serial run** (`Transactions.SerialRun`): what a transaction read still holds when it writes, and a
  confirmation event starts at most one handler. One service method at a time is one way to get this. What reserved
  cylinders are for, stranding and overselling need it, because every order of a station shares its rows.
- over every **atomic run** of whole service calls (`Dispatch.AtomicRun`): accept-and-bundle, clustering and
  matching issue many transactions each. Fleet safety and batch exactness are about these, and
  `Dispatch.AtomicRunsAreSerial` proves that every atomic run is a serial run, so that all of the above holds
  there too.

The lemmas whose names end in `Iff` say exactly when one transaction, stale or not, keeps what such a theorem is
about, and the concrete runs of `Journeys` and `PaymentRaces` start from an empty database and break it:

| kept by a transaction exactly when | broken in |
|---|---|
| a faithful history: `OrderHistory.PathSurvivesIff` | `Journeys.OrderCanBeSettledTwice` |
| no second confirmation, no second settlement: `Handlers.ConfirmedAgainIff`, `Handlers.EventBoundSurvivesIff`, `Handlers.SecondHandlerIff` | `Journeys.OrderCanBeSettledTwice` |
| the reservation ledger: `StockLedger.LedgerSurvivesIff`, `StockLedger.CancelKeepsLedgerIff`, `StockLedger.CommitKeepsLedgerIff`, `StockLedger.StaleCancelIff` | `Journeys.StaleCancelReleasesAnothers` |
| nothing stranded: `StockLedger.StrandsIff` | `Journeys.BypassStrandsACylinder` |
| reserved within filled: `StockLedger.AdjustmentKeepsCoveredIff` | `Journeys.StockCanBeOversold` |
| one batch per order: `BatchRuns.BatchSurvivesIff` | `Journeys.OverlappingClusteringsRebatch` |
| one rule per scope: `Commissions.OneRuleSurvivesIff` | `Journeys.OverlappingRulesLeaveTwo` |
| the sums of an order: `OrderTotals.TotalsSurviveIff` | `PaymentRaces.OverlappingDeliveriesAddTwice`, `PaymentRaces.OverlappingRequestsLoseOne` |
| a decision: `ChangeRequests.DecisionsSurviveIff` | `PaymentRaces.StaleRejectionOverturns` |
| one payment per key, paid references: `ChangeRequests.KeyStaysUniqueIff`, `ChangeRequests.PaidReferencesSurviveIff` | `PaymentRaces.OverlappingApprovalsChargeTwice` |
| a safe fleet: `FleetSafety.AvailabilityKeepsFleetIff`, `FleetSafety.StaleReleaseKeepsFleetIff` | `Journeys.AvailableWithWorkInHand` |

The services themselves are imperative: `Tables.Database` is a class with a field per table, and the modules
named `...Service` (and `OrderEventListener`) hold methods that overwrite it in place, loop by loop as the
backend does. Each is proved to do exactly what the transactions of the model do (`Did`, `Run`), so the
theorems about runs are about them. Beside that, each contract tells its outcome by columns, over the rows before
and after and the constants of the backend, without the functions that compute it: which rate (`Pricing.IsRate`),
which position (`Positions.Within`), which orders are bundled (`Bundling.Bundled`), which are batched and where the
batch's centre is (`BatchOutcome.Clustered`), who gets it (`BatchOutcome.IsMatched`), which payments are retried
(`PaymentRetries.Passed`).

## Where the code and its documentation differ

The model follows the code.

- The state diagram in `docs/ARCHITECTURE.md:48-53` misses three statuses and shows edges that the table at
  `backend/src/orders/orders.service.ts:614-632` does not have. No transition of the table or of `cancel` leads
  to REFUNDED.
- `settle` is meant to be idempotent (`backend/src/orders/settlement.service.ts:72-73`). It tests the status only,
  and `confirmDelivery` writes CUSTOMER_CONFIRMED over whatever the status has become. Two confirmations that both
  read DELIVERED settle one order twice: `Journeys.OrderCanBeSettledTwice`. `Handlers.ConfirmedAgainIff` says
  exactly when a second event comes, `Handlers.SecondHandlerIff` exactly when `settle` starts a second time, and
  `Settlements.CreditsWithinEvents` that no order is credited more often than it was confirmed.
- `backend/src/orders/settlement.service.ts:18` says settlement runs in one transaction. Each `commitReservation` opens
  its own (`backend/src/inventory/inventory.service.ts:136`) and the wallet credit comes after. What is conserved
  all the same, with the uncredited and unrecorded shares as explicit terms, is `Settlements.MoneyIsConserved`.
- A station whose row is missing gets no revenue although its share was split off: the term `Unrecorded`.
- `setCommission` accepts rates up to 100%; the station's share is never negative exactly up to 30.04%
  (`Pricing.StationShareNeverNegative`). Two overlapping calls leave two active rules
  (`Journeys.OverlappingRulesLeaveTwo`; exactly when: `Commissions.OneRuleSurvivesIff`).
- `adjustStock` checks that the filled count stays non-negative, not that it covers the reserved count.
  `StockLedger.AdjustmentKeepsCoveredIff` gives the exact condition, `Journeys.StockCanBeOversold` a run that
  sells a cylinder the shelf does not hold.
- `cancel` releases whatever the order's status has become: `StockLedger.CancelKeepsLedgerIff` and
  `StockLedger.StaleCancelIff` say exactly when the ledger survives, `Journeys.StaleCancelReleasesAnothers` is a
  run in which it does not.
- `setAvailability` is unguarded and `releaseRiderIfFree` counts before it writes;
  `FleetSafety.AvailabilityKeepsFleetIff` and `FleetSafety.StaleReleaseKeepsFleetIff` give the exact conditions.
- `updateStatus` can write CANCELLED and COMPLETED with no stock or money effect, and RIDER_ASSIGNED with no
  rider. All three are in the model. What the first two cost is the stranded remainder of
  `StockLedger.ReservedIsLivePlusStranded`; `StockLedger.StrandsIff` says which transaction causes it.
- A rejection that read the request open overwrites an approval, and overlapping deliveries of payment events add
  an amount twice or lose one: `PaymentRaces`; exactly when: `ChangeRequests.DecisionsSurviveIff` and
  `OrderTotals.TotalsSurviveIff`.
- Money that a customer pays for a change request after the settlement has read the order is in the order's
  total but in nobody's share: `OrderTotals.SharesMissLaterApprovals`.
- `initiate` is meant to be idempotent (`backend/src/payments/payments.service.ts:22`). Nothing keeps two payments
  with one key apart (`backend/src/payments/entities/payment.entity.ts:19`), so two overlapping approvals of one
  request insert two, and the second may replace the reference of the first after it was paid:
  `PaymentRaces.OverlappingApprovalsChargeTwice`. What holds all the same is `ChangeRequests.ApprovedWasPaidFor`.
- Two overlapping batching cycles move an order into a second batch while the first still counts it:
  `Journeys.OverlappingClusteringsRebatch`; exactly when: `BatchRuns.BatchSurvivesIff`.
- A paid change request need not become approved: `ChangeRequests.CompletionFindsIff` says when it does.

## Model

| member | source | states |
|---|---|---|
| OrderPaths.HistoryIsLegal | backend/src/orders/orders.service.ts:129-141 | Over every run, however stale the six status writers: every order's history starts at null to PENDING, makes only moves of the table or the cancel list, ends at the current status and never reaches REFUNDED, and each of the eight milestone columns is set exactly when the history has its status. |
| OrderPaths.HistoryIsFaithful | backend/src/orders/orders.service.ts:109-147 | When the order's own status writes act on its current status, whatever else happens: each entry leaves the status that the one before it entered, the lifecycle rank grows, there are at most 15 entries, and CANCELLED is never reached once the cylinder was picked up. |
| OrderPaths.EveryEarlierStatus | backend/src/orders/orders.service.ts:614-632 | A legal history in which every move leaves a status entered before it has, with any status of the main chain, every earlier one. |
| OrderHistory.PathSurvivesIff | backend/src/orders/orders.service.ts:116-141 | A status write that goes through leaves a faithful history exactly when the status its writer read is still current: the unlocked read-then-write is safe exactly then. |
| OrderPaths.MilestonesAreOrdered | backend/src/orders/orders.service.ts:636-649 | When the order's own status writes are serial and the clock never goes back, the milestone times never decrease along the lifecycle. |
| OrderHistory.StatusWriteMovesOneRow | backend/src/orders/orders.service.ts:255-276 | Whichever writer it is, a serial status write changes one order, by one legal move, with one history entry and its milestone time, and leaves items, batch and (unless claiming) rider alone. |
| OrderHistory.KeepsSound | backend/src/orders/orders.service.ts:109-147 | Every serial transaction of any service keeps history, milestone columns and the other columns of every order consistent. |
| RowFrames.RowFrame | backend/src/orders/orders.service.ts:132-132 | Any transaction, however stale, leaves an order's creation columns alone; amounts move only when a delivery adds to them, status and shares only through the status writers, the rider only through a claim of an unclaimed order, the batch only through batching. |
| RiderClaims.RiderWrittenOnce | backend/src/orders/orders.service.ts:255-262 | Over every run, an order's rider, once written, never changes. |
| RiderClaims.OrderClaimedOnce | backend/src/orders/orders.service.ts:232-283 | Over every run, once a claim of an order commits, every other claim of it, earlier or later, fails, and that rider keeps the order. |
| RiderClaims.ClaimWritesRider | backend/src/orders/orders.service.ts:240-268 | A committed claim found the order without a rider and gave it this one; with claimRider it found the rider AVAILABLE and left him BUSY. |
| RiderClaims.FreedBetweenClaims | backend/src/orders/orders.service.ts:207-231 | No double booking: between two committed claims of one rider as a new job, some committed step of the run set that rider AVAILABLE. |
| OrdersService.AssignRider | backend/src/orders/orders.service.ts:232-283 | Succeeds exactly for an unclaimed PREPARING order (and an AVAILABLE rider, who becomes BUSY, when claiming); then writes rider, status, milestone and entry of that order; otherwise the database is as before. |
| OrdersService.Create | backend/src/orders/orders.service.ts:46-107 | Succeeds exactly when every item's type has a row and the summed quantities are available; then stores one PENDING order with the fee, the surcharge and the sum of the lines, its first history entry, and reserves every item; otherwise stores and reserves nothing. |
| OrdersService.ReserveInventory | backend/src/orders/orders.service.ts:554-580 | The in-place loop succeeds or refuses exactly as the item-by-item specification does. |
| OrdersService.ReleaseInventoryReservation | backend/src/orders/orders.service.ts:582-597 | The in-place loop leaves the stock that the release specification describes. |
| OrdersService.UpdateStatus | backend/src/orders/orders.service.ts:109-147 | Answers as the backend does, check by check and in its order (unknown order, move not in the table, missing coordinates, no position or too far); when it succeeds the order's row has the new status, milestone and history entry, and nothing else of it changed; otherwise nothing has. |
| OrdersService.VerifyProximity | backend/src/orders/orders.service.ts:187-205 | Accepts exactly when the last position recorded for the order is within 100 m of the target; none recorded refuses. |
| OrdersService.ConfirmDelivery | backend/src/orders/orders.service.ts:422-455 | Confirms exactly for the order's customer, from DELIVERED, with the right code; each refusal has the backend's error and changes nothing. |
| OrdersService.CancelOrder | backend/src/orders/orders.service.ts:457-507 | Cancels exactly before the cylinder is picked up, refusing only a customer whose order it is not, releasing each item its row's reserved count covers; otherwise fails and changes nothing. |
| OrdersService.AcceptOrder | backend/src/orders/orders.service.ts:309-321 | Succeeds exactly when the rider is verified and AVAILABLE and the order unclaimed and PREPARING; then it is his, and for a STANDARD order so are the bundled ones, all of the accepted order's station. |
| OrdersService.AttachNearbySameStationOrders | backend/src/orders/orders.service.ts:326-364 | The rider gets only other unclaimed STANDARD orders in preparation of the anchor's station with both coordinates, up to three at RIDER_ASSIGNED in all; if one that qualifies was left there are three, and none he got is farther. |
| Bundling.AttachIsBundled | backend/src/orders/orders.service.ts:326-364 | In any database an undisturbed bundling gives the rider that many of the nearest qualifying orders, told by their columns and without the sorted list or the loop. |
| Bundling.AcceptIsExact | backend/src/orders/orders.service.ts:309-321 | In any database an undisturbed accept goes through exactly for a verified AVAILABLE rider and an unclaimed PREPARING order, and leaves exactly that claim and that bundle. |
| OrdersService.ReleaseRiderIfFree | backend/src/orders/orders.service.ts:396-413 | Leaves the rider AVAILABLE exactly when no order of his stands from RIDER_ASSIGNED to RIDER_ARRIVED_DELIVERY; otherwise changes nothing. |
| Lifecycle.ActiveIsInHand | backend/src/orders/orders.service.ts:396-406 | The eight statuses that keep a rider busy are those of the chain from RIDER_ASSIGNED to RIDER_ARRIVED_DELIVERY. |
| Lifecycle.TableIsTheChain | backend/src/orders/orders.service.ts:613-634 | The transition table allows exactly the next status of the chain, and CANCELLED from the first three. |
| Lifecycle.CancellableBeforePickup | backend/src/orders/orders.service.ts:467-475 | The seven statuses of `cancel` are exactly those before CYLINDER_PICKED_UP. |
| Pricing.ItemsTotalIsSum | backend/src/orders/orders.service.ts:601-601 | The subtotal is the sum of unit price times quantity over the items. |
| Pricing.SurchargeIsNearest | backend/src/orders/orders.service.ts:603-603 | EXPRESS adds the nearest cent to a fifth of the subtotal and only that; STANDARD adds nothing. |
| Confirmations.VerifiedMeansCode | backend/src/orders/orders.service.ts:425-441 | Over every run, an order is marked verified only if at some step its own customer confirmed it with its own code. |
| Proximity.GatedEntriesWereChecked | backend/src/orders/orders.service.ts:116-132 | Over every run, each entry of any history into one of the four checkpoints, by its index, was written by an `updateStatus` that had itself, at an earlier step, validated the move from the very status the entry leaves and found the last position recorded for the order by then within 100 m of the station's coordinates (AT_STATION) or the order's delivery coordinates (the other three). |
| Positions.LatestIsLast | backend/src/tracking/tracking.service.ts:48-50 | The position found is that of the order's last row, and none exactly when it has no row. |
| Positions.SpotIsCheckpoint | backend/src/orders/orders.service.ts:158-205 | The check passes exactly when the coordinates of that checkpoint are known and the order's last recorded position is within 100 m of them. |
| TrackingService.RecordLocation | backend/src/tracking/tracking.service.ts:17-42 | The reported position is the rider's own place and the latest of its order; no other order's latest position changes. |
| Proximity.EntriesHaveOwnChecks | backend/src/orders/orders.service.ts:116-132 | No two checkpoint entries, of one order or of two, were written on one check. |
| Proximity.CheckedJustBefore | backend/src/orders/orders.service.ts:116-132 | When the order's own checks and status writes are serial, the check of each checkpoint entry was made while the order stood at the status of the entry before it. |
| Proximity.DeliveredWasCheckedFourTimes | backend/src/orders/orders.service.ts:415-421 | Over every run in which the status writers act on statuses their order has really had, however long ago: an order that is DELIVERED, CUSTOMER_CONFIRMED or COMPLETED has an entry for each of the four checkpoints, each with its own check; confirming and settling add no way round. |
| StockLevels.ReserveRefinesAggregate | backend/src/orders/orders.service.ts:554-580 | With a row for every type, reserving item by item succeeds exactly when each type's summed quantity, repetitions included, is at most filled minus reserved, and then adds exactly that sum to each row. |
| StockLevels.ReserveNeedsEveryRow | backend/src/orders/orders.service.ts:566-568 | A reservation that succeeds found a row for every requested type. |
| StockLevels.ReleaseTakesExactlyTheDemand | backend/src/orders/orders.service.ts:585-596 | When the reserved counts cover the order, the release skips nothing and clips nothing. |
| StockLevels.ReleaseUndoesReserve | backend/src/orders/orders.service.ts:554-597 | Releasing what was just reserved gives every count back. |
| StockLedger.LedgerSurvivesIff | backend/src/inventory/inventory.service.ts:135-147 | In any database whose reserved counts are the sums of what the orders hold, a transaction keeps them so exactly when, if it is a cancellation, the release loop drains what the order holds, and, if it is a commit, the reserved count covers it (or, for a cancelled order, does not move). |
| StockLedger.LedgerWhileItFits | backend/src/inventory/inventory.service.ts:135-147 | So over every run whose cancellations and commits do that, whatever else is stale, each reserved count is exactly the sum of what the orders hold. |
| StockLedger.LedgerOverRuns | backend/src/inventory/inventory.service.ts:135-147 | In particular over every serial run: what the orders asked for, unless cancelled, less what their settlement committed. |
| StockLedger.ReservedIsLivePlusStranded | backend/src/orders/orders.service.ts:554-597 | Over every serial run reserved is exactly the demand of the live orders plus what ended orders still hold; so it always covers the live demand, and equals it exactly when no ended order holds anything of the row. |
| StockLedger.StrandsIff | backend/src/orders/orders.service.ts:614-628 | A serial transaction strands cylinders exactly when it is an `updateStatus` to CANCELLED or COMPLETED of an order that still holds some. |
| StockLedger.ReservedEqualsLiveDemand | backend/src/orders/orders.service.ts:614-628 | So reserved equals the live demand over every serial run without such an `updateStatus`. |
| Journeys.BypassStrandsACylinder | backend/src/orders/orders.service.ts:615-615 | A concrete serial run with one: reserved is 1 and the live demand 0. |
| StockLedger.CancelReleasesExactly | backend/src/orders/orders.service.ts:591-594 | In every reachable serial state a cancellation takes off exactly the order's demand: the guard never skips, `Math.max` never clips. |
| StockLedger.CancelKeepsLedgerIff | backend/src/orders/orders.service.ts:458-492 | The ledger survives a committed cancellation, however stale, exactly when the release loop takes off each row what the order still holds there (computed item by item, for orders with committed items too). |
| StockLedger.StaleCancelIff | backend/src/orders/orders.service.ts:582-597 | For an order with no committed item that is: exactly when it was not cancelled already, or every item is worth nothing or larger than the reserved count. |
| Journeys.StaleCancelReleasesAnothers | backend/src/orders/orders.service.ts:458-492 | A concrete run: two cancellations of one order, both reading PENDING, leave reserved 0 while another live order needs 1. |
| StockLedger.CommitTakesExactly | backend/src/inventory/inventory.service.ts:137-145 | In every reachable serial state a commit finds its row and takes the quantity off both counts: `Math.max` never clips. |
| StockLedger.NeverOversold | backend/src/inventory/inventory.service.ts:117-143 | If every adjustment leaves filled at least reserved, then over every serial run 0 <= reserved <= filled for every row. |
| StockLedger.AdjustmentKeepsCoveredIff | backend/src/inventory/inventory.service.ts:117-119 | An accepted adjustment keeps reserved within filled exactly when the new filled count is at least the reserved count. |
| Journeys.StockCanBeOversold | backend/src/inventory/inventory.service.ts:117-143 | Without that care the claim is false: a concrete serial run in which an accepted adjustment takes a reserved cylinder and a settlement drives filled to -1. |
| InventoryService.AdjustStock | backend/src/inventory/inventory.service.ts:110-132 | Moves both counts by their deltas, or fails for a missing row or a negative result and changes nothing. |
| InventoryService.CommitReservation | backend/src/inventory/inventory.service.ts:135-147 | Takes the quantity off filled and off reserved (not below zero) of exactly that row, or fails for a missing row. |
| InventoryService.UpsertPricing | backend/src/inventory/inventory.service.ts:100-107 | Creates a zero row or leaves all counts alone. |
| Dispatch.BundlingIsGreedy | backend/src/orders/orders.service.ts:326-364 | Whatever attempts fail: the candidates are exactly the other STANDARD PREPARING orders of the anchor's station with both coordinates, no more than the free slots are won, the loop stops early only with every slot spent, every unattempted order is at least as far as every attempted one, and with no failure the nearest ones are won. |
| Dispatch.BundleCallsAreAttempts | backend/src/orders/orders.service.ts:354-363 | The claims the loop issues in any state are the first so many sorted candidates, for the outcomes that actually occur. |
| Dispatch.AtomicRunsAreSerial | backend/src/orders/batching.service.ts:41-47 | A run of uninterrupted service calls is a serial run of their transactions. |
| SerialRuns.SerialRunsQualify | backend/src/orders/orders.service.ts:109-147 | A run in which every transaction acts on what it read while that still holds meets every narrower condition: for each order, key, scope, cancellation and commit. |
| Dispatch.NearestIsNearest | backend/src/riders/riders.service.ts:82-93 | The rider search returns a matchable rider at least as near as every other, or nobody is matchable. |
| RidersService.FindNearestAvailable | backend/src/riders/riders.service.ts:82-93 | The result is AVAILABLE, VERIFIED, located within the radius and nearest of these; no result means there is none. |
| FleetSafety.FleetIsSafe | backend/src/orders/orders.service.ts:285-364 | Over every atomic run in which no rider takes himself off BUSY with work in hand: nobody ever carries more than three orders, and whoever carries one is BUSY; carrying is read off the history (RIDER_ASSIGNED entered, not cancelled, delivered or later). |
| FleetSafety.AcceptKeepsFleet | backend/src/orders/orders.service.ts:309-364 | Accepting with bundling keeps the fleet safe. |
| FleetSafety.MatchKeepsFleet | backend/src/orders/batching.service.ts:140-182 | Matching a rider to a batch keeps the fleet safe. |
| FleetSafety.ReleaseFreesExactlyTheIdle | backend/src/orders/orders.service.ts:396-413 | In a safe fleet a release that counts and writes undisturbed leaves the rider AVAILABLE exactly when he has no order from RIDER_ASSIGNED to RIDER_ARRIVED_DELIVERY, and touches nobody else. |
| FleetSafety.AvailabilityKeepsFleetIff | backend/src/riders/riders.service.ts:66-69 | The unguarded `setAvailability` keeps a safe fleet safe exactly when it sets BUSY or the rider has no active order. |
| Journeys.AvailableWithWorkInHand | backend/src/riders/riders.service.ts:66-69 | A concrete run: a rider with an order in hand sets himself AVAILABLE, and the fleet, safe before, is not safe after. |
| FleetSafety.StaleReleaseKeepsFleetIff | backend/src/orders/orders.service.ts:407-412 | A release that counted no active order keeps a safe fleet safe exactly when none has come in since. |
| Clustering.ClusteringIsCorrect | backend/src/orders/batching.service.ts:58-99 | The groups partition exactly the unbatched, unclaimed STANDARD orders in preparation with coordinates; each has 1 to 3 orders of one station, all within 3 km of its seed, and is full or left nothing of its station within 3 km of its seed to later groups. |
| Clustering.CentroidInBounds | backend/src/orders/batching.service.ts:99-101 | A batch's centroid lies in every box that holds its members. |
| BatchOutcome.CentroidIsCentre | backend/src/orders/batching.service.ts:99-100 | In both coordinates the deviations of the batch's orders from its centroid, summed over the rows, are zero: it is their mean. |
| BatchOutcome.CentroidsAreMeans | backend/src/orders/batching.service.ts:99-114 | Over every atomic run the centroid that each batch is matched from is the mean of the orders that are in it. |
| GroupOrder.ClustersAreExact | backend/src/orders/batching.service.ts:58-99 | Each waiting order is in one group; a group's first order is the earliest of those left, within 3 km of all others of it, and what it leaves of its station within 3 km to later groups comes before what it took, and it is full then. |
| BatchOutcome.ClusteringIsExact | backend/src/orders/batching.service.ts:58-124 | An undisturbed clustering makes one open batch per group, with its size and its mean, moves exactly the waiting orders into them, and changes nothing else. |
| BatchOutcome.MatchingIsExact | backend/src/orders/batching.service.ts:140-182 | An undisturbed round gives every unclaimed order in preparation of the batch to the nearest AVAILABLE verified rider within 10 km of its mean, makes him BUSY if there was one, and assigns him the batch; with no such rider it changes nothing. |
| BatchingService.ClusterStation | backend/src/orders/batching.service.ts:78-97 | The shrinking-pool loop terminates and yields a partition of the pool into well-gathered, exhaustive groups. |
| BatchingService.GroupByStation | backend/src/orders/batching.service.ts:68-74 | The grouping loop builds the pools of the specification, in order of first appearance. |
| BatchingService.ClusterPendingOrders | backend/src/orders/batching.service.ts:58-124 | In place, leaves exactly the batches of those groups, each with its size and the mean of its orders, and every waiting order in its batch. |
| BatchingService.SaveBatch | backend/src/orders/batching.service.ts:102-114 | Inserts the batch and writes its id into exactly the group's orders. |
| BatchingService.MatchRiderToBatch | backend/src/orders/batching.service.ts:143-180 | One round: the nearest matchable rider gets every free order of the batch, is BUSY if there was one, and is recorded on the batch; with no rider nothing changes. |
| BatchingService.MatchRidersToBatches | backend/src/orders/batching.service.ts:140-182 | One round for every batch that was open at the start. |
| BatchingService.RunBatchingCycle | backend/src/orders/batching.service.ts:41-47 | Clusters, then matches. |
| BatchRuns.NoOrderIsStranded | backend/src/orders/batching.service.ts:140-182 | Over every atomic run each batch counts exactly its orders (1 to 3), is ASSIGNED exactly when it has a rider, and no order still in preparation belongs to an ASSIGNED batch. |
| BatchRuns.LoopLeavesNoneWaiting | backend/src/orders/batching.service.ts:158-177 | The matching loop leaves no order of the batch in preparation. |
| BatchRuns.BatchWrittenOnce | backend/src/orders/batching.service.ts:111-114 | An order's batch, once set, never changes over any run in which no clustering saves it into a second one. |
| BatchRuns.BatchSurvivesIff | backend/src/orders/batching.service.ts:111-114 | In any database an order's batch survives a transaction exactly when the transaction does not save a batch of a group, read too early, that has the order in it. |
| Journeys.OverlappingClusteringsRebatch | backend/src/orders/batching.service.ts:60-114 | A concrete run of two clusterings that both read the order unbatched: it ends in the second batch, and the first counts an order it does not have. |
| SettlementService.Settle | backend/src/orders/settlement.service.ts:66-136 | The handler, uninterrupted, for an order in any state and however often settled before, performs exactly its transactions in order: load, one commit per item, book, credit; for an order that is not CUSTOMER_CONFIRMED they change nothing. |
| SettlementService.LoadOrder | backend/src/orders/settlement.service.ts:66-86 | Starts exactly when the order exists and is CUSTOMER_CONFIRMED; the new handler holds its station, items, rider and total, a commission that is a nearest cent of the total at a rate the rules give, 70% of the fee for the rider, and the rest for the station. |
| SettlementService.GetCommissionPercent | backend/src/orders/settlement.service.ts:52-64 | Returns the rate of an active rule of the station if there is one, else of an active platform rule if there is one, else the configured rate. |
| Pricing.RateByPrecedence | backend/src/orders/settlement.service.ts:52-64 | The same of the function the runs use, over the rows of the rules table. |
| SettlementService.CommitItems | backend/src/orders/settlement.service.ts:118-122 | Commits item after item; a missing row ends the handler with the earlier commits kept. |
| SettlementEffect.SettlementIsExact | backend/src/orders/settlement.service.ts:66-136 | In any state of the database with the order's rows, settling a CUSTOMER_CONFIRMED order completes it, takes exactly its summed items off filled and what is left of them off reserved, adds the station's share to its revenue, credits the rider's share, and touches nothing else: for a second settlement as for a first. |
| SettlementEffect.SettlementPays | backend/src/orders/settlement.service.ts:66-136 | The same by columns: at some rate that the rules give the shares are the split of the total, the station's revenue grows by its share, the wallet of the order's rider (if there is one) by his positive share with one credit naming the order, and no other row of either table changes. |
| SettlementEffect.FirstSettlementIsSerial | backend/src/orders/settlement.service.ts:66-136 | In every reachable serial state the first settlement of an order is a serial run and finds all its items reserved, so nothing is clipped. |
| SettlementEffect.NoSettlementAborts | backend/src/inventory/inventory.service.ts:140-140 | Over every run, whatever is stale or overlaps, no settlement stops half-way for want of an inventory row. |
| Handlers.HandlersFitOverRuns | backend/src/orders/settlement.service.ts:116-122 | Over every run each handler works on its own order's station and items, commits at most all of them, books only after the last, and credits only after booking. |
| Handlers.ConfirmedAgainIff | backend/src/orders/orders.service.ts:425-452 | In any database, an order that was confirmed is confirmed again, and emits another event, exactly when the caller is its customer with its code and had read DELIVERED (or `updateStatus` had read DELIVERED); the status it has by now is not asked. |
| Handlers.SecondHandlerIff | backend/src/orders/settlement.service.ts:72-78 | In any database, an order settled once gets a second handler exactly when `settle` runs on it while it is CUSTOMER_CONFIRMED. |
| Handlers.EventBoundSurvivesIff | backend/src/orders/settlement.service.ts:66-79 | In any database with no more handlers of an order than confirmation events, a transaction leaves it so exactly when it does not start `settle` with no event left. |
| Handlers.HandlersWithinEvents | backend/src/orders/settlement.service.ts:66-79 | Over every run in which each confirmation event of an order starts at most one `settle`, the order is settled at most as often as it was confirmed, whatever else is stale. |
| Handlers.OneHandlerPerOrder | backend/src/orders/settlement.service.ts:66-79 | If the order's own status writes are serial too, it never gets two handlers. |
| Journeys.OrderCanBeSettledTwice | backend/src/orders/settlement.service.ts:72-136 | A concrete run in which each of two confirmation events is handled once and one order of 15.00 is settled twice: two cylinders off the shelf, 16.00 of station revenue, two credits of 7.00, and a history that is no path. |
| Settlements.MoneyIsConserved | backend/src/orders/settlement.service.ts:66-136 | Over every run, however many handlers an order gets: the totals of the booked settlements are platform commission, plus growth of station revenue, plus growth of wallet earnings, plus rider shares not credited, plus shares of stations without a row. |
| Settlements.EachAccountHasItsOwn | backend/src/orders/settlement.service.ts:107-133 | Over every run each station's revenue grew by the station shares of the settlements of its own orders, each rider's earnings by the rider shares of the settlements that named him. |
| Settlements.CreditsAreCreditedHandlers | backend/src/riders/riders.service.ts:102-119 | Over every run the wallets hold exactly one credit for each credited settlement of an order. |
| Settlements.CreditsWithinEvents | backend/src/orders/settlement.service.ts:125-133 | Over every run in which each confirmation event of an order starts at most one `settle`, its rider is credited at most as often as the order was confirmed. |
| Settlements.CreditedAtMostOnce | backend/src/orders/settlement.service.ts:125-133 | If the order's own status writes are serial too, it is credited at most once. |
| Pricing.SplitIsExact | backend/src/orders/settlement.service.ts:81-86 | The shares sum to the total to the cent; commission and rider share are within half a cent of the exact values. |
| Pricing.ToFixedIsNearest | backend/src/orders/settlement.service.ts:84-86 | The rounding model yields all and only nearest cents. |
| Pricing.StationShareNeverNegative | backend/src/admin/admin.service.ts:32-34 | The station's share is non-negative for every priceable order and every tie exactly when the rate is at most 30.04%. |
| Pricing.PricesReachEveryTotal | backend/src/orders/orders.service.ts:599-605 | The possible totals are exactly those of at least the delivery fee. |
| Pricing.RateAfterSet | backend/src/admin/admin.service.ts:35-44 | A new rule takes effect at once for its scope and leaves every station with an override of its own as it was. |
| Pricing.OneActiveRulePerScope | backend/src/admin/admin.service.ts:41-44 | Setting a rule leaves at most one active rule in every scope and exactly one in its own. |
| Commissions.OneRuleSurvivesIff | backend/src/admin/admin.service.ts:41-44 | Each scope keeps at most one active rule under a transaction exactly when the transaction does not insert into a scope that has an active rule again. |
| Commissions.SettingIsExact | backend/src/admin/admin.service.ts:31-45 | The two writes of an undisturbed `setCommission` are serial and come to deactivating the scope and adding the rule. |
| Commissions.CommissionIsDefinite | backend/src/orders/settlement.service.ts:52-64 | Over every run without such an insertion, a station's rate does not depend on the order in which the rules are stored or found. |
| Journeys.OverlappingRulesLeaveTwo | backend/src/admin/admin.service.ts:41-44 | A concrete run of two overlapping calls: two active rules in one scope, and a rate that depends on their order. |
| AdminService.SetCommission | backend/src/admin/admin.service.ts:31-45 | Accepts exactly 0 to 100%, deactivates the active rules of this scope only, and adds the new one. |
| OrderTotals.AmountsAddUp | backend/src/change-requests/change-requests.service.ts:130-134 | Over every run, lost updates included, every order's total is its subtotal plus its fee of 10.00 plus the surcharge on the lines it was created with. |
| OrderTotals.TotalIsPricePlusApproved | backend/src/change-requests/change-requests.service.ts:107-138 | When no write to an order's sums acts on a stale read that matters to them, its total is the sum of its lines, 10.00 and the surcharge, plus its approved change requests, less those that a delivery has approved and not yet added. |
| OrderTotals.TotalsSurviveIff | backend/src/change-requests/change-requests.service.ts:107-135 | The sums of an order survive a transaction, stale or not, exactly when an amount is added to the amounts the order still has, and what is approved or rejected is not approved already (or is worth nothing). |
| PaymentRaces.OverlapAddsTwice | backend/src/change-requests/change-requests.service.ts:107-135 | In any database where a completion finds an open request, two overlapping deliveries of it approve it once and add its amount twice. |
| PaymentRaces.OverlappingDeliveriesAddTwice | backend/src/change-requests/change-requests.service.ts:107-135 | A concrete run of that: 3.00 approved, 6.00 added. |
| PaymentRaces.OverlappingRequestsLoseOne | backend/src/change-requests/change-requests.service.ts:129-135 | A concrete run: the completions of two requests handled at once approve 8.00 and add 5.00. |
| OrderTotals.SharesAreOfABooking | backend/src/orders/settlement.service.ts:88-104 | Over every run, the three shares of an order with a booked settlement are those that one of its booked settlements computed. |
| OrderTotals.SharesMissLaterApprovals | backend/src/change-requests/change-requests.service.ts:123-135 | For an order with one booked settlement and fitting sums: its total minus its three shares is exactly what deliveries added since that settlement read it. |
| ChangeRequests.ApprovedWasPaidFor | backend/src/change-requests/change-requests.service.ts:60-121 | Over every run, whatever overlaps: an approved request has a reference to a payment made for it, and some payment made for this very request, of its order and amount, was announced as paid. |
| ChangeRequests.ApprovedMeansPaid | backend/src/change-requests/change-requests.service.ts:60-121 | If no payment of the request was inserted on a stale lookup, that payment is the one its reference names. |
| ChangeRequests.KeyStaysUniqueIff | backend/src/payments/payments.service.ts:24-43 | A key stays with one payment under a transaction exactly when the transaction does not insert one on a lookup that found none although there is one by now. |
| ChangeRequests.PaidReferencesSurviveIff | backend/src/change-requests/change-requests.service.ts:70-84 | Every approved request's reference goes on naming an announced payment exactly when no second half of `approve` points an approved request at one that was not announced, and no delivery approves a request that points at one; with one payment for the request neither happens. |
| PaymentRaces.OverlappingApprovalsChargeTwice | backend/src/change-requests/change-requests.service.ts:60-84 | A concrete run: two overlapping approvals insert two payments for one request of 3.00; it ends APPROVED with the reference of an unpaid payment, and when that is paid too the customer has paid 6.00 for 3.00 added. |
| ChangeRequests.ReferencesAreFinal | backend/src/change-requests/change-requests.service.ts:84-84 | A stored reference stays over every run in which no payment of the request was inserted on a stale lookup. |
| ChangeRequests.DecisionsAreFinal | backend/src/change-requests/change-requests.service.ts:62-97 | APPROVED and REJECTED are absorbing over every run in which no writer of this request overturns it from a stale read. |
| ChangeRequests.DecisionsSurviveIff | backend/src/change-requests/change-requests.service.ts:88-121 | In any database the decision on a request survives a transaction exactly when the transaction is not a rejection of it once approved, or an approval once rejected, by a writer that read it open. |
| PaymentRaces.StaleRejectionOverturns | backend/src/change-requests/change-requests.service.ts:88-96 | A concrete run: an approved request ends up REJECTED, its amount still in the total. |
| ChangeRequests.DecisionStep | backend/src/change-requests/change-requests.service.ts:84-121 | Over every interleaving one transaction can approve a request only through a delivery of an announced payment made for it, reject it only by its own rejection, and give it only the reference of a payment made for it. |
| ChangeRequests.DeliveryIsExact | backend/src/change-requests/change-requests.service.ts:107-138 | The steps of an undisturbed delivery approve the request it found and add its amount to the order, or do nothing. |
| ChangeRequests.DuplicateDeliveryIsIdle | backend/src/change-requests/change-requests.service.ts:107-116 | A completion delivered again after its first delivery has finished does nothing. |
| ChangeRequests.CompletionFindsIff | backend/src/change-requests/change-requests.service.ts:108-116 | A completion of a payment made for a request finds it exactly when the request is open and names this payment; completions of other payments find nothing. |
| ChangeRequests.ApprovalIsIdempotent | backend/src/payments/payments.service.ts:24-28 | Approving again on a current lookup finds the payment of the first approval and changes nothing. |
| ChangeRequestsService.ApproveChange | backend/src/change-requests/change-requests.service.ts:60-86 | The two halves, one after the other: the payment under the request's key, then its reference on the request. |
| ChangeRequestsService.HandlePaymentCompleted | backend/src/change-requests/change-requests.service.ts:107-138 | Uninterrupted, performs exactly the steps of a delivery in order. |
| ChangeRequestsService.Create | backend/src/change-requests/change-requests.service.ts:21-40 | Raises a request on an order of the station, or fails and changes nothing. |
| ChangeRequestsService.RejectChangeRequest | backend/src/change-requests/change-requests.service.ts:88-100 | Rejects an open request, or fails and changes nothing. |
| PaymentsService.Initiate | backend/src/payments/payments.service.ts:23-43 | Returns the payment that has the key, or inserts one. |
| PaymentsService.VerifyPayment | backend/src/payments/payments.service.ts:60-79 | Leaves a completed payment alone, otherwise records the provider's answer and announces a completion. |
| PaymentsService.RetryFailedPayments | backend/src/payments/payments.service.ts:105-122 | Counts once more exactly the failed payments among the first fifty failed ones that were retried fewer than three times, makes those paid that the provider reports paid and announces exactly these, leaves every other payment alone, and reports how many lookups went through. |
| PaymentRetries.RetryPassIsExact | backend/src/payments/payments.service.ts:105-122 | One undisturbed pass counts each failed payment of the page with retries left once, turns those now paid into paid and announces them, and changes nothing else. |
| PaymentRetries.PassByRows | backend/src/payments/payments.service.ts:105-122 | The same row by row: a payment changes exactly when it is failed, has fewer than fifty failed ones before it and fewer than three retries. |
| PaymentRetries.PassReports | backend/src/payments/payments.service.ts:105-122 | The count a pass returns is the number of its due payments whose lookup did not throw, and it announces exactly those found paid, each once. |
| PaymentRetries.RetriesNeverExceedThree | backend/src/payments/payments.service.ts:112-113 | Over every run, with overlapping jobs and stale counts, no payment's retry count exceeds three. |
| Wallets.WalletReplays | backend/src/riders/riders.service.ts:102-139 | Over every run, folding a wallet's log gives every recorded balance, the current balance and both totals; version counts the postings; balance minus earned plus withdrawn never changes. |
| Wallets.BalanceNeverNegative | backend/src/riders/riders.service.ts:125-127 | Over every run no wallet balance goes below zero. |
| RidersService.CreditWallet | backend/src/riders/riders.service.ts:102-119 | Posts the credit with its new balance on exactly that wallet, or fails and changes nothing. |
| RidersService.RequestWithdrawal | backend/src/riders/riders.service.ts:121-139 | Posts the debit when the balance covers it, or fails and changes nothing. |
| RidersService.CreateProfile | backend/src/riders/riders.service.ts:21-25 | Inserts the rider and an empty wallet for him. |
| RidersService.SetAvailability | backend/src/riders/riders.service.ts:66-69 | Sets exactly that rider's status, unguarded. |
| RidersService.ReviewVerification | backend/src/riders/riders.service.ts:58-64 | Writes the decision on exactly that rider. |
| OrderEventListener.HandleDeliveredOrCancelled | backend/src/orders/events/order-event.listener.ts:45-73 | Counts the active orders of the order's rider, if it has one, and releases him if there are none. |
| OrderEventListener.HandleConfirmed | backend/src/orders/events/order-event.listener.ts:55-64 | Settles the order, whoever has settled it before: completes it, sells its items, and pays station and rider their parts of the split at the applicable rate; changes nothing for one that is not CUSTOMER_CONFIRMED. |

## Left out

- Transactions.Serial: counts as an event of an order every entry of its history into CUSTOMER_CONFIRMED, and lets
  an event start at most one handler. An event bus that repeats events is not modelled there; over every run it is.
- `settle` reads the order and then the commission rules: one step here.
- `updateStatus`, `confirmDelivery` and `recordLocation` as two writes each (row, then history or track): one step.
- The insert of a batch and the update of its orders: one step here. So are `acceptOrder`'s reading of
  the rider's verification and its claim.
- Idempotency keys of clients never take the form reserved for change requests (`ClientKey`, `ChangeKey`).
- The order in which unordered queries return rows: table order here. For commission rules it is proved not to
  matter while each scope has one active rule.
- Floating point and decimal columns: money is in integer cents, rates in basis points, `toFixed(2)` a nearest
  cent with an arbitrary tie rule; coordinates and centroids are exact reals.
- Trigonometry: both distance functions are arbitrary functions of two positions.
- The library's reading of a null station in a query: the documented intent is modelled.
- Deletion of rows, soft or hard; two simultaneous creations of one inventory row.
- Order numbers, one-time code generation, idempotency key of orders, notifications, sockets, logging.
- Payment providers and webhook signatures: `verify` and the retry job take the provider's answer as a parameter.
- Mirroring of payment status on orders; the price columns and low-stock threshold of inventory rows; pricing
  history.
- Verification review as more than a yes or no.
- Controllers, guards, authentication, disputes, reviews, addresses, files, analytics, both front ends: plumbing
  or single-record updates.
