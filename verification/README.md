# Marketplace back end: stock, money and message protocols

A Dafny model of the marketplace API's hard parts, with proofs of what they keep: the stock counters
and reservation rows under concurrent checkouts, sweeps and cancels; event ingestion over an
at-least-once queue; promotion windows and bundle pricing; the commission and marketing ledgers; store
approval; the category graph; and the live vehicle map.

Database tables and Redis keys are maps from id to record. Code that updates rows in place is a class
whose methods are proved against functions of the old state. Code whose point is concurrency is also a
state machine: `stock_protocol.dfy` runs every stock path statement by statement in interleaved
transactions, where a transaction's uncommitted rows are an overlay that locks them;
`ingestion.dfy`, `idempotency.dfy`, `store_approval.dfy` and `live_store.dfy` do the same for their
protocols. Every theorem about runs holds for all runs of any length with any number of parties.

Clocks, generated ids, gateway answers and what an outside service does with a call are parameters,
quantified over. Money is `int` centavos in the ledgers and `real` in pricing, where rounding is not
the point.

Run `dafny verify dfyconfig.toml`.

## How the files fit together

| files | what they hold |
|---|---|
| `common`, `sums`, `text` | optional values and results, arithmetic, sums over finite maps, trimming |
| `stock`, `database`, `order_state` | rows, single-statement effects, the status matrix |
| `inventory_stock_repository`, `inventory_reservation_repository`, `inventory_repository`, `order_service` | the stock code one call at a time, in place |
| `stock_protocol`, `stock_conservation`, `order_lifecycle`, `order_closing`, `order_moves`, `hold_endings`, `sales`, `no_oversell`, `protocol_alone` | the same paths interleaved, what every run keeps, and that alone they are the serial code |
| `sale_races`, `cancel_race`, `gateway_race` | three whole runs that break a promise, statement by statement |
| `domain_events`, `batch_consumer`, `publisher`, `analytics`, `ingestion`, `idempotency` | the event bus |
| `ad_window`, `merchant_ads`, `pricing`, `cart` | promotions and prices |
| `commission`, `wallet` | ledgers |
| `store_approval` | the approval machine |
| `category_graph`, `category_service` | closures, forest, suggestions |
| `live_map`, `live_store`, `mobility` | rooms, expiry claims, the service over both |

## What does not hold of the code

Each entry names the lemma or contract that says when the code does meet the property, and the runs
that show it failing.

- A repeated reference key breaks the wallet: the columns are written before the row and outside a
  transaction, so the money is added and the row refused. After any requests the columns are the
  totals of the rows exactly when no positive deposit repeated a key (`Wallet.BooksAfter`).
- An ad can stand over a positive budget, exactly where its seller set the budget below what it had
  already spent (`Wallet.OverspentOnlyByRebudget`).
- An order's goods can leave the shelf twice. In every run a second completion commits only when a
  hold of the order is already gone, and, while nothing but its completions ends its holds, a
  completion repeats an earlier one exactly when one is gone (`Sales.SecondSaleFindsHoldsGone`,
  `Sales.SellsAgainExactly`). Completing a COMPLETED order does it serially, and only that does
  (`OrderService.CompletingTwiceSellsTwice`, `OrderState.CompletedAgainExactly`); two completions
  that validate before either commits do it as a race (`SaleRaces.RacingCompletionsSellTwice`).
- A status can move outside the matrix, in two ways. A gateway failure writes FAILED without looking:
  illegal exactly when the order is neither PENDING nor FAILED by then. Every other move looks first,
  most of them in a separate statement: illegal exactly when, after its check, another commit leaves
  a status the matrix does not let it write over (`OrderMoves.IllegalMovesExactly`, over every run).
  A gateway failure can make a cancelled order FAILED (`GatewayRace.CancelledOrderFails`), a
  seller's update can make one ready for pickup (`CancelRace.CancelledOrderIsReadied`). Payment
  success and the stale-order sweep look and write in one statement and never do this
  (`OrderMoves.ConditionalMovesAreLegal`).
- A manual adjustment leaves more reserved than on hand exactly when its target is below a positive
  reserved count (`InventoryRepository.AdjustOversells`).
- When stock caps a bundle's bonus, checkout can charge for more than was asked. For any set of live
  ads it does not exactly when nothing was added, the goods are free, or some ad's own terms cover
  the added units (`Pricing.CappedBoundExactly`); `Pricing.CappedBonusCostsMore` shows it failing.
- A worker that outlives its claim can be joined by a second one, and can then free that one's claim
  (`Idempotency.OverstayLetsAnotherIn`, `Idempotency.OverstayFreesAnothersClaim`). Over every run in
  which Redis answers, no two workers are ever busy at the key exactly when nobody asks for it while
  a holder overstays (`Idempotency.ExclusionExactly`).
- Re-approval can set a toggle the seller has since changed: the compare-and-set compares the status
  alone. `StoreApproval.ReapprovalRestoresExactly` says when the toggle comes back, over every run,
  and `StoreApproval.UnmovedReadsRestore` that no transition between either read and its write, with
  no toggle while the first waits, is enough. Two runs approve a closed store open: one parks a
  toggle read before it changed (`StoreApproval.StaleToggleIsRestored`), the other parks the current
  toggle and is approved by a decision made one review earlier
  (`StoreApproval.StaleApprovalOpensClosed`).
- A ping that arrives after a point expired and before a sweep can leave a stale marker, exactly for
  those who watch the cell left and not the new one (`Mobility.Service.RecordLocation`,
  `LiveMap.MoveAgrees`).
- A sweep announces its removals after all its claims. A vehicle heard from in between loses its
  live marker exactly for those who watch both the cell it was claimed in and the one it is in now
  (`LiveMap.LateRemovalAgrees`).
- The stale-order sweep counts every order it read. The count is the number it cancelled exactly when
  the list has no order twice and each is still PENDING (`OrderService.SweepCountsExactly`).

## Model

| member | source | states |
|---|---|---|
| StockConservation.LatestCounter | src/modules/inventory/inventoryStock.repository.ts:36-157 | in every reachable world of any interleaving, each counter as last written equals its RESERVED rows plus everything claimed but not credited plus every increment whose row is not inserted yet |
| StockConservation.CommittedCounter | src/modules/inventory/inventoryStock.repository.ts:36-157 | in every committed state the counter equals its RESERVED rows exactly, so it is never negative |
| StockConservation.RunsConserve | src/modules/inventory/inventoryReservation.repository.ts:79-218 | the invariant behind both: locks are disjoint and every transaction accounts for its own claims and increments |
| StockConservation.StmtConserves | src/modules/inventory/inventoryStock.repository.ts:62-96 | each single statement turns what is held into what is in flight, or back, without loss |
| StockConservation.StatementOrder | src/modules/orders/order.service.ts:88-356 | in every operation a claim is followed at once by its credit, and an increment by its row |
| OrderLifecycle.HoldEndsOnce | src/modules/inventory/inventoryStock.repository.ts:62-96 | no two transactions of a run end the same hold: each hold is given back or sold at most once |
| HoldEndings.HoldsEndAs | src/modules/inventory/inventoryStock.repository.ts:62-96 | in every run, a hold that a commit ends is CONSUMED exactly by a completion or a consumption, EXPIRED exactly by a sweep, and RELEASED exactly by a release, a cancellation or a failed payment or gateway |
| HoldEndings.ReserveDecides | src/modules/inventory/inventoryStock.repository.ts:36-50 | interleaved too, reserving succeeds exactly when on hand less reserved covers the line, and raises that counter alone |
| HoldEndings.ShelvesMove | src/modules/orders/order.service.ts:528-545 | a sale's statement takes exactly its units off the shelf of a row that is there |
| HoldEndings.AdjustmentSets | src/modules/inventory/inventory.repository.ts:40-58 | an adjustment's sets the shelf and keeps the counter |
| HoldEndings.StatusesDecide | src/modules/orders/order.state.ts:20-37 | what each statement that reads a status lets through, and what it writes |
| OrderLifecycle.RowsOnlyEvolve | src/modules/inventory/inventoryReservation.repository.ts:79-218 | a reservation row keeps its item and quantity for ever, and once ended never becomes RESERVED again |
| OrderLifecycle.RunsSound | src/modules/inventory/inventoryReservation.repository.ts:79-218 | the invariant behind both: what every transaction has written only moves committed rows forward |
| OrderClosing.ClosedOrdersHoldNothing | src/modules/orders/order.service.ts:387-397 | in every reachable state an order that is COMPLETED, CANCELLED or FAILED has no RESERVED hold that its checkout created |
| OrderClosing.CheckoutAllOrNothing | src/modules/orders/order.service.ts:88-356 | a checkout that commits has one linked RESERVED hold for each line in order; one that aborts leaves the tables as they were |
| OrderClosing.CheckoutCommits | src/modules/orders/order.service.ts:340-356 | a committed checkout puts in place an order whose holds match its lines |
| OrderClosing.RunsClose | src/modules/orders/order.service.ts:843-891 | the invariant behind both, over checkout, payment, accept, ready, complete, cancel, gateway failure and both sweepers |
| NoOversell.NeverOversold | src/modules/inventory/inventoryStock.repository.ts:36-50 | with holds intact at completion and no adjustment below the reserved amount, reserved never exceeds on hand in any committed state |
| Sales.ConsumingKeepsAvailable | src/modules/inventory/inventoryReservation.repository.ts:108-118 | in every run, a committed consumption of a hold leaves on-hand minus reserved unchanged on every row |
| Sales.SaleKeepsAvailable | src/modules/orders/order.service.ts:528-572 | in every run, a completion committed on intact holds leaves on-hand minus reserved no lower, and unchanged when it ends only those holds |
| Sales.CompletionExactly | src/modules/orders/order.service.ts:528-572 | in every run, a committed completion adds to each row's availability what its claim freed and takes what its order's lines say, so it oversells a row exactly when its lines take more than was available and freed |
| Sales.SecondSaleFindsHoldsGone | src/modules/orders/order.service.ts:496-572 | whoever races, a second completion of an order with a line commits only when some hold of the order is already gone: sold at most once while the holds stand |
| Sales.SellsAgainExactly | src/modules/orders/order.service.ts:496-572 | where only its completions end its holds, a completion about to commit repeats an earlier one exactly when a hold is gone |
| SaleRaces.RacingCompletionsSellTwice | src/modules/orders/order.service.ts:486-572 | a whole run from empty tables in which two validated completions take one order's goods twice |
| OrderMoves.IllegalMovesExactly | src/modules/orders/order.service.ts:380-1060 | in every run, a commit moves a placed order outside the matrix exactly when it is a gateway failure that finds it neither PENDING nor FAILED, or a guarded move after whose check another transaction committed a status the matrix does not let it write over |
| OrderMoves.SourcesAreAllowed | src/modules/orders/order.state.ts:7-26 | the statuses an order may come from, spelled out for each status |
| GatewayRace.CancelledOrderFails | src/modules/orders/order.service.ts:380-397 | a whole run in which the buyer cancels while the gateway is asked, and its failure then writes FAILED over CANCELLED |
| OrderMoves.ConditionalMovesAreLegal | src/modules/orders/order.service.ts:1117-1124 | in every run, payment success and the stale-order sweep move an order only out of PENDING |
| CancelRace.CancelledOrderIsReadied | src/modules/orders/order.service.ts:1038-1060 | a whole run in which the seller's update, validated before the buyer's cancellation commits, makes the cancelled order ready for pickup with nothing held |
| ProtocolAlone.ClaimAndCreditsRelease | src/modules/inventory/inventoryStock.repository.ts:130-157 | an interleaved transaction's claim and its credits, in whatever order they come, amount to the release done in place |
| ProtocolAlone.CreditsSoFar | src/modules/inventory/inventoryStock.repository.ts:146-154 | part way through, exactly the credited counters are lowered, each once |
| ProtocolAlone.CancelAlone | src/modules/orders/order.service.ts:843-891 | a cancellation's statements with no one in between leave exactly what the serial cancellation leaves |
| Stock.FlipTakesClaimed | src/modules/inventory/inventoryStock.repository.ts:62-80 | flipping rows takes exactly their quantity out of what is held |
| Stock.ReleaseOrderKeepsBalance | src/modules/inventory/inventoryStock.repository.ts:130-157 | releasing an order keeps every counter equal to its rows and leaves the order nothing held |
| Stock.ReleaseOrderTwice | src/modules/inventory/inventoryStock.repository.ts:120-129 | a second release of the same order changes nothing, whatever status it asks for |
| Stock.ReleaseOrderIs | src/modules/inventory/inventoryStock.repository.ts:62-157 | a release ends exactly the rows that are RESERVED for the order and touches no shelf, other row or order |
| Stock.ReleaseOneKeepsBalance | src/modules/inventory/inventoryStock.repository.ts:104-118 | releasing one row keeps every counter equal to its rows, and again changes nothing |
| InventoryStockRepository.TryReserve | src/modules/inventory/inventoryStock.repository.ts:36-50 | reserves if and only if the row exists and has enough available, and changes that counter alone |
| InventoryStockRepository.ClaimOrderReservations | src/modules/inventory/inventoryStock.repository.ts:62-80 | flips exactly the order's RESERVED rows and returns exactly those, in any order |
| InventoryStockRepository.ClaimReservation | src/modules/inventory/inventoryStock.repository.ts:83-96 | claims one row if and only if it is still RESERVED |
| InventoryStockRepository.ReleaseReservation | src/modules/inventory/inventoryStock.repository.ts:104-118 | gives back the row's quantity once; 0 when the hold had ended |
| InventoryStockRepository.FoldByInventory | src/modules/inventory/inventoryStock.repository.ts:140-146 | the fold holds for each inventory row exactly what the claimed rows hold of it |
| InventoryStockRepository.Credit | src/modules/inventory/inventoryStock.repository.ts:140-154 | the folded decrements leave the stock that one decrement per claimed row would leave |
| InventoryStockRepository.FoldedReleaseIsRowByRow | src/modules/inventory/inventoryStock.repository.ts:130-157 | the fast release refines the simple one, whatever order the rows come in |
| InventoryStockRepository.ReleaseOrderReservations | src/modules/inventory/inventoryStock.repository.ts:130-157 | releases exactly the outstanding rows, returns their total, and returns 0 exactly when there were none |
| InventoryStockRepository.RowByRowDropsQuantity | src/modules/inventory/inventoryStock.repository.ts:130-157 | the simple form lowers each counter by what the claimed rows hold of it |
| InventoryReservationRepository.CreateReservation | src/modules/inventory/inventoryReservation.repository.ts:9-55 | inserts a row and raises its counter, or changes nothing and says why; counters stay equal to rows |
| InventoryReservationRepository.ConsumeReservation | src/modules/inventory/inventoryReservation.repository.ts:79-147 | takes the goods and ends the hold together, so availability is unchanged; counters stay equal to rows |
| InventoryReservationRepository.ReleaseHold | src/modules/inventory/inventoryReservation.repository.ts:149-173 | releases a hold once; one that ended is left alone |
| InventoryReservationRepository.ExpireRows | src/modules/inventory/inventoryReservation.repository.ts:200-218 | one transaction per stale row adds up to releasing the set, and counts each |
| InventoryReservationRepository.ExpireStaleReservations | src/modules/inventory/inventoryReservation.repository.ts:175-218 | a row goes from RESERVED to EXPIRED exactly when its expiry is not after now and it has no order or one that is neither PROCESSING nor READY_FOR_PICKUP; every other row is unchanged, and the count is theirs |
| InventoryReservationRepository.InOrderIsAtOnce | src/modules/inventory/inventoryReservation.repository.ts:200-218 | releasing rows one after the other, in any order, equals releasing them at once |
| InventoryReservationRepository.SweepSparesPaidOrders | src/modules/inventory/inventoryReservation.repository.ts:175-200 | the sweep touches no hold of a PROCESSING or READY_FOR_PICKUP order, such an order whose holds all stand still has them, and nothing is left to sweep |
| InventoryReservationRepository.SweepKeepsBalance | src/modules/inventory/inventoryReservation.repository.ts:175-218 | the sweep keeps every counter equal to its rows |
| InventoryRepository.Restock | src/modules/inventory/inventory.repository.ts:5-12 | adds to the shelf of an existing row; counts 0 otherwise |
| InventoryRepository.AdjustWithin | src/modules/inventory/inventory.repository.ts:30-70 | sets the floor of the target, never below 0, keeps the holds, and records a movement exactly when the shelf changes |
| InventoryRepository.AdjustOversells | src/modules/inventory/inventory.repository.ts:43-50 | an adjustment leaves more reserved than on hand exactly when its target is below a positive reserved count |
| OrderState.TerminalIsFinal | src/modules/orders/order.state.ts:7-37 | validated steps from a terminal status never leave it |
| OrderState.CompletedAgainExactly | src/modules/orders/order.state.ts:20-37 | of validated steps, a completion repeats an earlier one exactly when the order it finds is already COMPLETED |
| OrderState.CompletedWasPaidAndReady | src/modules/orders/order.state.ts:7-37 | validated steps from PENDING reach COMPLETED only through PROCESSING and READY_FOR_PICKUP |
| OrderService.HoldAllIff | src/modules/orders/order.service.ts:121-195 | all lines can be held one after the other exactly when each inventory row covers all its lines together |
| OrderService.HoldAllKeepsBalance | src/modules/orders/order.service.ts:121-195 | holding the lines keeps every counter equal to its rows |
| OrderService.HoldAllRows | src/modules/orders/order.service.ts:171-195 | each line is held by its own row with its own quantity |
| OrderService.PlacedIs | src/modules/orders/order.service.ts:171-356 | a placed checkout is one PENDING order, each line held by its own RESERVED row linked to it, counters raised by the lines, everything else as it was |
| OrderService.CreateOrder | src/modules/orders/order.service.ts:88-356 | succeeds exactly when the store and every product may sell, every row covers its lines and nothing later refuses; otherwise the error explains the first refusal and nothing is changed |
| OrderService.StockRefusalIs | src/modules/orders/order.service.ts:171-195 | a line is refused for its stock row when there is none, or when on hand less reserved does not cover it, and then with that amount |
| OrderService.FailCheckout | src/modules/orders/order.service.ts:380-400 | fails the order and gives its holds back |
| OrderService.FailedCheckoutUndone | src/modules/orders/order.service.ts:380-400 | a checkout whose gateway session fails leaves every counter and every other row as it found them |
| OrderService.CompleteOrderInternal | src/modules/orders/order.service.ts:486-598 | each refusal exactly when it applies, in the order of its checks, and nothing changed: unknown order, another store's, status neither READY_FOR_PICKUP nor COMPLETED, no payment, a gateway payment not settled, a missing stock row; otherwise the goods leave the shelf, the order's RESERVED rows become CONSUMED, cash is settled and the alerts are the crossings |
| OrderService.TakeOffShelf | src/modules/orders/order.service.ts:528-563 | takes every line off its shelf or, when a row is missing, nothing |
| OrderService.AlertedOnCrossing | src/modules/orders/order.service.ts:550-556 | an order raises one low-stock alert for each row it takes across the threshold, however many lines share it, and none otherwise |
| OrderService.CompletionMovesAvailable | src/modules/orders/order.service.ts:528-572 | serially, completion leaves availability unchanged exactly when what it claims equals what its lines take |
| OrderService.ClosingIs | src/modules/orders/order.service.ts:380-891 | completing, cancelling and a failed gateway set COMPLETED, CANCELLED and FAILED, end exactly the order's RESERVED rows as CONSUMED, RELEASED and RELEASED, and only the first takes goods off the shelf |
| OrderService.CompletingTwiceSellsTwice | src/modules/orders/order.state.ts:20-26 | an unchanged status passes, so completing twice takes exactly twice the order's lines off every row |
| OrderService.CancelOrder | src/modules/orders/order.service.ts:843-891 | cancels exactly from a status that may be cancelled, releasing the holds |
| OrderService.CancellingSettles | src/modules/orders/order.service.ts:843-891 | a cancelled order holds nothing, counters stay right, and cancelling again changes nothing |
| OrderService.ExpireStalePendingOrders | src/modules/orders/order.service.ts:1111-1141 | sweeps the orders read one by one and counts each, moved or not |
| OrderService.SweepCountsExactly | src/modules/orders/order.service.ts:1111-1141 | the count is the number of orders the sweep cancels exactly when no order is listed twice and every listed one is still PENDING |
| OrderService.SweepCancelsPending | src/modules/orders/order.service.ts:1113-1136 | cancels exactly the listed orders still PENDING and keeps counters right |
| OrderService.SweepEndsTheirHolds | src/modules/orders/order.service.ts:1115-1124 | ends exactly the RESERVED holds of the orders it cancels, and touches no other row |
| DomainEvents.PublishedIsRead | src/infrastructure/event-bus/consumer.ts:184-206 | a consumer reads back exactly the published envelope, delivered raw or wrapped once, and handles it exactly when its type is listed |
| DomainEvents.WrappedTwiceIsDropped | src/infrastructure/event-bus/consumer.ts:184-200 | only one wrapping is undone |
| BatchConsumer.BatchConsumer.Run | src/infrastructure/event-bus/batch-consumer.ts:143-211 | over any script of turns: every accepted message is in exactly one batch or the buffer, in arrival order; the buffer is empty once the loop exits |
| BatchConsumer.BatchConsumer.Step | src/infrastructure/event-bus/batch-consumer.ts:143-210 | flushes exactly when the buffer is full, or holds something and its deadline has come or the loop is stopping; asks for min(10, room) messages, polls no longer than the deadline, and exits exactly when stopped |
| BatchConsumer.BatchConsumer.Flush | src/infrastructure/event-bus/batch-consumer.ts:101-140 | hands the whole buffer over once with payloads and metadata aligned, then deletes or retries it whole in pieces of at most ten |
| BatchConsumer.BatchConsumer.Take | src/infrastructure/event-bus/batch-consumer.ts:185-209 | buffers the handled messages in order, drops the rest, and starts the deadline with the first |
| BatchConsumer.BatchesSettled | src/infrastructure/event-bus/batch-consumer.ts:108-138 | every message of every batch is deleted or made visible again exactly once |
| BatchConsumer.PollEndsAtDeadline | src/infrastructure/event-bus/batch-consumer.ts:152-156 | an empty buffer polls for twenty seconds; otherwise the poll ends at the deadline, less than a second late, within twenty |
| BatchConsumer.AsksPolitely | src/infrastructure/event-bus/batch-consumer.ts:160-168 | a receive after any due flush asks for one to ten messages |
| BatchConsumer.InChunks | src/infrastructure/event-bus/batch-consumer.ts:240-246 | the pieces cover the items once, in order, none empty or over ten, and no more pieces than needed |
| Publisher.PublishMany | src/infrastructure/event-bus/publisher.ts:79-123 | result k is true exactly when the topic said it took payload k, and the topic holds exactly the envelopes it took |
| Publisher.PublishChunk | src/infrastructure/event-bus/publisher.ts:93-109 | one call of at most ten entries marks exactly the positions its answer names |
| Publisher.ChunkTaken | src/infrastructure/event-bus/publisher.ts:91-100 | the chunks' entries are the batch's payloads at their own positions |
| Publisher.ChunkIds | src/infrastructure/event-bus/publisher.ts:98-104 | an answer names positions of its own chunk only |
| Analytics.AnalyticsRepository.CreateMany | src/modules/analytics/analytics.repository.ts:20-66 | adds, in order, exactly the events without an id or with one neither stored nor given before, each under its own id; every id given is stored afterwards; when none is new it returns 0 and adds nothing |
| Analytics.InsertKeepsUnique | src/modules/analytics/analytics.repository.ts:55-66 | at most one row an event id, also within one insert |
| Analytics.InsertCovers | src/modules/analytics/analytics.repository.ts:55-66 | after the insert every id given is stored |
| Analytics.RedeliveredBatchWritesNothing | src/modules/analytics/analytics.repository.ts:55-66 | a batch delivered twice is written once |
| Analytics.Record | src/modules/analytics/analytics.service.ts:76-98 | writes directly exactly the payloads not reported as published, and is queued exactly when there are none |
| Analytics.UnpublishedAre | src/modules/analytics/analytics.service.ts:80-92 | what is written directly are exactly the payloads not flagged as published, in order |
| Analytics.NothingLost | src/modules/analytics/analytics.service.ts:76-98 | every payload was taken by the topic or is written directly |
| Ingestion.NoEventLost | src/infrastructure/event-bus/batch-consumer.ts:101-140 | under any redelivery, crash, failed write, failed delete or parking, a published event is on the queue, in the dead letters, or stored as published |
| Ingestion.StoredAtMostOnce | src/consumers/analytics.consumer.ts:28-39 | an event is stored at most once in every reachable state |
| Ingestion.DeletedAfterStored | src/infrastructure/event-bus/batch-consumer.ts:122-138 | a message of a handled type is deleted only after its row exists |
| Ingestion.BatchRowsAreCreateManys | src/consumers/analytics.consumer.ts:28-39 | what a worker writes for a batch is what the repository is asked to write for the batch's payloads and ids |
| Idempotency.RunOnce | src/infrastructure/event-bus/idempotency.ts:33-80 | alone at the key: runs `fn` exactly when the key is free or Redis cannot be asked, and leaves the key done, free or claimed accordingly |
| Idempotency.ExclusionExactly | src/infrastructure/event-bus/idempotency.ts:45-72 | over every run in which Redis answers, up to any point no two workers were inside `fn`, or between it and its mark, exactly when nobody asked for the key while a holder's claim had run out |
| Idempotency.Exclusion | src/infrastructure/event-bus/idempotency.ts:45-72 | without such a late claim, no two workers are at the key |
| Idempotency.OnlyOwnClaim | src/infrastructure/event-bus/idempotency.ts:66-78 | without a late claim a worker releases or marks only its own entry, which is still in force exactly unless it overstayed |
| Idempotency.DoneLasts | src/infrastructure/event-bus/idempotency.ts:56-63 | a done mark stays while it lasts, and nobody is inside `fn` |
| Idempotency.DoneOnce | src/infrastructure/event-bus/idempotency.ts:71-79 | after marking done nobody runs `fn` for seven days |
| Idempotency.Claimable | src/infrastructure/event-bus/idempotency.ts:66-69 | a failed run frees the key at once, any other ending within the claim time |
| Idempotency.OverstayLetsAnotherIn | src/infrastructure/event-bus/idempotency.ts:45-49 | waiting lets a second worker in exactly when the first one's claim has run out |
| Idempotency.OverstayFreesAnothersClaim | src/infrastructure/event-bus/idempotency.ts:66-69 | a run that shows an overstaying worker freeing another's claim for a third |
| AdWindow.LiveIsTheFilter | src/modules/merchantAds/adWindow.ts:51-74 | the derived LIVE, the row filter, and "active with the instant in the half-open window" are the same |
| AdWindow.OverlapIsSharing | src/modules/merchantAds/adWindow.ts:80-92 | two windows share an instant exactly when they overlap and neither is empty |
| AdWindow.FilterIsTheTest | src/modules/merchantAds/adWindow.ts:80-108 | the overlap row filter selects exactly the windows the arithmetic test accepts |
| AdWindow.NonEmptyCovers | src/modules/merchantAds/adWindow.ts:1-20 | a window covers some instant exactly when its start is before its end |
| AdWindow.StatesAdvance | src/modules/merchantAds/adWindow.ts:51-56 | time moves an ad only from scheduled to running to ended |
| AdWindow.TouchingIsNotOverlap | src/modules/merchantAds/adWindow.ts:4-10 | back-to-back windows do not overlap |
| MerchantAds.ExclusiveAfter | src/modules/merchantAds/merchantAds.service.ts:341-542 | after any sequence of create, update, pause, resume, delete and sweep, no two active promotions of one store with a discount type, whatever it is, have an instant inside both windows and a product or variant that links of both cover |
| MerchantAds.Serve | src/modules/merchantAds/merchantAds.service.ts:341-542 | the store's own methods, served in order, leave exactly the ads that result speaks of |
| MerchantAds.AtMostOneApplies | src/modules/merchantAds/merchantAds.service.ts:177-224 | stored ads without a clash never discount the same stock at the same instant |
| MerchantAds.ClashMeets | src/modules/merchantAds/merchantAds.service.ts:177-224 | and every refused clash of non-empty active ads would have discounted the same stock at some instant |
| MerchantAds.AssertNoWindowConflict | src/modules/merchantAds/merchantAds.service.ts:177-224 | finds no conflict exactly when no other ad clashes, and then none could ever price the same stock together with it; a conflict found is with another discounting promotion of the store that, unless a window is empty, does |
| MerchantAds.ClashIsPreselected | src/modules/merchantAds/merchantAds.repository.ts:48-71 | the query's coarse filter loses no clash |
| MerchantAds.CommonCoverIntersects | src/modules/merchantAds/merchantAds.service.ts:58-66 | links that cover one product or variant in common intersect |
| MerchantAds.IntersectingCoverCommon | src/modules/merchantAds/merchantAds.service.ts:58-66 | and scopes that intersect cover one in common |
| MerchantAds.AdStore.CreateAd | src/modules/merchantAds/merchantAds.service.ts:341-383 | refuses a start more than two minutes past, and any ad that would price stock together with a stored one; an ad that is no promotion or has no discount type is never refused for that; otherwise stores it |
| MerchantAds.AdStore.UpdateAd | src/modules/merchantAds/merchantAds.service.ts:412-474 | refuses in the order of its checks; what is stored is no wider than what was checked |
| MerchantAds.UpdateRefusalIs | src/modules/merchantAds/merchantAds.service.ts:412-445 | an update is refused for a new start once the ad has begun, a new start over two minutes past, or an end not after the start, in that order |
| MerchantAds.UpdatedIs | src/modules/merchantAds/merchantAds.service.ts:463-470 | stores each column given with a value and keeps the rest |
| MerchantAds.AppliesIsPricing | src/modules/merchantAds/adWindow.ts:51-74 | an ad discounts a product or variant at an instant exactly when it is an active promotion with a discount type, the instant is inside its window, and a link covers it |
| MerchantAds.AdStore.SetActive | src/modules/merchantAds/merchantAds.service.ts:385-410 | pauses or resumes, except resuming an ended ad |
| MerchantAds.AdStore.DeleteAd | src/modules/merchantAds/merchantAds.service.ts:476-498 | deletes exactly an ad no order refers to |
| MerchantAds.AdStore.ProcessWindowTransitions | src/modules/merchantAds/merchantAds.service.ts:515-544 | acts on exactly the candidates whose recorded state is behind, and records it |
| MerchantAds.SweepAgainDoesNothing | src/modules/merchantAds/merchantAds.service.ts:509-544 | a second sweep of the same candidates publishes nothing |
| Pricing.ComputeItemDiscount | src/modules/orders/pricing.util.ts:78-88 | the largest discount of all ads, from the first that gives it and under its id, between nothing and the item total; no ad is named when nothing is taken off |
| Pricing.OffWithinTotal | src/modules/orders/pricing.util.ts:14-48 | no ad takes off more than the items cost |
| Pricing.PercentageIs | src/modules/orders/pricing.util.ts:20-26 | a percentage takes that many hundredths of the total and names its ad |
| Pricing.AmountIs | src/modules/orders/pricing.util.ts:28-34 | an amount takes that much off each unit, no more than the total, and names its ad |
| Pricing.BundleIs | src/modules/orders/pricing.util.ts:36-48 | a bundle takes the price of the free units of its whole bundles and names its ad only if there is one; anything else takes nothing |
| Pricing.ApplyBogoBonus | src/modules/orders/pricing.util.ts:123-131 | stores the paid quantity plus the best bonus, as far as stock goes |
| Pricing.BundlesSurvive | src/modules/orders/pricing.util.ts:34-44 | paid plus free units contain as many whole bundles as the paid units bought |
| Pricing.BonusIsFree | src/modules/cart/cart.service.ts:78-106 | for every set of live ads, checkout on the stored quantity charges at most the units asked for |
| Pricing.BogoRoundTrip | src/modules/cart/cart.service.ts:78-106 | with one bundle ad it charges exactly the units asked for |
| Pricing.CappedBoundExactly | src/modules/orders/pricing.util.ts:14-131 | for any set of live ads and any cap, checkout on the stored quantity charges at most the units asked for exactly when nothing was added, the price is zero, or some percentage, amount or bundle covers the added units by its own terms |
| Pricing.CoversExactly | src/modules/orders/pricing.util.ts:14-48 | an ad takes off at least the added units' price exactly when its own terms cover them |
| Pricing.CappedBonus | src/modules/orders/pricing.util.ts:34-44 | the arithmetic of one bundle ad: the bound holds exactly when the leftover units fit the paid units not used by whole bundles |
| Pricing.CappedBonusCostsMore | src/modules/orders/pricing.util.ts:131-131 | a concrete capped purchase charged for more than was asked |
| Cart.Cart.AddToCart | src/modules/cart/cart.service.ts:29-111 | one line a product, one store a cart; the line holds paid plus bonus as far as stock goes and no other line changes; each error says what is wrong and that nothing checked before it is |
| Cart.Cart.SetLine | src/modules/cart/cart.service.ts:95-106 | changes one line and keeps its price, or appends one |
| Cart.Cart.RemoveItems | src/modules/cart/cart.service.ts:113-127 | keeps exactly the lines not removed, in their order, and forgets the store with the last |
| Cart.PreviewTotals | src/modules/cart/cart.service.ts:158-205 | adds each sold line's cost and best discount, the discount within the subtotal |
| Cart.RemovedOthers | src/modules/cart/cart.service.ts:32-43 | removing a line leaves every other product's line as it was |
| Commission.Ledger.CreditOrderCommission | src/modules/agent/agent-commission.service.ts:306-391 | credits an order at most once, only if it earns, to pending and lifetime together; every balance still equals its rows |
| Commission.Ledger.ReverseOrderCommission | src/modules/agent/agent-commission.service.ts:396-465 | reverses an order's commission at most once |
| Commission.Ledger.ReverseSale | src/modules/agent/agent-commission.service.ts:414-460 | takes the amount from the balance it is in, cancels the commission and writes the reversal |
| Commission.Ledger.MatureOne | src/modules/agent/agent-commission.service.ts:484-507 | one row's transaction moves it and its amount from pending to available |
| Commission.Ledger.MaturePendingCommissions | src/modules/agent/agent-commission.service.ts:471-519 | a row goes from PENDING to MATURED exactly when its hold has an end not after now; every other row is unchanged, the amounts move from pending to available, and the count is theirs |
| Commission.Ledger.RequestPayout | src/modules/agent/agent-commission.service.ts:208-260 | pays out exactly between the minimum and the available balance |
| Commission.Ledger.ApprovePayout | src/modules/agent/agent-commission.service.ts:265-299 | completes exactly an open payout, once, into lifetime paid |
| Commission.EarningsConserved | src/modules/agent/agent-commission.service.ts:208-519 | after any sequence of credits, reversals, row maturations, payout requests and approvals from the empty ledger, an agent's unreversed commissions equal pending rows plus available plus open payouts plus paid ones, and the other columns are those totals |
| Commission.MaturedAfterItsHold | src/modules/agent/agent-commission.service.ts:351-519 | in every run, a commission credited at an instant for some days is MATURED only after a maturation that many days later or more |
| Commission.SweepEndsTheHold | src/modules/agent/agent-commission.service.ts:351-519 | and a sweep from then on leaves it no longer PENDING |
| Commission.NextKeepsSound | src/modules/agent/agent-commission.service.ts:208-519 | each call keeps one commission and one reversal an order, cancelled exactly when reversed, and every balance equal to its rows |
| Commission.NearestCentavo | src/modules/agent/agent-commission.service.ts:347-350 | the amount is within half a centavo of the rate applied to what the goods cost after discount, never negative |
| Commission.MatureTwice | src/modules/agent/agent-commission.service.ts:471-519 | repeating the sweep moves nothing |
| Commission.TxnKeepsAgreement | src/modules/agent/agent-commission.service.ts:348-380 | a row written with the matching move of its account keeps every balance equal to its rows |
| Commission.ReverseKeepsSound | src/modules/agent/agent-commission.service.ts:396-465 | one reversal an order, exactly for a cancelled commission, with every balance equal to its rows |
| Wallet.BooksAfter | src/modules/marketingWallet/marketingWallet.repository.ts:43-106 | after any deposits, new ads, budget changes, pauses and events the balance is deposits less spend, never negative, and each ad's spend is what the rows charge to it; columns and rows agree exactly when no positive deposit repeated a reference key |
| Wallet.OverspentOnlyByRebudget | src/modules/merchantAds/merchantAds.service.ts:580-611 | after any requests an ad is over a positive budget exactly when some request set that budget below what it had spent, with nothing spent since |
| Wallet.KeysInUse | src/modules/marketingWallet/marketingWallet.repository.ts:63-72 | a reference key is in use exactly when another wallet used it or an earlier positive deposit brought it |
| Wallet.Serve | src/modules/merchantAds/merchantAds.service.ts:546-620 | the books' own methods, served in order, leave exactly the state those results speak of |
| Wallet.Books.DepositFunds | src/modules/marketingWallet/marketingWallet.repository.ts:43-75 | adds the money, and the row unless its key is in use; agreement is lost exactly by a positive deposit whose key is in use |
| Wallet.Books.DeductSpend | src/modules/marketingWallet/marketingWallet.repository.ts:77-106 | spends exactly when the balance covers it, so the balance is never negative |
| Wallet.Books.AddAd | src/modules/merchantAds/merchantAds.service.ts:341-383 | a new ad starts with nothing spent, as its rows say |
| Wallet.Books.TrackEvent | src/modules/merchantAds/merchantAds.service.ts:546-620 | charges an event within budget and wallet, switches the ad off when it cannot or when the budget is used up, and counts it; each ad's spend stays what its rows say |
| Wallet.Books.ChargeEvent | src/modules/merchantAds/merchantAds.service.ts:580-611 | what is charged, and when the ad is switched off |
| Wallet.ChargeIs | src/modules/merchantAds/merchantAds.service.ts:570-611 | fifty centavos a click and five an impression, charged when budget and balance allow; a priced event not charged, or one that uses the budget up, switches the ad off |
| Wallet.TrackedWithinBudget | src/modules/merchantAds/merchantAds.service.ts:589-610 | no event takes an ad over a positive budget |
| Wallet.BalanceAfterIsPrefix | src/modules/marketingWallet/marketingWallet.repository.ts:63-104 | every recorded balance is the running total of the rows up to it, never negative |
| StoreApproval.RunsStayLegal | src/modules/adminApprovals/storeApproval.service.ts:104-190 | however reads and compare-and-set writes interleave, the audit log is a legal path to the current status, and claim, rejection, note and document columns track it |
| StoreApproval.PathLinks | src/modules/adminApprovals/storeApproval.service.ts:46-52 | such a log starts at PENDING, each entry starts where the one before ended, and each is an allowed move or a takeover |
| StoreApproval.OneDecisionWins | src/modules/adminApprovals/storeApproval.service.ts:134-149 | of two decisions read from one status only the first to write lands |
| StoreApproval.ReapprovalRestores | src/modules/adminApprovals/storeApproval.service.ts:211-245 | with atomic transitions, a store reviewed again and approved is as open as it was, however often it was queued in between |
| StoreApproval.ReapprovalRestoresExactly | src/modules/adminApprovals/storeApproval.service.ts:114-246 | in every run, an approval that ends a re-review restores the parked toggle exactly when what it read opens the store as the stored one would, and leaves the store as open as when it was taken back exactly when the deciding read agrees with that |
| StoreApproval.UnmovedReadsRestore | src/modules/adminApprovals/storeApproval.service.ts:134-149 | no transition between either call's read and its write, and no toggle while the first waits, restores it |
| StoreApproval.CarriesWhatItRead | src/modules/adminApprovals/storeApproval.service.ts:108-131 | a waiting decision is the row as it was at its read, and a move allowed from there |
| StoreApproval.DecidedAtARead | src/modules/adminApprovals/storeApproval.service.ts:108-131 | every waiting decision was made at some read of the run |
| StoreApproval.StaleToggleIsRestored | src/modules/adminApprovals/storeApproval.service.ts:134-149 | a run that parks an outdated toggle and approves a closed store open |
| StoreApproval.StaleApprovalOpensClosed | src/modules/adminApprovals/storeApproval.service.ts:134-149 | a whole run that parks the current toggle and still approves a closed store open, by a decision one review old |
| StoreApproval.StoreRecord.Transition | src/modules/adminApprovals/storeApproval.service.ts:104-190 | refuses in the order of its checks; otherwise writes the columns and one audit entry |
| StoreApproval.RefusalIs | src/modules/adminApprovals/storeApproval.service.ts:46-126 | the nine moves there are, and the three refusals in order: already there, no such move, no words in a note that is required |
| StoreApproval.WrittenColumns | src/modules/adminApprovals/storeApproval.service.ts:198-282 | column by column, what a transition writes |
| StoreApproval.StoreRecord.Claim | src/modules/adminApprovals/storeApproval.service.ts:317-381 | claims, or takes over unless somebody else claimed within a day and it is not forced, with an audit entry that names who held it |
| StoreApproval.TransitionTracks | src/modules/adminApprovals/storeApproval.service.ts:198-282 | the columns written always track the new status |
| CategoryGraph.GetDescendantCategoryIds | src/modules/categories/category.repository.ts:84-102 | on any finite graph, cycles included, it ends with the start and exactly what is reachable through live children, each once |
| CategoryGraph.GetAncestorClosure | src/modules/categories/category.repository.ts:112-136 | on any finite graph it ends with exactly the live categories reachable upward through live ones |
| CategoryService.Categories.CreateCategory | src/modules/categories/category.service.ts:5-14 | goes under a row that exists and has no child of that name, so no category is ever above itself |
| CategoryService.Categories.DeleteCategory | src/modules/categories/category.service.ts:92-124 | for good exactly when nothing uses it and no live row is under it, detaching what pointed at it; softly otherwise; the graph stays without cycles |
| CategoryService.RankedIsAcyclic | src/modules/categories/category.service.ts:5-14 | parents made before children leave no cycle |
| CategoryService.WalkUp | src/modules/categories/category.service.ts:37-44 | the chain walk ends and is the category with its live ancestors, nearest first |
| CategoryService.ChainClimbs | src/modules/categories/category.service.ts:37-44 | the chain goes parent by parent up to a root of the forest |
| CategoryService.GetAllCategoryTrees | src/modules/categories/category.repository.ts:48-69 | each node holds the nodes of its rows in order, and the roots are the rows without a live parent |
| CategoryService.PlacedOnce | src/modules/categories/category.repository.ts:60-66 | every live category is placed exactly once: among the roots or under its live parent |
| CategoryService.GetVariantSuggestions | src/modules/categories/category.service.ts:25-75 | suggests the first declaration of each folded name up the chain |
| CategoryService.FirstsOfKeys | src/modules/categories/category.service.ts:57-72 | no two suggestions share a folded name, and every declared name is suggested |
| Text.FoldIs | src/modules/categories/category.service.ts:62-64 | a folded name is the name between its outer blanks with A to Z in lower case |
| CategoryService.NearestWins | src/modules/categories/category.service.ts:55-72 | no nearer category declares a suggestion's name |
| LiveMap.CellsForViewport | src/infrastructure/socket/index.ts:63-77 | the first 400 cells of the viewport row by row, all of them when they are no more |
| LiveMap.ViewIsCovered | src/infrastructure/socket/index.ts:53-77 | a viewport not cut short joins the cell of every position in view |
| LiveMap.CellsDiffer | src/infrastructure/socket/index.ts:63-77 | no cell is joined twice |
| LiveMap.MoveAgrees | src/infrastructure/socket/index.ts:233-244 | after a move a viewer's markers are the true filtered map exactly when a marker left behind is told |
| LiveMap.FaithfulMoveTells | src/infrastructure/socket/index.ts:233-244 | a move that carries the last position tells every viewer |
| LiveMap.RemovalAgrees | src/infrastructure/socket/index.ts:246-249 | a removal from the last position keeps the map true |
| LiveMap.ViewersFollow | src/infrastructure/socket/index.ts:233-249 | through any sequence of moves that carry the last position and removals from it, a viewer's markers stay exactly the vehicles in its cells |
| LiveMap.LateRemovalAgrees | src/modules/mobility/mobility.service.ts:250-253 | when a claimed vehicle's removal is told only after further events, the map is right exactly for those who do not watch both the cell it was claimed in and the cell it is in now |
| LiveMap.Gateway.EmitVehicleMoved | src/infrastructure/socket/index.ts:233-244 | two emits with an exception do to each viewer what the move means to it |
| LiveMap.Gateway.EmitVehicleRemoved | src/infrastructure/socket/index.ts:246-249 | reaches exactly the viewers of the cell |
| LiveStore.ClaimedOncePerSilence | src/modules/mobility/mobility.live-store.ts:28-35 | between two successful claims of a vehicle, by any replicas, it has pinged |
| LiveStore.AnnouncedAtMostOncePerPing | src/modules/mobility/mobility.live-store.ts:122-143 | over any run, a vehicle is claimed by sweeps at most once for each of its pings |
| LiveStore.PingIsSafe | src/modules/mobility/mobility.live-store.ts:122-143 | a vehicle that pings after a sweep has read its range is not removed by that sweep |
| LiveStore.ClaimKnowsLastPosition | src/modules/mobility/mobility.live-store.ts:131-141 | a successful claim announces the vehicle's last position, and it always has one |
| LiveStore.ClaimedAfterAMinute | src/modules/mobility/mobility.live-store.ts:122-143 | in every run, a sweep takes a vehicle only when its latest ping is a minute old or older |
| LiveStore.SweepReadsTheSilent | src/modules/mobility/mobility.live-store.ts:125-128 | a sweep reads exactly the vehicles last heard from at least a minute ago |
| Mobility.Service.RecordLocation | src/modules/mobility/mobility.service.ts:201-237 | stores a newer fix and keeps every viewer's map true exactly when each viewer left behind is told; always, unless the last fix expired unswept |
| Mobility.Service.DropLive | src/modules/mobility/mobility.service.ts:40-43 | takes a vehicle off every viewer's map |
| Mobility.Service.ClaimExpired | src/modules/mobility/mobility.live-store.ts:122-143 | claims exactly the vehicles silent for a minute, with their positions |
| Mobility.Service.SweepExpired | src/modules/mobility/mobility.service.ts:250-254 | exactly the vehicles not heard from for a minute leave the index and every viewer's map, and a second sweep finds none |

## Left out

- Stock rows: `version` and `updatedAt` columns, products' `totalSold`, and stock movement rows other than a manual adjustment's; they decide nothing that is modelled.
- Inventory rows: an order line names its inventory row directly, which is one row for each product; a product with several rows is not modelled.
- Payment guards: in the interleaved model a completion or a stale-order sweep is not held back by the payment's state, and webhooks of one payment do not wait for each other. The runs allowed are a superset, so what is proved of all runs holds of the real ones; the runs given as examples use neither.
- Product creation, which adds a stock row: runs start with the stock rows they have, so a row made later is one that starts with zero reserved and is not touched before.
- Holds made by the reserve endpoint for an arbitrary order: they are modelled, but only the holds a checkout created are proved gone from a closed order.
- Checkout pricing: subtotals, fees, vouchers, the pricing engine, settlements and rewards are not part of this model; `pricing.dfy` covers the line discount.
- Cancelling's refund call: the gateway refund before the transaction, and its failure paths, move no stock.
- The single-message consumer (`consume`, `handleOne`) and its heartbeat: the ingestion model covers a batch of any size.
- Queue timing: visibility timeouts and receive counts are not modelled; any message may be delivered at any time and parked at any time.
- Publishing: a call that throws after the topic took its entries is modelled, so such a payload is both queued and written directly; nothing in the code prevents that.
- Claims per key: keys are independent, so one key is modelled.
- Ads: ownership, badges, images and the product-in-store check; the update of an ad and of its products are two writes, taken as one.
- Transition candidates: which 500 rows the query returns, and whether a null recorded state matches its NOT, is the database's business; the sweep is proved for whatever it reads.
- Commission amounts: rounded half up in integers; the code rounds a binary floating-point product to two decimals. Holding days are 24 hours.
- Concurrent maturation, crediting and wallet spending: these read and write without a compare-and-set; they are proved for calls, and rows of the sweep, one transaction at a time in any order.
- Ads' deletion from the wallet's view: `Wallet` adds, changes and charges ads and never removes one.
- Names: trimming and folding cover ASCII characters only.
- Rejected stores' deletion, store edits, notifications, and display names.
- Live points: device status, speed and accuracy arithmetic, and the rounding of positions in the GEO index; positions are exact integers.
- Joining and leaving cells while events are in flight, and the snapshot a newly opened map fetches.
- Routes, schemas, authentication, mail, storage, seeders, rate limits and deployment: plumbing around the above.
