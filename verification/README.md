# Order service: a verified model

This Dafny project models the order service of a food-delivery platform and proves
properties of the model. It covers four protocols and two smaller pieces.

- **Order and money lifecycle.** One region's tables (orders, payment sessions, webhook log,
  ledger, restaurant balances, agent earnings, outbox) and every request that changes them:
  placement, payment webhooks, status changes, claim, pick-up, going offline, settlement, payout.
  `Tables` holds the rows and table operations, `Lifecycle` the effect of each request as a
  function, `OrderService` the services themselves as methods over mutable tables, each proved to
  have exactly that effect. `Ledger`, `Charges`, `Books`, `BooksExactness`, `Payouts`, `History`,
  `EventWords`, `Webhooks`, `Provenance`, `Progress` and `Rounding` are about all lists of
  requests that the assumptions below allow, `Answers` about when each request is granted and what it
  then does, `Moves`, `MoneyProvenance` and `PaymentWords` about which request made each move, booked
  each amount and emitted each payment event; `Witnesses` gives runs in which the named failures
  happen. `PayoutRaces` takes payouts and balance credits apart into single SQL statements that
  race.
- **Transactional outbox.** `Outbox` is the concurrent machine of drainers, `OutboxDrain` the drain
  job as a loop, `Delivery` the order in which one drainer publishes, `EndToEnd` the composition
  with the lifecycle, up to what a subscriber hears.
- **Cold archival.** `Archival` is the machine of interleaved, crashing sweeps, `ArchivalRuns` is
  about runs that complete, `ArchivalChildren` about rows that name an order, `ArchivalWorker` the
  worker's nested loops, each run of which is a run of the machine, and `ArchiveReads` what readers
  find afterwards.
- **Assignment.** `Assignment` is the machine of single Redis commands and SQL statements with a
  program counter per request and per worker, `AssignmentService` the service as methods.
- **Product cache.** `ProductCache` is the machine of core events, read-throughs and expiry for one
  product, `ProductCacheService` the event consumer and the read-through as methods.
- **Webhook signature.** `Signature` is the canonical payload and the digest comparison.

`dafny verify dfyconfig.toml` checks the whole project. In every machine a step that is not
enabled changes nothing, so a run is any list of steps.

## Assumptions

The theorems about money hold for every list of requests that satisfies `Lifecycle.Sound`:

- core reports one owner per restaurant, non-negative prices and fees, rates within 0..10000;
- no order is settled twice (the settlement itself looks only at the agent), and agents do not send
  `delivered` to the general status endpoint (which accepts it). `BooksExactness` proves for both
  exactly when the books survive without the assumption, and `Witnesses` that they can break;
- a payout's idempotency key does not spell one of the service's own keys (`cod-collect:`,
  `commission:`, `service-fee:`, `delivery-fee:`, `kashier:`).

The theorems about statuses, stamps and events assume besides (`Lifecycle.Permitted`) that the clock
does not go back, all requests of a region reading one clock, and that an agent delivers an order
that was picked up.

The archival theorems assume that ids and unique columns name one row over hot and archive
together, that rows are not edited during a sweep, and that the year cutoff is fixed during a run.
The subscriber theorems assume one drainer per region at a time and that the ids of one order's
outbox rows grow, as its transactions follow each other. The cache theorems assume that core events
are handled one at a time in the order they were published, that core publishes every change of
price, stock or availability, and that it never renames a product (no event would say so).

Amounts are unbounded integers; core replies, publish results, payment-provider replies, commit
failures, clock readings and geo searches are parameters; the hash of a signature is a parameter.

## Where the code and its documentation differ

The model follows the code.

- The settlement is documented as safe to run again. Its ledger and earning inserts are, but the
  balance increment repeats, and a commission is added if the first run booked none
  (`BooksExactness.SettlementKeepsBooksExactlyWhen`, `RepeatedSettlementLedger`,
  `Witnesses.SecondSettlementBreaksBooks`).
- The status endpoint is documented not to offer `delivered`; it accepts it from the assigned agent
  (`BooksExactness.StatusEndpointDeliveryKeepsBooksExactlyWhen`,
  `Witnesses.StatusEndpointBreaksBooks`).
- The reconciliation query of the test suite (all credits less all debits of the owner) gives the
  balance only while the owner has no delivered order as a customer
  (`BooksExactness.PlainFormulaAgreesExactlyWhen`).
- The failed reconciliation of a webhook is documented to be retried; its event row is already
  recorded, so the retry is skipped as a duplicate, and the payment is never booked
  (`Webhooks.BookedExactlyWhen`, `Witnesses.PaymentIsLost`).
- The archival sweep is documented to go children first so that no child is stranded. A child of
  this year whose order is of a prior year is (`ArchivalChildren.ChildrenKeepOrdersExactlyWhen`,
  `NewYearDeliveryIsOrphaned`).
- The claim key in Redis is described as the atomic claim. It does not exclude a second holder
  (`Assignment.ClaimKeyIsNotALock`, `KeyIsExclusiveExactlyWhen`); the conditional UPDATE does.
- The cap on assignment attempts is overshot by one less than the number of worker processes
  (`Assignment.AttemptsAreCapped`, `CapIsExact`).
- The consumer's dedupe window is called safe to expire because handlers only invalidate. The two
  product handlers merge values, so a late redelivery can bring back an old price
  (`ProductCache.LateRedeliveryIsHarmlessExactlyWhen`, `LateRedeliveryRestoresOldPrice`).
- A read-through fill can overwrite what an event has written since the fetch
  (`ProductCache.FillIsCoherentExactlyWhen`, `StaleFill`).

## Model

| member | source | states |
|---|---|---|
| OrderService.Region.Place | src/app/order/service/order.service.ts:117-177 | placement inserts the order, pending for online and placed for cash, and only a cash order's placed event; a transaction that fails leaves nothing |
| OrderService.Region.FinishOnlinePlacement | src/app/order/service/order.service.ts:179-223 | after the commit an online order gets one session over its total, or is voided without an event, or is left as it is when the void fails too |
| OrderService.Region.ProcessKashierWebhook | src/app/payment/service/kashier-webhook.service.ts:59-84 | a transaction id seen before changes nothing; a new one is recorded first, reconciled, and stamped with or without an error; the process may die before the reconciliation or between its commit and the stamp |
| OrderService.Region.ReconcileWebhook | src/app/payment/service/kashier-webhook.service.ts:86-246 | the branches of reconciliation: ignored events, unknown order, no active session, capture (with or without placing), failed charge, rollback |
| OrderService.Region.RecordWebhookOrSkip | src/app/payment/repository/payment-webhook-event.repo.ts:36-50 | inserts the event row exactly when its transaction id is new |
| OrderService.Region.CreateTransaction | src/app/payment/repository/transaction.repo.ts:48-66 | the plain insert fails exactly on a key that exists |
| OrderService.Region.CreateTransactionIdempotent | src/app/payment/repository/transaction.repo.ts:76-97 | a key that exists is left alone |
| OrderService.Region.IncrementBalance | src/app/finance/repository/restaurant-balance.repo.ts:41-55 | adds to the row of the restaurant and currency, or creates it with the delta |
| OrderService.Region.DecrementBalance | src/app/finance/repository/restaurant-balance.repo.ts:62-75 | takes the amount exactly when a row holds at least that much |
| OrderService.Region.InsertEarning | src/app/agent/repository/agent-earning.repo.ts:31-48 | the first earning of an order stays |
| OrderService.Region.UpdateStatus | src/app/order/service/order.service.ts:277-312 | actor resolution, table guard, stamp and event of a status change, or the refusal, or a rollback |
| OrderService.Region.ClaimReadyOrder | src/app/order/repository/order.repo.ts:148-164 | claims exactly a ready order without an agent |
| OrderService.Region.TransitionToPicked | src/app/agent/service/agent.service.ts:39-61 | only the order's agent picks it up, and only when assigned |
| OrderService.Region.GoOffline | src/app/agent/service/presence.service.ts:60-65 | refused while the agent has an order in transit, else every assigned order of the agent becomes ready again |
| OrderService.Region.BookSettlement | src/app/agent/service/settlement.service.ts:74-149 | the four conditional bookings, each ignored if its key exists |
| OrderService.Region.SettleDeliveredOrder | src/app/agent/service/settlement.service.ts:48-205 | the whole money transaction of a delivery, or its rollback |
| OrderService.Region.RecordPayout | src/app/finance/service/finance.service.ts:38-78 | a payout takes balance and books one row, or leaves both untouched: unknown restaurant, too little balance, key already used |
| Answers.PlaceDoneExactlyWhen | src/app/order/service/order.service.ts:102-170 | the opening row of an order, field by field, and a cash order's event |
| Answers.InitDoneExactlyWhen | src/app/order/service/order.service.ts:179-223 | the provider's answer settles a placement once: a session over the total, a cancelled order, or nothing more |
| Answers.ReconcileExactlyWhen | src/app/payment/service/kashier-webhook.service.ts:86-246 | a recorded webhook is booked exactly when it is a payment for a known order with an active session, the transaction commits and the key is new; it closes the latest such session, books one charge over it, announces its success or failure, and places an order that was waiting for payment |
| Answers.UnauthorisedExactlyWhen | src/app/order/service/order.service.ts:388-401 | the status endpoint turns away exactly the callers who are neither admin, nor the order's agent, nor owner or branch staff of its restaurant, nor its customer |
| Answers.StatusChangeDoneExactlyWhen | src/app/order/service/order-status.service.ts:13-72 | a status change is granted exactly when the caller may make that move, said over the fields of caller and order for each target; what it changes and which event it adds |
| Answers.RefusalExactlyWhen | src/app/order/service/order-status.service.ts:62-70 | when a missing reason and when a closed cancellation window is the answer |
| Answers.ClaimDoneExactlyWhen | src/app/order/repository/order.repo.ts:148-164 | a claim is granted exactly on a ready row without an agent, and then names the agent who asked |
| Answers.PickDoneExactlyWhen | src/app/agent/service/agent.service.ts:50-61 | a pick-up is granted exactly to the agent of an assigned order |
| Answers.OfflineDoneExactlyWhen | src/app/agent/service/presence.service.ts:55-65 | going offline is refused exactly while the agent carries an order; else every order assigned to the agent, and no other, is ready again |
| Answers.PayoutDoneExactlyWhen | src/app/finance/service/finance.service.ts:44-77 | a payout is granted exactly when the latest order of the restaurant names an owner, a balance row covers the amount and the key is new; each refusal, and the effect on that row, the other rows and the ledger |
| Answers.DecrementExactlyWhen | src/app/finance/repository/restaurant-balance.repo.ts:62-75 | the conditional decrement succeeds exactly when the account's row holds at least the amount, and lowers only that row by exactly it |
| Ledger.LedgerIsDetermined | src/app/agent/service/settlement.service.ts:74-149 | in every state reachable by sound requests, whatever the clock and the status at settlement, each order's ledger rows are, row by row and in order, a function of the order and its payment session; keys are unique and each belongs to the right row |
| Ledger.SettlementAppends | src/app/payment/repository/transaction.repo.ts:76-97 | a first settlement finds all its keys free and appends all its rows |
| Ledger.UnseenTxnHasNoKey | src/app/payment/service/kashier-webhook.service.ts:121-134 | the key of a webhook not seen before is free, so the plain insert of its charge never violates uniqueness |
| Charges.ChargedExactlyWhenCaptured | src/app/payment/service/kashier-webhook.service.ts:104-158 | an online order has one succeeded charge of exactly its total if and only if its session is captured; none while it waits for payment, one in every later status but cancelled; a cash order has no charge and its collection exactly when delivered |
| Charges.DeliveredOrderConservesMoney | src/app/agent/service/settlement.service.ts:65-169 | what the customer of a delivered order paid is the restaurant's net plus commission plus fees; one earning, at most the delivery fee, for the agent who delivered |
| Charges.BookedExactly | src/app/agent/service/settlement.service.ts:74-149 | the succeeded rows of an order, kind by kind |
| MoneyProvenance.EarningsComeFromSettlements | src/app/agent/service/settlement.service.ts:57-66 | in every sound run each order with an earning was settled by a granted request of its agent: the commission is floor(subtotal * bps / 10000) at that request's rate, or 0 without one, and the earning floor(fee * share / 10000) |
| MoneyProvenance.SettleDoneExactlyWhen | src/app/agent/service/settlement.service.ts:48-205 | a settlement is granted exactly to the order's agent, whatever the status; what it then writes, column by column and row by row: the rows whose keys are new, the balance unless the net is zero, the first earning, the event |
| MoneyProvenance.DeliveredHasEarning | src/app/agent/service/settlement.service.ts:162-172 | the orders with an earning are exactly the delivered ones |
| MoneyProvenance.DeliveredLedger | src/app/agent/service/settlement.service.ts:74-149 | the ledger rows of a delivered order, spelled out field by field |
| MoneyProvenance.ChargesSayWhatProviderSaid | src/app/payment/service/kashier-webhook.service.ts:115-220 | each booked provider transaction says what the first delivery of its id said: paid or declined, for that order, over its total |
| MoneyProvenance.WebhookLogIsExact | src/app/payment/repository/payment-webhook-event.repo.ts:36-59 | the event row of a transaction id is the one its first delivery left: stamped unless the process died, with an error if a due booking failed |
| MoneyProvenance.CreatedIsPlacementOrder | src/app/order/repository/order.repo.ts:114-121 | the latest order of a restaurant is the one placed last |
| PaymentWords.PaymentEventsTellCharges | src/app/payment/service/kashier-webhook.service.ts:138-239 | in every run the payment events of an order in the outbox are its charges in the ledger, in order, completed for a succeeded and failed for a declined one |
| Books.BalancesEqualLedger | tests/integration/finance/balance.integration.test.ts:5-14 | in every state reachable by sound requests, for every owner and currency, the balances equal the ledger's net over delivered orders less payouts |
| Books.SettleKeepsBooks | src/app/agent/service/settlement.service.ts:151-172 | a settlement moves balance and ledger by the same net, for cash orders booked now and for online orders charged before |
| Books.PayoutKeepsBooks | src/app/finance/service/finance.service.ts:47-77 | a payout moves balance and ledger together, or neither |
| BooksExactness.SettlementKeepsBooksExactlyWhen | src/app/agent/service/settlement.service.ts:53-55 | whatever the status, the books survive a settlement if and only if the order was not delivered before, or net and added commission are both zero; no second earning |
| BooksExactness.RepeatedSettlementLedger | src/app/agent/service/settlement.service.ts:92-108 | what a repeated settlement adds to the ledger |
| BooksExactness.StatusEndpointDeliveryKeepsBooksExactlyWhen | src/app/order/service/order.service.ts:277-312 | an agent's `delivered` through the status endpoint keeps the books if and only if the order is paid in cash |
| BooksExactness.PlainFormulaAgreesExactlyWhen | tests/integration/finance/balance.integration.test.ts:28-40 | the plain credits-less-debits formula gives the balance if and only if the owner has no delivered order as a customer |
| Payouts.BalancesNeverNegative | src/app/finance/repository/restaurant-balance.repo.ts:57-75 | no reachable balance is below zero, and there is one row per restaurant and currency |
| Payouts.LedgerOnlyGrows | src/app/payment/repository/transaction.repo.ts:48-97 | no request ever rewrites or removes a ledger row |
| Payouts.PayoutKeyTakesEffectOnce | src/app/finance/service/finance.service.ts:47-77 | of two payouts with one key in one run, the second is refused and changes nothing |
| PayoutRaces.RacesAreSerial | src/app/finance/service/finance.service.ts:47-77 | at statement grain, with row and key locks, blocking and rollbacks: the committed tables are those of the committed transactions run one at a time in commit order |
| PayoutRaces.RacesNeverOverdraw | src/app/finance/repository/restaurant-balance.repo.ts:62-75 | under any interleaving no balance goes below zero and at most one payout per key commits |
| PayoutRaces.PayoutIsAtomic | src/app/finance/service/finance.service.ts:47-77 | the atomic payout of the races is the payout of the lifecycle |
| PayoutRaces.LonePayoutCommitsExactlyWhen | src/app/finance/service/finance.service.ts:47-77 | alone, a payout's statements commit exactly when the balance covers the amount and the key is new, with that effect, and else leave nothing |
| PayoutRaces.LonePayoutIsAtomic | src/app/finance/service/finance.service.ts:52-77 | with no other transaction open the four statements of a payout do the whole at once or nothing |
| Rounding.CommissionsLoseLessThanOnePerOrder | src/app/agent/service/settlement.service.ts:65-66 | the commissions of n orders fall short of the commission on their sum by 0 to n - 1 minor units |
| Ledger.ShareWithin | src/app/agent/service/settlement.service.ts:65-66 | a share at a rate within 0..10000 lies between nothing and the amount |
| History.StatusFollowsTable | src/app/order/service/order-status.service.ts:13-42 | every status change of every run is a listed transition, or the release of an assigned order by its agent |
| History.TerminalIsForever | src/app/order/service/order-status.service.ts:13-42 | rejected, delivered and cancelled are absorbing |
| Moves.EveryMoveIsMadeBy | src/app/order/service/order-status.service.ts:13-42 | in every run, legal or not, each change of a status was made by a request and a caller that may make it |
| Moves.AcceptedByItsStaff | src/app/order/service/order.service.ts:391-397 | an order is only ever accepted by the owner of its restaurant or a member who works at its branch |
| Moves.RowNamesTheClaimer | src/app/order/repository/order.repo.ts:153-162 | in every run the row names an agent if and only if the latest granted claim was by that agent, who has not given it back by going offline since, read off requests and answers alone |
| History.HistoryIsConsistent | src/app/order/repository/order.repo.ts:148-164 | in every reachable state the agent and the stamps of an order are those its status calls for, and the stamps are in chronological order, even after release and reassignment |
| Provenance.OrderKeepsItsTerms | src/app/order/service/order.service.ts:101-144 | in every run an order still carries the parties and amounts of the placement that created it, and its total is their sum |
| Provenance.EveryMoveIsStamped | src/app/order/repository/order.repo.ts:203-221 | in every legal run each status change writes its time into the column the table names and no other, except that a release takes the assignment's stamp away |
| History.BuildHistory | src/app/order/dto/order.response.dto.ts:135-156 | pushes exactly the present stamps, in column order |
| History.HistoryShowsExactlyStamps | src/app/order/dto/order.response.dto.ts:141-153 | the history shows a status at a time exactly when the order has that stamp |
| History.ShownHistoryIsChronological | src/app/order/dto/order.response.dto.ts:135-156 | the history of every reachable order is chronological |
| History.ShownHistoryEndsAtStatus | src/app/order/dto/order.response.dto.ts:135-156 | it ends at the order's status, except that preparing shows as accepted and an online order shows as placed from the start |
| History.AssignIsForTheSystem | src/app/order/service/order-status.service.ts:31-34 | no caller of the status endpoint can set `assigned` |
| Progress.EveryPlacedOrderCanBeDelivered | src/app/order/service/order-status.service.ts:18-41 | from every reachable state an order that is placed and not finished can still be delivered by permitted requests |
| Progress.EveryOrderCanEnd | src/app/order/service/order-status.service.ts:13-42 | in every reachable state each order is finished or one permitted request away from it |
| Progress.CanReach | src/app/order/service/order-status.service.ts:18-41 | from every reachable state an order under way can be taken to any later status up to delivered by permitted requests, its terms unchanged |
| Witnesses.DeliveriesHappen | src/app/agent/service/settlement.service.ts:48-205 | for every placement, cash or online, some legal run brings the order to any status from placed to delivered |
| Witnesses.SecondSettlementBreaksBooks | src/app/agent/service/settlement.service.ts:151-160 | for every order with a positive subtotal some legal run delivers it, and a second settlement then sets balance and ledger apart |
| Witnesses.StatusEndpointBreaksBooks | src/app/order/service/order.service.ts:277-312 | for every online order some legal run brings it to picked, and the agent's `delivered` through the status endpoint then sets the books apart |
| Witnesses.PaymentIsLost | src/app/payment/service/kashier-webhook.service.ts:70-83 | a payment whose booking transaction failed stays unbooked and its order pending, however often the provider retries |
| EventWords.OutboxWordFitsStatus | src/app/order/service/order.service.ts:414-418 | in every reachable state the order events in the outbox form, for each order, the word its status calls for; only a cancelled online order that was never accepted leaves a choice |
| Webhooks.RedeliveriesChangeNothing | src/app/payment/service/kashier-webhook.service.ts:61-73 | a run leaves the same tables as the run with only the first delivery of each transaction id, whatever became of that delivery |
| Webhooks.BookedExactlyWhen | src/app/payment/service/kashier-webhook.service.ts:61-111 | in every run a provider transaction is booked if and only if its first delivery was a payment event for an order with an active session and its transaction committed; a transaction id is recorded if and only if it was delivered |
| Webhooks.NewWebhookNeverConflicts | src/app/payment/service/kashier-webhook.service.ts:121-134 | the reconciliation of a new webhook fails only if the database or the process does |
| Webhooks.DeliveredIsRecorded | src/app/payment/repository/payment-webhook-event.repo.ts:36-50 | a delivered transaction id stays recorded |
| Outbox.DrainersAreSafe | src/lib/events/outbox.repo.ts:42-64 | with any number of drainers no row is held twice, every dispatched row was published before, and the rows a drainer has passed are published |
| Outbox.BatchesSendPrefixes | src/lib/events/outbox-drain.ts:27-50 | in every run what an open batch has itself put on the exchange is exactly the rows it has passed, in id order, each once, plus the row it failed on if that publish arrived |
| Outbox.EndedBatchSentPrefix | src/lib/events/outbox-drain.ts:44-56 | by its commit or rollback a batch has put exactly a prefix of its rows on the exchange |
| Outbox.UnfinishedRowsComeBack | src/lib/events/outbox-drain.ts:44-56 | a rolled-back row, or one not reached before a failure, is undispatched and free again |
| Outbox.AttemptsCountFailures | src/lib/events/outbox.repo.ts:57-64 | the attempts column of a row counts the committed passes that failed on it |
| OutboxDrain.Drainer.ClaimBatch | src/lib/events/outbox.repo.ts:42-51 | the undispatched rows in id order, at most `limit` |
| OutboxDrain.Drainer.DrainOnce | src/lib/events/outbox-drain.ts:17-57 | one pass dispatches the rows before the first failed publish, raises the attempts of that row and stops; a failed commit keeps only what was published |
| OutboxDrain.PassRefinesMachine | src/lib/events/outbox-drain.ts:20-52 | a pass is a run of the concurrent machine: claim, publishes one by one, commit |
| OutboxDrain.HealthyPassesDispatchEverything | src/lib/events/outbox-drain.ts:20-52 | with a healthy broker n passes dispatch the first n times `limit` pending rows, so in the end all |
| Delivery.SubscriberKeepsPrefix | src/lib/events/outbox-drain.ts:27-50 | with one drainer, a subscriber that drops repeats keeps, for each order, a prefix of its committed events |
| EndToEnd.MachinesAgree | src/lib/events/outbox.repo.ts:10-18 | the tables' outbox and the drainers' outbox hold the same rows in every legal run of the whole system |
| EndToEnd.SubscriberHearsLegalPrefix | src/app/order/service/order.service.ts:163-170 | end to end, under publish failures, lost confirmations and rollbacks: what a subscriber heard of an order is a prefix of the word its status calls for and is a legal word |
| EndToEnd.SubscriberHearsPayments | src/lib/events/outbox-drain.ts:27-50 | what a subscriber heard of an order's payments is a prefix of its charges in the ledger |
| Archival.SweepsLoseNothing | src/lib/jobs/archival.worker.ts:75-114 | under any interleaving of sweeps, crashes and placements every row is still in hot or archive unchanged, archive ids are unique, no hot item lost its hot order, and the state an uninterrupted sweep would reach is unchanged |
| Archival.CopyKeepsAll | src/lib/jobs/archival.worker.ts:96-98 | with well-keyed rows the untargeted conflict clause skips only rows that are already there |
| Archival.MoveLosesExactlyWhen | src/lib/jobs/archival.worker.ts:96-99 | without the assumption on keys: copy and delete lose exactly the rows that are not archived and meet an archived row with their id (and creation time, for orders) or unique value |
| Archival.DeleteRemovesRows | src/lib/jobs/archival.worker.ts:99-99 | deleting by id removes exactly the copied rows |
| Archival.ItemsKeepOrders | src/lib/jobs/archival.worker.ts:26-35 | no delete of a sweep takes an order from a hot item |
| ArchivalChildren.ChildrenKeepOrders | src/lib/jobs/archival.worker.ts:15-17 | at every point of every run, crash and cap included, every hot row that names an order has it hot, for all child tables, if no child of this year belongs to an order of a prior year |
| ArchivalChildren.ChildrenKeepOrdersExactlyWhen | src/lib/jobs/archival.worker.ts:15-17 | no child loses its order at any point of any run that places no such child, if and only if there is none at the start |
| ArchivalChildren.SettledChildrenExactlyWhen | src/lib/jobs/archival.worker.ts:26-35 | after a completed run every hot child has its hot order if and only if no child of this year belonged to an order of a prior year |
| ArchivalChildren.NewYearDeliveryIsOrphaned | src/lib/jobs/archival.worker.ts:26-35 | an order placed before and delivered after new year loses its earning's parent |
| ArchivalRuns.CompletedRunsAgree | tests/integration/archival/archival.integration.test.ts:173-198 | after any interleaving of sweeps, crashes, restarts and placements, every run that completes ends in one state: hot has the rows from the cutoff on, the archive its old rows and all the others |
| ArchivalRuns.InterruptedRunsComplete | src/lib/jobs/archival.worker.ts:78-108 | from wherever sweeps were interrupted a run can complete, to that state |
| ArchivalRuns.BatchIsRun | src/lib/jobs/archival.worker.ts:87-99 | select, copy and delete of the machine together move exactly the batch |
| Archival.BatchIsEmptyWhenDone | src/lib/jobs/archival.worker.ts:87-92 | the loop's exit test is exact: a batch is empty if and only if no prior-year row of the table is left |
| ArchivalWorker.Clusters.SelectBatch | src/lib/jobs/archival.worker.ts:87-90 | prior-year rows of the table in id order, at most the limit, those with the lowest ids, and all of them if fewer |
| ArchivalWorker.Clusters.MoveBatch | src/lib/jobs/archival.worker.ts:94-101 | copy then delete moves exactly the batch, and the backlog falls by its size |
| ArchivalWorker.Clusters.SweepTable | src/lib/jobs/archival.worker.ts:81-108 | the batch loop ends, counts what it moved, empties the table's backlog unless it timed out, and keeps the final state fixed |
| ArchivalWorker.Clusters.ArchiveRegion | src/lib/jobs/archival.worker.ts:64-126 | a run is a run of the machine; one that does not time out ends in exactly the settled state, whatever runs came before; a capped one stops between batches, reports what it moved, and a cap of zero moves nothing |
| ArchiveReads.RoutedReadsCompleteExactlyWhen | src/app/order/service/order.service.ts:236-250 | routed order lists equal the lists over both databases, for all customers and years, if and only if prior-year orders are archived and the others hot |
| ArchiveReads.CompletedRunMakesReadsComplete | src/app/order/service/order.service.ts:236-250 | after a completed run the routed orders and their item counts are complete |
| Assignment.OneWinnerPerReadyPeriod | src/app/assignment/service/assignment.service.ts:132-168 | for any number of racing accepts, overrides, rejections, expiries and crashes: committed claims and releases strictly alternate starting with a claim, the row names the winner, and a request told it won did commit |
| Assignment.WinnersWereOffered | src/app/assignment/service/assignment.service.ts:133-136 | a winner through accept was in some candidate list of the order |
| Assignment.AttemptsAreCapped | src/app/assignment/service/assignment.service.ts:67-98 | with W workers the attempts, and the offers counted in one lifetime of their key, never exceed the cap plus W - 1 |
| Assignment.CapIsExact | src/app/assignment/service/assignment.service.ts:69-88 | that bound is reached, for every cap and every number of workers |
| Assignment.KeyIsExclusiveExactlyWhen | src/app/assignment/service/assignment.service.ts:138-168 | a step keeps the claim key exclusive, naming the agent of its one holder, if and only if it is not an expiry or a failed request's delete while another request holds it |
| Assignment.ClaimKeyIsNotALock | src/app/assignment/service/assignment.service.ts:156-168 | the doubled delete of a failed override lets two accepts hold the claim key at once, without any expiry |
| Assignment.TwoRejections | src/app/assignment/service/assignment.service.ts:192-208 | two rejections one after the other both count; if both read before either writes, the first is lost |
| Assignment.WithoutKeepsOrder | src/app/assignment/service/assignment.service.ts:197-197 | a rejection leaves the other candidates in their order |
| AssignmentService.AcceptGrantedExactlyWhen | src/app/assignment/service/assignment.service.ts:132-189 | an accept is granted exactly to an agent on the offer with the claim key free, the row ready and free and the commit done; what it leaves, and that a refusal leaves all as it was |
| AssignmentService.RejectDoneExactlyWhen | src/app/assignment/service/assignment.service.ts:192-208 | a rejection is taken exactly from an agent on the offer; the others stay, and with no others the offer goes |
| AssignmentService.OfferedExactlyWhen | src/app/assignment/service/assignment.service.ts:65-98 | a worker offers exactly an order without an offer, below the cap and with someone near; each attempt that reaches the search counts once |
| AssignmentService.AcceptAlone | src/app/assignment/service/assignment.service.ts:132-189 | an accept without interference is the sequential accept: each refusal leaves no trace, a win sets row and claim key and drops the offer |
| AssignmentService.OverrideAlone | src/app/assignment/service/assignment.service.ts:214-249 | the same for an override, which looks at no offer |
| AssignmentService.RejectAlone | src/app/assignment/service/assignment.service.ts:192-208 | a rejection without interference removes exactly that agent, and the offer with the last one |
| AssignmentService.TryOfferAlone | src/app/assignment/service/assignment.service.ts:65-98 | a worker's attempt without interference is the sequential attempt |
| AssignmentService.Dispatch.FindCandidates | src/app/assignment/service/assignment.service.ts:252-272 | the nearest agents who are online and not busy, in distance order, up to the limit |
| AssignmentService.EligiblePrefix | src/app/assignment/service/assignment.service.ts:262-270 | stopping early only leaves out agents farther away |
| AssignmentService.NearestIsLimited | src/app/assignment/service/assignment.service.ts:262-271 | at most the limit, fewer only if all who qualify were found, and the nearest of them |
| AssignmentService.Dispatch.TryAssign | src/app/assignment/service/assignment.service.ts:65-130 | skipped, exhausted, no candidates or offered, with offer and counter of this order only |
| AssignmentService.Dispatch.TickRegion | src/app/assignment/service/assignment.service.ts:45-59 | every ready order is tried once, the others are untouched, and the counts are right |
| AssignmentService.Dispatch.Claim | src/app/assignment/service/assignment.service.ts:132-189 | the reply and the new state of an accept; only a winner becomes busy |
| AssignmentService.Dispatch.AdminAssign | src/app/assignment/service/assignment.service.ts:214-249 | the reply and the new state of an override |
| AssignmentService.Dispatch.Decline | src/app/assignment/service/assignment.service.ts:192-208 | the reply and the new state of a rejection |
| ProductCache.CacheFollowsCore | src/app/order/service/core-data-cache.service.ts:85-102 | in every run without an overtaken fill each cached field is core's unless a queued event sets it; with the queue empty a hit is exactly core's row; no hit lacks its name |
| ProductCache.FillIsCoherentExactlyWhen | src/lib/core-client/branch.client.ts:147-165 | a fill keeps the cache coherent if and only if no event handled since the fetch set a field to another value that no queued event sets again |
| ProductCache.StaleFill | src/lib/core-client/branch.client.ts:147-165 | an overtaken fill leaves an old price with nothing queued to correct it |
| ProductCache.DeliveryKeepsCoherence | src/app/order/service/core-data-cache.service.ts:85-102 | handling the next event, on a full, partial or missing entry, keeps the cache coherent |
| ProductCache.RedeliveriesChangeNothing | src/lib/core-events/consumer.ts:47-56 | a remembered event changes nothing when delivered again |
| ProductCache.LateRedeliveryIsHarmlessExactlyWhen | src/lib/core-events/consumer.ts:7-10 | after its dedupe key expired, a redelivery keeps the cache coherent if and only if its fields are current or set again by a queued event |
| ProductCache.LateRedeliveryRestoresOldPrice | src/lib/core-events/consumer.ts:7-10 | a run in which such a redelivery brings back an old price with nothing queued to correct it |
| ProductCacheService.Projection.HandleMessage | src/lib/core-events/consumer.ts:43-79 | malformed is refused, repeated and unregistered are acknowledged without effect, a handler that throws is refused with its dedupe key set, the rest is merged into exactly one entry |
| ProductCacheService.Projection.Upsert | src/app/order/service/core-data-cache.service.ts:50-102 | the product handlers merge the fields the event carries and ignore a payload without ids |
| ProductCacheService.Projection.GetBranchProducts | src/lib/core-client/branch.client.ts:110-166 | named entries are hits, the rest is asked from core and cached, unknown products are left out, and nothing returned lacks its name |
| Signature.PayloadIgnoresKeyOrder | src/pkg/payments/kashier/kashier.signature.ts:19-28 | the payload does not depend on the order in which keys are listed |
| Signature.PayloadPinsValues | src/pkg/payments/kashier/kashier.signature.ts:19-28 | for one list of keys two payloads are equal if and only if every key's stringified value is |
| Signature.PayloadOfTwo | src/pkg/payments/kashier/kashier.signature.ts:19-28 | the form of a payload: key, equals sign and encoded value, in ascending order of keys, joined with ampersands |
| Signature.EscapedExactlyWhen | src/pkg/payments/kashier/kashier.signature.ts:25-25 | which octets percent-encoding keeps, and the upper-case digits of the others |
| Signature.EncodeConcat | src/pkg/payments/kashier/kashier.signature.ts:25-25 | the encoding of a text is that of its parts in turn |
| Signature.DecodeEncode | src/pkg/payments/kashier/kashier.signature.ts:25-25 | percent-encoding (section 2.1 of RFC 3986) can be undone |
| Signature.AscendingIsUnique | src/pkg/payments/kashier/kashier.signature.ts:20-21 | a list of keys has one sorted form |
| Signature.AtMostIsLexicographic | src/pkg/payments/kashier/kashier.signature.ts:20-21 | two keys are ordered by the first code unit in which they differ, and a beginning comes first |
| Signature.HexSpellsOctets | src/pkg/payments/kashier/kashier.signature.ts:30-33 | each octet of a digest is two digits, the high one first, in lower case |
| Signature.VerifyAcceptsExactlyWhen | src/pkg/payments/kashier/kashier.signature.ts:36-45 | a signature is accepted if and only if it spells the digest in hexadecimal, in letters of either case |

## Left out

- Interleaving of the unconditional updates: `updateStatus`, `reconcile`, `transition` and
  `settleDelivered` read before their transaction; each is one atomic step here. Payouts, claims,
  drains, sweeps and cache handlers are taken apart, these are not.
- ProductCache.CacheFollowsCore: takes one consumer that handles one event at a time; the code's
  handlers read and write back, and two that overlap on one entry can lose an update. A handler
  that throws after its dedupe key is set loses its event. A change that core does not publish, a
  new name for instance, stays unseen until the entry expires.
- Assignment.AttemptsAreCapped: an offer counts in the lifetime of the key in which its increment
  falls; the broadcast itself follows the increment.
- AssignmentService.Dispatch.TickRegion: takes the ready orders that the query returned as a
  parameter, and has no attempt that throws half way.
- Delivery.SubscriberKeepsPrefix: says nothing for several drainers at once, whose batches of one
  order may overtake each other.
- PayoutRaces.RacesAreSerial: a settlement is there only through its balance increment.
- The lifecycle identifies order id and public id and has one region; item rows are in the archival
  model only.
- Retrying a failed payment: an order has one session, and no code creates a second.
- Agents' busy flags: the documented rule (busy exactly while holding an order) is not kept by the
  code and not claimed; `AssignmentService` only shows when the flag is set.
- The event handlers for branches and restaurants (they delete keys and set a flag).
- Stock reservation and release, order line drafts, branch and address lookups.
- Redis geo search (its result is a parameter), key lifetimes (a key may expire at any moment).
- The archival lock: no theorem relies on it. A batch size of 0 moves nothing and is in the model.
- The hash function, UTF-16 to UTF-8 conversion and the raw webhook envelope.
- Idempotency middleware, response caching, cursor pagination, permission cache, region routing.
- Socket messages, HTTP, logging, event payloads, reporting columns (method, provider, references).
- Refunds, and the sweep of unpaid orders: described in the documentation, not implemented.
