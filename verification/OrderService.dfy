/**
 The services as they run: statement by statement on the tables of one region,
 with transactions that roll back. Each method is proved to do to the tables
 exactly what Lifecycle says the request does.
 */
module OrderService {
  import opened Common
  import opened OrderStatus
  import opened Tables
  import opened Lifecycle

  class Region {
    var orders: map<OrderId, Order>
    var created: seq<OrderId>
    var awaitingInit: set<OrderId>
    var sessions: seq<Session>
    var webhooks: map<string, WebhookRow>
    var ledger: seq<Txn>
    var balances: seq<BalanceRow>
    var earnings: map<OrderId, Earning>
    var outbox: seq<Event>
    var clock: int

    /** The tables as one value. */
    function View(): Db
      reads this
    {
      Db(orders, created, awaitingInit, sessions, webhooks, ledger, balances, earnings, outbox, clock)
    }

    constructor ()
      ensures View() == EMPTY
    {
      orders, created, awaitingInit, sessions, webhooks := map[], [], {}, [], map[];
      ledger, balances, earnings, outbox, clock := [], [], map[], [], 0;
    }

    /** ROLLBACK to the tables a transaction started from. */
    method Rollback(start: Db)
      modifies this
      ensures View() == start
    {
      orders, created, awaitingInit, sessions, webhooks := start.orders, start.created, start.awaitingInit, start.sessions, start.webhooks;
      ledger, balances, earnings, outbox, clock := start.ledger, start.balances, start.earnings, start.outbox, start.clock;
    }

    // ----- repositories -----------------------------------------------------

    method UpdateOrderStatus(p: OrderId, to: Status, stamp: Stamp, now: int)
      requires p in orders
      modifies `orders
      ensures orders == old(orders)[p := Moved(old(orders)[p], to, stamp, now)]
    {
      orders := orders[p := Moved(orders[p], to, stamp, now)];
    }

    method UpdateOrderCommission(p: OrderId, commission: int)
      requires p in orders
      modifies `orders
      ensures orders == old(orders)[p := old(orders)[p].(commission := commission)]
    {
      orders := orders[p := orders[p].(commission := commission)];
    }

    /** Plain INSERT: fails on a key that exists. */
    method CreateTransaction(t: Txn) returns (ok: bool)
      modifies `ledger
      ensures ok == !HasKey(old(ledger), t.key)
      ensures ledger == if ok then old(ledger) + [t] else old(ledger)
    {
      ok := !HasKey(ledger, t.key);
      if ok {
        ledger := ledger + [t];
      }
    }

    /** INSERT ... ON CONFLICT DO NOTHING: a key that exists is left alone. */
    method CreateTransactionIdempotent(t: Txn)
      modifies `ledger
      ensures ledger == InsertIgnore(old(ledger), t)
    {
      if !HasKey(ledger, t.key) {
        ledger := ledger + [t];
      }
    }

    method IncrementBalance(restaurantId: nat, currency: string, delta: int)
      modifies `balances
      ensures balances == UpsertIncrement(old(balances), restaurantId, currency, delta)
    {
      match FindBalance(balances, restaurantId, currency)
      case None => balances := balances + [BalanceRow(restaurantId, currency, delta)];
      case Some(i) => balances := balances[i := balances[i].(balance := balances[i].balance + delta)];
    }

    /** UPDATE ... WHERE balance >= amount; false when no row qualified. */
    method DecrementBalance(restaurantId: nat, currency: string, amount: int) returns (ok: bool)
      modifies `balances
      ensures ok == DecrementIfSufficient(old(balances), restaurantId, currency, amount).Some?
      ensures balances == if ok then DecrementIfSufficient(old(balances), restaurantId, currency, amount).value else old(balances)
    {
      ok := false;
      match FindBalance(balances, restaurantId, currency)
      case None =>
      case Some(i) =>
        if balances[i].balance >= amount {
          balances := balances[i := balances[i].(balance := balances[i].balance - amount)];
          ok := true;
        }
    }

    /** UNIQUE (order_id): the first earning stays. */
    method InsertEarning(p: OrderId, earning: Earning)
      modifies `earnings
      ensures earnings == if p in old(earnings) then old(earnings) else old(earnings)[p := earning]
    {
      if p !in earnings {
        earnings := earnings[p := earning];
      }
    }

    method InsertOutboxEvent(p: OrderId, kind: EventKind)
      modifies `outbox
      ensures outbox == old(outbox) + [Event(p, kind)]
    {
      outbox := outbox + [Event(p, kind)];
    }

    method RecordWebhookOrSkip(txn: string) returns (recorded: bool)
      modifies `webhooks
      ensures recorded == (txn !in old(webhooks))
      ensures webhooks == if recorded then old(webhooks)[txn := WebhookRow(false, false)] else old(webhooks)
    {
      recorded := txn !in webhooks;
      if recorded {
        webhooks := webhooks[txn := WebhookRow(false, false)];
      }
    }

    // ----- placement --------------------------------------------------------

    method Place(r: Placement, now: int, commits: bool) returns (outcome: Outcome)
      modifies this
      ensures Reply(View(), outcome) == Committed(old(View()), PlaceOrder(old(View()), r, now), commits)
    {
      if r.orderId in orders {
        return DuplicateOrder;
      }
      var start := View();
      orders := orders[r.orderId := NewOrder(r, now)];
      created := created + [r.orderId];
      if orders[r.orderId].status == Placed {
        InsertOutboxEvent(r.orderId, OrderPlaced);
      }
      if !commits {
        Rollback(start);
        return CommitFailed;
      }
      if r.payment == Online {
        awaitingInit := awaitingInit + {r.orderId};
      }
      outcome := Done;
    }

    /** initOnlinePayment and, if it throws, voidOrderSafe. */
    method FinishOnlinePlacement(p: OrderId, init: InitOutcome, now: int) returns (outcome: Outcome)
      modifies this
      ensures Reply(View(), outcome) == FinishPlacement(old(View()), p, init, now)
    {
      if p !in awaitingInit || p !in orders {
        return NothingToInit;
      }
      if init == SessionCreated {
        var existing := FindActive(sessions, p);
        if existing.None? {
          sessions := sessions + [Session(p, orders[p].total, orders[p].currency, Initialized, None)];
        }
      } else if init == ProviderFailed {
        UpdateOrderStatus(p, Cancelled, CancelledAt, now);
      }
      awaitingInit := awaitingInit - {p};
      outcome := Done;
    }

    // ----- webhook ----------------------------------------------------------

    method ReconcileWebhook(w: Webhook, transactionFails: bool, now: int) returns (ok: bool)
      modifies this
      ensures ok == Reconcile(old(View()), w, transactionFails, now).Some?
      ensures View() == if ok then Reconcile(old(View()), w, transactionFails, now).value else old(View())
    {
      if !w.isPay || w.orderId !in orders {
        return true;
      }
      var found := FindActive(sessions, w.orderId);
      if found.None? {
        return true;
      }
      var start, i, p, o := View(), found.value, w.orderId, orders[w.orderId];
      sessions := sessions[i := sessions[i].(status := if w.success then Captured else Failed, lastTxn := Some(w.txn))];
      var inserted := CreateTransaction(ChargeRow(p, o, start.sessions[i], w.txn, w.success));
      if !inserted || transactionFails {
        Rollback(start);
        return false;
      }
      if w.success {
        InsertOutboxEvent(p, PaymentCompleted);
        if o.status == PendingPayment {
          UpdateOrderStatus(p, Placed, NoStamp, now);
          InsertOutboxEvent(p, OrderPlaced);
        }
      } else {
        InsertOutboxEvent(p, PaymentFailed);
      }
      ok := true;
    }

    method ProcessKashierWebhook(w: Webhook, fate: Fate, now: int) returns (outcome: Outcome)
      modifies this
      ensures Reply(View(), outcome) == ProcessWebhook(old(View()), w, fate, now)
    {
      var recorded := RecordWebhookOrSkip(w.txn);
      if !recorded {
        return DuplicateWebhook;
      }
      if fate == ProcessDies {
        return ReconcileFailed;
      }
      var ok := ReconcileWebhook(w, fate == TransactionFails, now);
      if fate == StampLost {
        return ReconcileFailed;
      }
      webhooks := webhooks[w.txn := WebhookRow(true, !ok)];
      assert webhooks == old(webhooks)[w.txn := WebhookRow(true, !ok)];
      outcome := if ok then Done else ReconcileFailed;
    }

    // ----- status changes ---------------------------------------------------

    method UpdateStatus(p: OrderId, c: Caller, to: Status, hasReason: bool, now: int, commits: bool) returns (outcome: Outcome)
      modifies this
      ensures Reply(View(), outcome) == Committed(old(View()), ChangeStatus(old(View()), p, c, to, hasReason, now), commits)
    {
      if p !in orders {
        return OrderNotFound;
      }
      var o := orders[p];
      var actor := ResolveActor(c, o);
      if actor.None? {
        return Unauthorised;
      }
      var verdict := AssertTransition(o.status, to, actor.value, hasReason, o.stamps.createdAt, o.stamps.acceptedAt, now);
      if !verdict.Allowed? {
        return TransitionRefused(verdict);
      }
      var start := View();
      UpdateOrderStatus(p, to, verdict.stamp, now);
      var kind := EventForStatus(to);
      if kind.Some? {
        InsertOutboxEvent(p, kind.value);
      }
      if !commits {
        Rollback(start);
        return CommitFailed;
      }
      outcome := Done;
    }

    /** UPDATE ... WHERE status = 'ready' AND delivery_agent_id IS NULL. */
    method ClaimReadyOrder(p: OrderId, agentId: nat, now: int) returns (outcome: Outcome)
      modifies this
      ensures Reply(View(), outcome) == ClaimReady(old(View()), p, agentId, now)
    {
      if p in orders && orders[p].status == Ready && orders[p].agent.None? {
        UpdateOrderStatus(p, Assigned, AssignedAt, now);
        orders := orders[p := orders[p].(agent := Some(agentId))];
        outcome := Done;
      } else {
        outcome := NotReady;
      }
    }

    method TransitionToPicked(p: OrderId, agentId: nat, now: int, commits: bool) returns (outcome: Outcome)
      modifies this
      ensures Reply(View(), outcome) == Committed(old(View()), PickUp(old(View()), p, agentId, now), commits)
    {
      if p !in orders {
        return OrderNotFound;
      }
      if orders[p].agent != Some(agentId) {
        return NotYourTask;
      }
      if orders[p].status != Assigned {
        return NotInAssignedState;
      }
      var start := View();
      UpdateOrderStatus(p, Picked, PickedAt, now);
      if !commits {
        Rollback(start);
        return CommitFailed;
      }
      outcome := Done;
    }

    /** Two statements: refuse while food is in transit, else release every order
        the agent was assigned. */
    method GoOffline(agentId: nat) returns (outcome: Outcome)
      modifies this
      ensures Reply(View(), outcome) == AgentOffline(old(View()), agentId)
    {
      if exists p | p in orders :: HeldBy(orders[p], agentId, Picked) {
        return OfflineWhilePicked;
      }
      orders := map p | p in orders :: Released(orders[p], agentId);
      outcome := Done;
    }

    // ----- settlement and payouts -------------------------------------------

    /** The statements between BEGIN and COMMIT. */
    method SettlementTransaction(p: OrderId, o: Order, agentId: nat, commission: int, earning: int, now: int)
      requires p in orders && o == orders[p]
      modifies this
      ensures var net := o.subtotal - commission;
              View() == old(View()).(
                orders := old(orders)[p := Moved(o.(commission := commission), Delivered, DeliveredAt, now)],
                ledger := InsertAllIgnore(old(ledger), SettlementRows(p, o, commission)),
                balances := if net != 0 then UpsertIncrement(old(balances), o.restaurantId, o.currency, net) else old(balances),
                earnings := if p in old(earnings) then old(earnings) else old(earnings)[p := Earning(agentId, earning, o.currency)],
                outbox := old(outbox) + [Event(p, OrderDelivered)])
    {
      hide SettlementRows, InsertAllIgnore, UpsertIncrement, Moved;
      UpdateOrderCommission(p, commission);
      BookSettlement(p, o, commission);
      var net := o.subtotal - commission;
      if net != 0 {
        IncrementBalance(o.restaurantId, o.currency, net);
      }
      InsertEarning(p, Earning(agentId, earning, o.currency));
      UpdateOrderStatus(p, Delivered, DeliveredAt, now);
      assert orders == old(orders)[p := Moved(o.(commission := commission), Delivered, DeliveredAt, now)];
      InsertOutboxEvent(p, OrderDelivered);
    }

    method SettleDeliveredOrder(p: OrderId, agentId: nat, branchBps: Option<int>, shareBps: int, now: int, commits: bool)
      returns (outcome: Outcome)
      modifies this
      ensures Reply(View(), outcome) == Committed(old(View()), SettleDelivered(old(View()), p, agentId, branchBps, shareBps, now), commits)
    {
      hide SettlementRows, InsertAllIgnore, UpsertIncrement, Share;
      if p !in orders {
        return OrderNotFound;
      }
      var o := orders[p];
      if o.agent != Some(agentId) {
        return NotYourTask;
      }
      NoRateNoShare(o.subtotal);
      var commissionBps := 0;
      if branchBps.Some? {
        commissionBps := branchBps.value;
      }
      var commission := Share(o.subtotal, commissionBps);
      var earning := Share(o.deliveryFee, shareBps);

      var start := View();
      SettlementTransaction(p, o, agentId, commission, earning, now);
      if !commits {
        Rollback(start);
        return CommitFailed;
      }
      outcome := Done;
    }

    /** The four conditional bookings of a settlement, one after the other. */
    method BookSettlement(p: OrderId, o: Order, commission: int)
      modifies `ledger
      ensures ledger == InsertAllIgnore(old(ledger), SettlementRows(p, o, commission))
    {
      if o.payment == Cod {
        CreateTransactionIdempotent(CodRow(p, o));
      }
      ghost var afterCod := ledger;
      if commission > 0 {
        CreateTransactionIdempotent(PlatformRow(p, o, Commission, commission, CommissionKey(p)));
      }
      ghost var afterCommission := ledger;
      if o.serviceFee > 0 {
        CreateTransactionIdempotent(PlatformRow(p, o, Adjustment, o.serviceFee, ServiceFeeKey(p)));
      }
      ghost var afterService := ledger;
      if o.deliveryFee > 0 {
        CreateTransactionIdempotent(PlatformRow(p, o, Adjustment, o.deliveryFee, DeliveryFeeKey(p)));
      }
      ghost var del := if o.deliveryFee > 0 then [PlatformRow(p, o, Adjustment, o.deliveryFee, DeliveryFeeKey(p))] else [];
      ghost var svc := if o.serviceFee > 0 then [PlatformRow(p, o, Adjustment, o.serviceFee, ServiceFeeKey(p))] else [];
      ghost var com := if commission > 0 then [PlatformRow(p, o, Commission, commission, CommissionKey(p))] else [];
      ghost var cod := if o.payment == Cod then [CodRow(p, o)] else [];
      InsertAllStep(afterService, del, []);
      InsertAllStep(afterCommission, svc, del);
      InsertAllStep(afterCod, com, svc + del);
      InsertAllStep(old(ledger), cod, com + (svc + del));
      assert del + [] == del;
    }

    method RecordPayout(restaurantId: nat, currency: string, amount: int, keyText: string, commits: bool) returns (outcome: Outcome)
      modifies this
      ensures Reply(View(), outcome) == Committed(old(View()), PayOut(old(View()), restaurantId, currency, amount, keyText), commits)
    {
      var owner := OwnerOfLatest(created, orders, restaurantId);
      if owner.None? || owner.value == 0 {
        return RestaurantNotFound;
      }
      var start := View();
      var decremented := DecrementBalance(restaurantId, currency, amount);
      if !decremented {
        Rollback(start);
        return InsufficientBalance;
      }
      var inserted := CreateTransaction(PayoutRow(owner.value, currency, amount, keyText));
      if !inserted {
        Rollback(start);
        return DuplicateKey;
      }
      if !commits {
        Rollback(start);
        return CommitFailed;
      }
      outcome := Done;
    }
  }

  lemma NoRateNoShare(amount: int)
    ensures Share(amount, 0) == 0
  {
  }

  /** Inserting at most one row and then the rest. */
  lemma InsertAllStep(ledger: seq<Txn>, first: seq<Txn>, rest: seq<Txn>)
    requires |first| <= 1
    ensures InsertAllIgnore(ledger, first + rest)
         == InsertAllIgnore(if |first| == 1 then InsertIgnore(ledger, first[0]) else ledger, rest)
  {
    if |first| == 1 {
      assert (first + rest)[1..] == rest;
    } else {
      assert first + rest == rest;
    }
  }
}
