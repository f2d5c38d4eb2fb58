/**
 The rows of one region's hot database, and the table operations the
 repositories run on them. `orders.id` and `orders.public_id` are in one-to-one
 correspondence, so both are the model's OrderId.
 */
module Tables {
  import opened Common
  import opened OrderStatus

  type OrderId = nat

  datatype PaymentMethod = Online | Cod

  datatype Stamps = Stamps(
    createdAt: int, acceptedAt: Option<int>, rejectedAt: Option<int>, readyAt: Option<int>,
    assignedAt: Option<int>, pickedAt: Option<int>, deliveredAt: Option<int>, cancelledAt: Option<int>)

  datatype Order = Order(
    restaurantId: nat, ownerId: nat, branchId: nat, customerId: nat, status: Status,
    subtotal: int, deliveryFee: int, serviceFee: int, total: int, commission: int,
    currency: string, payment: PaymentMethod, agent: Option<nat>, stamps: Stamps)

  datatype SessionStatus = Initialized | Pending | Authorized | Captured | Failed | Expired | Voided

  /** `lastTxn` is the transaction id inside `raw_last_payload`. */
  datatype Session = Session(orderId: OrderId, amount: int, currency: string, status: SessionStatus, lastTxn: Option<string>)

  /** One row of the inbound webhook log, keyed by the provider's transaction id. */
  datatype WebhookRow = WebhookRow(processed: bool, hasError: bool)

  datatype TxnKind = Charge | CodCollection | Commission | Adjustment | Payout
  datatype TxnStatus = TxnSucceeded | TxnFailed

  /** The texts that end up in `transactions.idempotency_key`. A payout's key is
      the caller's header; it is assumed not to spell one of the service's own keys. */
  datatype Key =
    | CodCollectKey(order: OrderId) | CommissionKey(order: OrderId)
    | ServiceFeeKey(order: OrderId) | DeliveryFeeKey(order: OrderId)
    | KashierKey(txn: string) | SuppliedKey(text: string)

  datatype Txn = Txn(
    orderId: Option<OrderId>, kind: TxnKind, status: TxnStatus, amount: int, currency: string,
    src: Option<nat>, dst: Option<nat>, key: Key)

  datatype BalanceRow = BalanceRow(restaurantId: nat, currency: string, balance: int)

  datatype Earning = Earning(agentId: nat, amount: int, currency: string)

  datatype EventKind =
    | OrderPlaced | OrderAccepted | OrderRejected | OrderDelivered | OrderCancelled
    | PaymentCompleted | PaymentFailed

  datatype Event = Event(order: OrderId, kind: EventKind)

  /** A region's tables. `created` lists the orders in id order; `awaitingInit`
      holds the placements that have committed their order but have not yet heard
      from the payment provider; `clock` is the time of the latest request. */
  datatype Db = Db(
    orders: map<OrderId, Order>, created: seq<OrderId>, awaitingInit: set<OrderId>,
    sessions: seq<Session>, webhooks: map<string, WebhookRow>, ledger: seq<Txn>,
    balances: seq<BalanceRow>, earnings: map<OrderId, Earning>, outbox: seq<Event>, clock: int)

  // ----- orders -----------------------------------------------------------

  function Stamped(s: Stamps, stamp: Stamp, now: int): Stamps {
    match stamp
    case NoStamp => s
    case AcceptedAt => s.(acceptedAt := Some(now))
    case RejectedAt => s.(rejectedAt := Some(now))
    case ReadyAt => s.(readyAt := Some(now))
    case AssignedAt => s.(assignedAt := Some(now))
    case PickedAt => s.(pickedAt := Some(now))
    case DeliveredAt => s.(deliveredAt := Some(now))
    case CancelledAt => s.(cancelledAt := Some(now))
  }

  /** The row after `updateOrderStatus`. */
  function Moved(o: Order, to: Status, stamp: Stamp, now: int): Order {
    o.(status := to, stamps := Stamped(o.stamps, stamp, now))
  }

  /** The owner snapshot of the restaurant's latest order. */
  function OwnerOfLatest(created: seq<OrderId>, orders: map<OrderId, Order>, restaurantId: nat): Option<nat> {
    if |created| == 0 then None
    else
      var last := created[|created| - 1];
      if last in orders && orders[last].restaurantId == restaurantId then Some(orders[last].ownerId)
      else OwnerOfLatest(created[..|created| - 1], orders, restaurantId)
  }

  // ----- payment sessions -------------------------------------------------

  predicate Active(s: Session) {
    s.status == Initialized || s.status == Pending
  }

  /** The position of the latest active session of an order. */
  function FindActive(sessions: seq<Session>, p: OrderId): (r: Option<nat>)
    ensures r.Some? ==> r.value < |sessions| && sessions[r.value].orderId == p && Active(sessions[r.value])
    ensures r.None? ==> forall s | s in sessions :: !(s.orderId == p && Active(s))
  {
    if |sessions| == 0 then None
    else
      var n := |sessions| - 1;
      if sessions[n].orderId == p && Active(sessions[n]) then Some(n) else FindActive(sessions[..n], p)
  }

  // ----- ledger -----------------------------------------------------------

  predicate HasKey(ledger: seq<Txn>, key: Key) {
    exists i | 0 <= i < |ledger| :: ledger[i].key == key
  }

  /** INSERT ... ON CONFLICT (idempotency_key) DO NOTHING. */
  function InsertIgnore(ledger: seq<Txn>, t: Txn): seq<Txn> {
    if HasKey(ledger, t.key) then ledger else ledger + [t]
  }

  function InsertAllIgnore(ledger: seq<Txn>, rows: seq<Txn>): seq<Txn>
    decreases |rows|
  {
    if |rows| == 0 then ledger else InsertAllIgnore(InsertIgnore(ledger, rows[0]), rows[1..])
  }

  // ----- balances ---------------------------------------------------------

  function FindBalance(rows: seq<BalanceRow>, restaurantId: nat, currency: string): (r: Option<nat>)
    ensures r.Some? ==> r.value < |rows| && rows[r.value].restaurantId == restaurantId && rows[r.value].currency == currency
    ensures r.None? ==> forall b | b in rows :: !(b.restaurantId == restaurantId && b.currency == currency)
  {
    if |rows| == 0 then None
    else
      var n := |rows| - 1;
      if rows[n].restaurantId == restaurantId && rows[n].currency == currency then Some(n)
      else FindBalance(rows[..n], restaurantId, currency)
  }

  /** INSERT ... ON CONFLICT (restaurant_id, currency) DO UPDATE SET balance = balance + delta. */
  function UpsertIncrement(rows: seq<BalanceRow>, restaurantId: nat, currency: string, delta: int): seq<BalanceRow> {
    match FindBalance(rows, restaurantId, currency)
    case None => rows + [BalanceRow(restaurantId, currency, delta)]
    case Some(i) => rows[i := rows[i].(balance := rows[i].balance + delta)]
  }

  /** The conditional decrement; None when no row has enough. */
  function DecrementIfSufficient(rows: seq<BalanceRow>, restaurantId: nat, currency: string, amount: int): Option<seq<BalanceRow>> {
    match FindBalance(rows, restaurantId, currency)
    case None => None
    case Some(i) =>
      if rows[i].balance >= amount then Some(rows[i := rows[i].(balance := rows[i].balance - amount)]) else None
  }
}
