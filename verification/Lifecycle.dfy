/**
 What each request does to the region's tables, as a function from the tables
 before to the tables after. A request that is refused or rolled back leaves the
 tables as they were, so every list of requests is a run.
 */
module Lifecycle {
  import opened Common
  import opened OrderStatus
  import opened Tables

  const SERVICE_FEE_MINOR := 1000
  const BPS := 10000

  datatype Role = SystemAdmin | DeliveryAgent | RestaurantUser | CustomerRole

  datatype Caller = Caller(userId: nat, role: Role, restaurantId: Option<nat>, isOwner: bool, branchIds: set<nat>)

  datatype Placement = Placement(
    orderId: OrderId, restaurantId: nat, ownerId: nat, branchId: nat, customerId: nat,
    payment: PaymentMethod, subtotal: int, deliveryFee: int, currency: string)

  /** How the provider answers a freshly placed online order. */
  datatype InitOutcome = SessionCreated | ProviderFailed | ProviderFailedAndVoidFailed

  /** A webhook that parsed and whose signature matched. */
  datatype Webhook = Webhook(isPay: bool, txn: string, orderId: OrderId, success: bool)

  /** What happens around the reconciliation of a recorded webhook: the process may
      die before it, or after its commit but before the event row is stamped. */
  datatype Fate = Runs | TransactionFails | ProcessDies | StampLost

  datatype Request =
    | Place(placement: Placement)
    | FinishInit(p: OrderId, init: InitOutcome)
    | Deliver(webhook: Webhook, fate: Fate)
    | UpdateStatus(p: OrderId, caller: Caller, to: Status, hasReason: bool)
    | Claim(p: OrderId, agentId: nat)
    | Pick(p: OrderId, agentId: nat)
    | GoOffline(agentId: nat)
    | Settle(p: OrderId, agentId: nat, branchBps: Option<int>, shareBps: int)
    | RecordPayout(restaurantId: nat, currency: string, amount: int, keyText: string)

  datatype Outcome =
    | Done | OrderNotFound | NotYourTask | NotInAssignedState | NotReady | OfflineWhilePicked
    | Unauthorised | TransitionRefused(verdict: Verdict) | DuplicateOrder | NothingToInit
    | DuplicateWebhook | ReconcileFailed | RestaurantNotFound | InsufficientBalance | DuplicateKey | CommitFailed

  datatype Reply = Reply(db: Db, outcome: Outcome)

  /** A request whose transaction may fail: it is rolled back to where it began. */
  function Committed(before: Db, reply: Reply, commits: bool): Reply {
    if reply.outcome == Done && !commits then Reply(before, CommitFailed) else reply
  }

  // ----- placement --------------------------------------------------------

  function NewOrder(r: Placement, now: int): Order {
    Order(r.restaurantId, r.ownerId, r.branchId, r.customerId,
          if r.payment == Online then PendingPayment else Placed,
          r.subtotal, r.deliveryFee, SERVICE_FEE_MINOR, r.subtotal + r.deliveryFee + SERVICE_FEE_MINOR, 0,
          r.currency, r.payment, None, Stamps(now, None, None, None, None, None, None, None))
  }

  function PlaceOrder(db: Db, r: Placement, now: int): Reply {
    if r.orderId in db.orders then Reply(db, DuplicateOrder)
    else
      Reply(db.(orders := db.orders[r.orderId := NewOrder(r, now)],
                created := db.created + [r.orderId],
                awaitingInit := if r.payment == Online then db.awaitingInit + {r.orderId} else db.awaitingInit,
                outbox := if r.payment == Online then db.outbox else db.outbox + [Event(r.orderId, OrderPlaced)]), Done)
  }

  /** The tail of a placement: a session row, or a void that writes no event. */
  function FinishPlacement(db: Db, p: OrderId, init: InitOutcome, now: int): Reply {
    if p !in db.awaitingInit || p !in db.orders then Reply(db, NothingToInit)
    else
      var o := db.orders[p];
      var rest := db.(awaitingInit := db.awaitingInit - {p});
      match init
      case SessionCreated =>
        if FindActive(db.sessions, p).Some? then Reply(rest, Done)
        else Reply(rest.(sessions := db.sessions + [Session(p, o.total, o.currency, Initialized, None)]), Done)
      case ProviderFailed => Reply(rest.(orders := db.orders[p := Moved(o, Cancelled, CancelledAt, now)]), Done)
      case ProviderFailedAndVoidFailed => Reply(rest, Done)
  }

  // ----- webhook ----------------------------------------------------------

  function ChargeRow(p: OrderId, o: Order, s: Session, txn: string, success: bool): Txn {
    Txn(Some(p), Charge, if success then TxnSucceeded else TxnFailed, s.amount, s.currency,
        Some(o.customerId), if success then Some(o.ownerId) else None, KashierKey(txn))
  }

  /** None when the transaction rolls back and the error is rethrown. */
  function Reconcile(db: Db, w: Webhook, transactionFails: bool, now: int): Option<Db> {
    if !w.isPay || w.orderId !in db.orders then Some(db)
    else
      var p, o := w.orderId, db.orders[w.orderId];
      match FindActive(db.sessions, p)
      case None => Some(db)
      case Some(i) =>
        var row := ChargeRow(p, o, db.sessions[i], w.txn, w.success);
        if transactionFails || HasKey(db.ledger, row.key) then None
        else
          var charged := db.(
            sessions := db.sessions[i := db.sessions[i].(status := if w.success then Captured else Failed, lastTxn := Some(w.txn))],
            ledger := db.ledger + [row],
            outbox := db.outbox + [Event(p, if w.success then PaymentCompleted else PaymentFailed)]);
          if w.success && o.status == PendingPayment then
            Some(charged.(orders := db.orders[p := Moved(o, Placed, NoStamp, now)],
                          outbox := charged.outbox + [Event(p, OrderPlaced)]))
          else Some(charged)
  }

  function ProcessWebhook(db: Db, w: Webhook, fate: Fate, now: int): Reply {
    if w.txn in db.webhooks then Reply(db, DuplicateWebhook)
    else
      var recorded := db.(webhooks := db.webhooks[w.txn := WebhookRow(false, false)]);
      if fate == ProcessDies then Reply(recorded, ReconcileFailed)
      else
        match Reconcile(recorded, w, fate == TransactionFails, now)
        case None =>
          if fate == StampLost then Reply(recorded, ReconcileFailed)
          else Reply(recorded.(webhooks := db.webhooks[w.txn := WebhookRow(true, true)]), ReconcileFailed)
        case Some(after) =>
          if fate == StampLost then Reply(after, ReconcileFailed)
          else Reply(after.(webhooks := db.webhooks[w.txn := WebhookRow(true, false)]), Done)
  }

  // ----- status changes ---------------------------------------------------

  function ResolveActor(c: Caller, o: Order): Option<Actor> {
    if c.role == SystemAdmin then Some(Admin)
    else if c.role == DeliveryAgent && o.agent == Some(c.userId) then Some(Agent)
    else if c.role == RestaurantUser then
      if c.restaurantId != Some(o.restaurantId) then None
      else if !c.isOwner && o.branchId !in c.branchIds then None
      else Some(RestaurantMember)
    else if c.userId == o.customerId then Some(Customer)
    else None
  }

  function EventForStatus(s: Status): Option<EventKind> {
    match s
    case Accepted => Some(OrderAccepted)
    case Rejected => Some(OrderRejected)
    case Cancelled => Some(OrderCancelled)
    case _ => None
  }

  function ChangeStatus(db: Db, p: OrderId, c: Caller, to: Status, hasReason: bool, now: int): Reply {
    if p !in db.orders then Reply(db, OrderNotFound)
    else
      var o := db.orders[p];
      match ResolveActor(c, o)
      case None => Reply(db, Unauthorised)
      case Some(actor) =>
        match AssertTransition(o.status, to, actor, hasReason, o.stamps.createdAt, o.stamps.acceptedAt, now)
        case Allowed(stamp) =>
          Reply(db.(orders := db.orders[p := Moved(o, to, stamp, now)],
                    outbox := match EventForStatus(to)
                              case None => db.outbox
                              case Some(kind) => db.outbox + [Event(p, kind)]), Done)
        case refused => Reply(db, TransitionRefused(refused))
  }

  // ----- delivery ---------------------------------------------------------

  /** The conditional update on which all claims race. */
  function ClaimReady(db: Db, p: OrderId, agentId: nat, now: int): Reply {
    if p in db.orders && db.orders[p].status == Ready && db.orders[p].agent.None? then
      Reply(db.(orders := db.orders[p := Moved(db.orders[p], Assigned, AssignedAt, now).(agent := Some(agentId))]), Done)
    else Reply(db, NotReady)
  }

  function PickUp(db: Db, p: OrderId, agentId: nat, now: int): Reply {
    if p !in db.orders then Reply(db, OrderNotFound)
    else if db.orders[p].agent != Some(agentId) then Reply(db, NotYourTask)
    else if db.orders[p].status != Assigned then Reply(db, NotInAssignedState)
    else Reply(db.(orders := db.orders[p := Moved(db.orders[p], Picked, PickedAt, now)]), Done)
  }

  predicate HeldBy(o: Order, agentId: nat, s: Status) {
    o.agent == Some(agentId) && o.status == s
  }

  function Released(o: Order, agentId: nat): Order {
    if HeldBy(o, agentId, Assigned) then o.(agent := None, status := Ready, stamps := o.stamps.(assignedAt := None)) else o
  }

  function AgentOffline(db: Db, agentId: nat): Reply {
    if exists p | p in db.orders :: HeldBy(db.orders[p], agentId, Picked) then Reply(db, OfflineWhilePicked)
    else Reply(db.(orders := map p | p in db.orders :: Released(db.orders[p], agentId)), Done)
  }

  // ----- settlement -------------------------------------------------------

  /** floor(amount * bps / 10000); Dafny's division by a positive number floors. */
  function Share(amount: int, bps: int): int {
    amount * bps / BPS
  }

  function CommissionOf(o: Order, branchBps: Option<int>): int {
    match branchBps
    case None => 0
    case Some(bps) => Share(o.subtotal, bps)
  }

  function CodRow(p: OrderId, o: Order): Txn {
    Txn(Some(p), CodCollection, TxnSucceeded, o.total, o.currency, Some(o.customerId), Some(o.ownerId), CodCollectKey(p))
  }

  /** A transfer from the restaurant's owner to the platform. */
  function PlatformRow(p: OrderId, o: Order, kind: TxnKind, amount: int, key: Key): Txn {
    Txn(Some(p), kind, TxnSucceeded, amount, o.currency, Some(o.ownerId), None, key)
  }

  /** What a settlement books, in the order it books it. */
  function SettlementRows(p: OrderId, o: Order, commission: int): seq<Txn> {
    (if o.payment == Cod then [CodRow(p, o)] else []) +
    ((if commission > 0 then [PlatformRow(p, o, Commission, commission, CommissionKey(p))] else []) +
     ((if o.serviceFee > 0 then [PlatformRow(p, o, Adjustment, o.serviceFee, ServiceFeeKey(p))] else []) +
      (if o.deliveryFee > 0 then [PlatformRow(p, o, Adjustment, o.deliveryFee, DeliveryFeeKey(p))] else [])))
  }

  function SettleDelivered(db: Db, p: OrderId, agentId: nat, branchBps: Option<int>, shareBps: int, now: int): Reply {
    if p !in db.orders then Reply(db, OrderNotFound)
    else if db.orders[p].agent != Some(agentId) then Reply(db, NotYourTask)
    else
      var o := db.orders[p];
      var commission := CommissionOf(o, branchBps);
      var net := o.subtotal - commission;
      Reply(db.(
        orders := db.orders[p := Moved(o.(commission := commission), Delivered, DeliveredAt, now)],
        ledger := InsertAllIgnore(db.ledger, SettlementRows(p, o, commission)),
        balances := if net != 0 then UpsertIncrement(db.balances, o.restaurantId, o.currency, net) else db.balances,
        earnings := if p in db.earnings then db.earnings
                    else db.earnings[p := Earning(agentId, Share(o.deliveryFee, shareBps), o.currency)],
        outbox := db.outbox + [Event(p, OrderDelivered)]), Done)
  }

  // ----- payouts ----------------------------------------------------------

  function PayoutRow(ownerId: nat, currency: string, amount: int, keyText: string): Txn {
    Txn(None, Payout, TxnSucceeded, amount, currency, None, Some(ownerId), SuppliedKey(keyText))
  }

  /** Owner id 0 reads as "not found", as `!ownerId` does. */
  function PayOut(db: Db, restaurantId: nat, currency: string, amount: int, keyText: string): Reply {
    match OwnerOfLatest(db.created, db.orders, restaurantId)
    case None => Reply(db, RestaurantNotFound)
    case Some(ownerId) =>
      if ownerId == 0 then Reply(db, RestaurantNotFound)
      else
        match DecrementIfSufficient(db.balances, restaurantId, currency, amount)
        case None => Reply(db, InsufficientBalance)
        case Some(balances) =>
          if HasKey(db.ledger, SuppliedKey(keyText)) then Reply(db, DuplicateKey)
          else Reply(db.(balances := balances, ledger := db.ledger + [PayoutRow(ownerId, currency, amount, keyText)]), Done)
  }

  // ----- runs -------------------------------------------------------------

  datatype Timed = Timed(now: int, request: Request)

  function Exec(db: Db, e: Timed): Reply {
    match e.request
    case Place(r) => PlaceOrder(db, r, e.now)
    case FinishInit(p, init) => FinishPlacement(db, p, init, e.now)
    case Deliver(w, fate) => ProcessWebhook(db, w, fate, e.now)
    case UpdateStatus(p, c, to, hasReason) => ChangeStatus(db, p, c, to, hasReason, e.now)
    case Claim(p, a) => ClaimReady(db, p, a, e.now)
    case Pick(p, a) => PickUp(db, p, a, e.now)
    case GoOffline(a) => AgentOffline(db, a)
    case Settle(p, a, bps, share) => SettleDelivered(db, p, a, bps, share, e.now)
    case RecordPayout(r, c, amount, key) => PayOut(db, r, c, amount, key)
  }

  function After(db: Db, e: Timed): Db {
    Exec(db, e).db.(clock := e.now)
  }

  function Run(db: Db, es: seq<Timed>): Db {
    if |es| == 0 then db else After(Run(db, es[..|es| - 1]), es[|es| - 1])
  }

  const EMPTY := Db(map[], [], {}, [], map[], [], [], map[], [], 0)

  /** What the theorems about money assume of a request, given the tables it meets:
      core reports one owner per restaurant, non-negative prices and rates within
      0..10000; agents do not send `delivered` through the general status endpoint;
      and an order is not settled twice. */
  ghost predicate Sound(owners: nat -> nat, db: Db, e: Timed) {
    match e.request
    case Place(r) => r.ownerId == owners(r.restaurantId) && r.subtotal >= 0 && r.deliveryFee >= 0
    case UpdateStatus(p, c, to, hasReason) => to != Delivered
    case Settle(p, a, bps, share) =>
      && (p in db.orders && db.orders[p].agent == Some(a) ==> db.orders[p].status != Delivered)
      && (bps.Some? ==> 0 <= bps.value <= BPS) && 0 <= share <= BPS
    case _ => true
  }

  ghost predicate SoundRun(owners: nat -> nat, es: seq<Timed>) {
    |es| > 0 ==>
      && SoundRun(owners, es[..|es| - 1])
      && Sound(owners, Run(EMPTY, es[..|es| - 1]), es[|es| - 1])
  }

  /** What the theorems about statuses, stamps and events assume besides: clocks do
      not go back, and an agent delivers an order that was picked up. */
  ghost predicate Permitted(owners: nat -> nat, db: Db, e: Timed) {
    && Sound(owners, db, e)
    && e.now >= db.clock
    && match e.request
       case Settle(p, a, _, _) => p in db.orders && db.orders[p].agent == Some(a) ==> db.orders[p].status == Picked
       case _ => true
  }

  ghost predicate Legal(owners: nat -> nat, es: seq<Timed>) {
    |es| > 0 ==>
      && Legal(owners, es[..|es| - 1])
      && Permitted(owners, Run(EMPTY, es[..|es| - 1]), es[|es| - 1])
  }

  lemma {:induction false} LegalIsSound(owners: nat -> nat, es: seq<Timed>)
    requires Legal(owners, es)
    ensures SoundRun(owners, es)
  {
    hide Run;
    if |es| > 0 {
      LegalIsSound(owners, es[..|es| - 1]);
    }
  }
}
