/**
 When each request is granted and what it then does, said over the fields of the
 caller and the rows, without the functions that decide it.
 */
module Answers {
  import opened Common
  import opened OrderStatus
  import opened Tables
  import opened Lifecycle

  // ----- who the caller is to the order ------------------------------------------

  predicate IsAdmin(c: Caller) {
    c.role == SystemAdmin
  }

  predicate IsItsAgent(c: Caller, o: Order) {
    c.role == DeliveryAgent && o.agent == Some(c.userId)
  }

  /** The owner of the order's restaurant, or a member who works at its branch. */
  predicate IsItsStaff(c: Caller, o: Order) {
    c.role == RestaurantUser && c.restaurantId == Some(o.restaurantId) && (c.isOwner || o.branchId in c.branchIds)
  }

  predicate IsItsCustomer(c: Caller, o: Order) {
    c.role != SystemAdmin && c.role != RestaurantUser && !IsItsAgent(c, o) && c.userId == o.customerId
  }

  /** The status endpoint turns away exactly the callers who are nothing to the order. */
  lemma UnauthorisedExactlyWhen(db: Db, p: OrderId, c: Caller, to: Status, hasReason: bool, now: int)
    requires p in db.orders
    ensures var o := db.orders[p];
            ChangeStatus(db, p, c, to, hasReason, now).outcome == Unauthorised
            <==> !(IsAdmin(c) || IsItsAgent(c, o) || IsItsStaff(c, o) || IsItsCustomer(c, o))
  {
    hide AssertTransition;
    assert ResolveActor(c, db.orders[p]).Some? ==> ChangeStatus(db, p, c, to, hasReason, now).outcome != Unauthorised;
  }

  // ----- who may make which move ----------------------------------------------------

  /** A customer may take a placed order back within a minute, while it is not accepted. */
  predicate InTime(o: Order, now: int) {
    o.stamps.acceptedAt == None && now - o.stamps.createdAt <= 60000
  }

  predicate MayMove(o: Order, c: Caller, to: Status, hasReason: bool, now: int) {
    match to
    case Accepted => o.status == Placed && IsItsStaff(c, o)
    case Rejected => o.status == Placed && IsItsStaff(c, o) && hasReason
    case Preparing => o.status == Accepted && IsItsStaff(c, o)
    case Ready => o.status == Preparing && IsItsStaff(c, o)
    case Picked => o.status == Assigned && IsItsAgent(c, o)
    case Delivered => o.status == Picked && IsItsAgent(c, o)
    case Cancelled =>
      || (o.status == PendingPayment && IsItsCustomer(c, o))
      || (o.status == Placed && hasReason && (IsItsStaff(c, o) || IsAdmin(c) || (IsItsCustomer(c, o) && InTime(o, now))))
      || (o.status in {Accepted, Preparing, Ready} && hasReason && (IsItsStaff(c, o) || IsAdmin(c)))
      || (o.status == Assigned && hasReason && IsAdmin(c))
    case _ => false
  }

  lemma ActorIs(c: Caller, o: Order)
    ensures ResolveActor(c, o) == Some(Admin) <==> IsAdmin(c)
    ensures ResolveActor(c, o) == Some(Agent) <==> IsItsAgent(c, o)
    ensures ResolveActor(c, o) == Some(RestaurantMember) <==> IsItsStaff(c, o)
    ensures ResolveActor(c, o) == Some(Customer) <==> IsItsCustomer(c, o)
    ensures ResolveActor(c, o) != Some(System)
  {
  }

  lemma AllowedExactlyWhen(o: Order, c: Caller, to: Status, hasReason: bool, now: int)
    ensures MayMove(o, c, to, hasReason, now) <==>
            ResolveActor(c, o).Some?
            && AssertTransition(o.status, to, ResolveActor(c, o).value, hasReason, o.stamps.createdAt, o.stamps.acceptedAt, now).Allowed?
  {
    ActorIs(c, o);
    hide ResolveActor, IsAdmin, IsItsAgent, IsItsStaff, IsItsCustomer;
    match to {
      case Cancelled =>
      case _ =>
    }
  }

  /** A status change is granted exactly when its caller may make it; it then changes
      the status and stamps of that row and adds at most one event. Refused, it changes
      nothing. */
  lemma StatusChangeDoneExactlyWhen(db: Db, p: OrderId, c: Caller, to: Status, hasReason: bool, now: int)
    ensures var reply := ChangeStatus(db, p, c, to, hasReason, now);
            && (reply.outcome == Done <==> p in db.orders && MayMove(db.orders[p], c, to, hasReason, now))
            && (reply.outcome == OrderNotFound <==> p !in db.orders)
            && (reply.outcome != Done ==> reply.db == db)
            && (reply.outcome == Done ==>
                  && p in reply.db.orders
                  && reply.db.orders == db.orders[p := db.orders[p].(status := to, stamps := reply.db.orders[p].stamps)]
                  && reply.db.outbox == db.outbox + (match to
                                                     case Accepted => [Event(p, OrderAccepted)]
                                                     case Rejected => [Event(p, OrderRejected)]
                                                     case Cancelled => [Event(p, OrderCancelled)]
                                                     case _ => []))
  {
    if p in db.orders {
      AllowedExactlyWhen(db.orders[p], c, to, hasReason, now);
      hide ResolveActor, AssertTransition, MayMove, Stamped;
      assert db.outbox + [] == db.outbox;
    }
  }

  /** Which of the two finer refusals is given, and when. */
  lemma RefusalExactlyWhen(db: Db, p: OrderId, c: Caller, to: Status, hasReason: bool, now: int)
    requires p in db.orders
    ensures var o, outcome := db.orders[p], ChangeStatus(db, p, c, to, hasReason, now).outcome;
            && (outcome == TransitionRefused(CancellationWindowExpired)
                <==> IsItsCustomer(c, o) && o.status == Placed && to == Cancelled && hasReason && !InTime(o, now))
            && (outcome == TransitionRefused(ReasonRequired)
                <==> !hasReason && !MayMove(o, c, to, false, now)
                     && (MayMove(o, c, to, true, now) || (IsItsCustomer(c, o) && o.status == Placed && to == Cancelled)))
  {
    var o := db.orders[p];
    ActorIs(c, o);
    hide ResolveActor, IsAdmin, IsItsAgent, IsItsStaff, IsItsCustomer, Moved;
    match to {
      case Cancelled =>
      case _ =>
    }
  }

  // ----- the agent's requests --------------------------------------------------------

  /** A claim is granted exactly when the row is ready and without an agent; it then
      names the agent who asked. */
  lemma ClaimDoneExactlyWhen(db: Db, p: OrderId, agentId: nat, now: int)
    ensures var reply := ClaimReady(db, p, agentId, now);
            && (reply.outcome == Done <==> p in db.orders && db.orders[p].status == Ready && db.orders[p].agent == None)
            && (reply.outcome != Done ==> reply.db == db)
            && (reply.outcome == Done ==>
                  var o := db.orders[p];
                  reply.db == db.(orders := db.orders[p := o.(status := Assigned, agent := Some(agentId), stamps := o.stamps.(assignedAt := Some(now)))]))
  {
  }

  /** A pick-up is granted exactly to the agent of an assigned order. */
  lemma PickDoneExactlyWhen(db: Db, p: OrderId, agentId: nat, now: int)
    ensures var reply := PickUp(db, p, agentId, now);
            && (reply.outcome == Done <==> p in db.orders && db.orders[p].agent == Some(agentId) && db.orders[p].status == Assigned)
            && (reply.outcome == NotYourTask <==> p in db.orders && db.orders[p].agent != Some(agentId))
            && (reply.outcome != Done ==> reply.db == db)
            && (reply.outcome == Done ==>
                  var o := db.orders[p];
                  reply.db == db.(orders := db.orders[p := o.(status := Picked, stamps := o.stamps.(pickedAt := Some(now)))]))
  {
  }

  /** Going offline is refused exactly while the agent carries an order; else every
      order assigned to the agent is ready again for anyone, and no other row changes. */
  lemma OfflineDoneExactlyWhen(db: Db, agentId: nat)
    ensures var reply := AgentOffline(db, agentId);
            && (reply.outcome == Done <==> forall p | p in db.orders :: !(db.orders[p].agent == Some(agentId) && db.orders[p].status == Picked))
            && (reply.outcome != Done ==> reply.db == db)
            && reply.db == db.(orders := reply.db.orders) && reply.db.orders.Keys == db.orders.Keys
            && (reply.outcome == Done ==>
                  forall p | p in db.orders ::
                    var o := db.orders[p];
                    reply.db.orders[p] == if o.agent == Some(agentId) && o.status == Assigned
                                          then o.(status := Ready, agent := None, stamps := o.stamps.(assignedAt := None)) else o)
  {
    assert forall p | p in db.orders :: HeldBy(db.orders[p], agentId, Picked) <==> db.orders[p].agent == Some(agentId) && db.orders[p].status == Picked;
  }

  // ----- the tail of a placement ------------------------------------------------------

  /** The provider's answer settles a placement once: a session over the total if none
      is active, a cancelled order if it failed, nothing more if the voiding failed too. */
  lemma InitDoneExactlyWhen(db: Db, p: OrderId, init: InitOutcome, now: int)
    ensures var reply := FinishPlacement(db, p, init, now);
            && (reply.outcome == Done <==> p in db.awaitingInit && p in db.orders)
            && (reply.outcome != Done ==> reply.db == db)
            && (reply.outcome == Done ==>
                  var o := db.orders[p];
                  var active := exists i | 0 <= i < |db.sessions| ::
                                  db.sessions[i].orderId == p && (db.sessions[i].status == Initialized || db.sessions[i].status == Pending);
                  reply.db == db.(
                    awaitingInit := db.awaitingInit - {p},
                    orders := if init == ProviderFailed
                              then db.orders[p := o.(status := Cancelled, stamps := o.stamps.(cancelledAt := Some(now)))] else db.orders,
                    sessions := if init == SessionCreated && !active
                                then db.sessions + [Session(p, o.total, o.currency, Initialized, None)] else db.sessions))
  {
    assert forall s | s in db.sessions :: exists i :: 0 <= i < |db.sessions| && db.sessions[i] == s;
    var found := FindActive(db.sessions, p);
    assert forall i | 0 <= i < |db.sessions| :: db.sessions[i] in db.sessions;
    assert found.Some? ==> db.sessions[found.value].orderId == p;
  }

  /** The first statuses of an order, and the event of a cash order. */
  lemma PlaceDoneExactlyWhen(db: Db, r: Placement, now: int)
    ensures var reply := PlaceOrder(db, r, now);
            && (reply.outcome == Done <==> r.orderId !in db.orders)
            && (reply.outcome != Done ==> reply.db == db)
            && (reply.outcome == Done ==>
                  var order := Order(r.restaurantId, r.ownerId, r.branchId, r.customerId,
                                     if r.payment == Online then PendingPayment else Placed,
                                     r.subtotal, r.deliveryFee, 1000, r.subtotal + r.deliveryFee + 1000, 0, r.currency, r.payment,
                                     None, Stamps(now, None, None, None, None, None, None, None));
                  reply.db == db.(
                    orders := db.orders[r.orderId := order], created := db.created + [r.orderId],
                    awaitingInit := db.awaitingInit + (if r.payment == Online then {r.orderId} else {}),
                    outbox := db.outbox + (if r.payment == Cod then [Event(r.orderId, OrderPlaced)] else [])))
  {
    assert db.outbox + [] == db.outbox && db.awaitingInit + {} == db.awaitingInit;
  }

  // ----- the reconciliation of a webhook ------------------------------------------------

  predicate ActiveFor(s: Session, p: OrderId) {
    s.orderId == p && (s.status == Initialized || s.status == Pending)
  }

  predicate LatestActive(sessions: seq<Session>, i: nat, p: OrderId) {
    i < |sessions| && ActiveFor(sessions[i], p) && forall j | i < j < |sessions| :: !ActiveFor(sessions[j], p)
  }

  lemma {:induction false} FindActiveIsLatest(sessions: seq<Session>, p: OrderId)
    ensures FindActive(sessions, p).None? <==> forall s | s in sessions :: !ActiveFor(s, p)
    ensures forall i: nat :: FindActive(sessions, p) == Some(i) <==> LatestActive(sessions, i, p)
  {
    assert forall i | 0 <= i < |sessions| :: sessions[i] in sessions;
    if |sessions| > 0 {
      FindActiveIsLatest(sessions[..|sessions| - 1], p);
    }
  }

  /** A recorded webhook is booked exactly when it is a payment for an order we know with
      an active session, its transaction commits, and its key is new. It then closes the
      latest such session, books one charge over the session, and announces it; a payment
      also places an order that was waiting for it. */
  lemma ReconcileExactlyWhen(db: Db, w: Webhook, transactionFails: bool, now: int)
    ensures var after, p := Reconcile(db, w, transactionFails, now), w.orderId;
            var due := w.isPay && p in db.orders && exists s :: s in db.sessions && ActiveFor(s, p);
            var free := forall t | t in db.ledger :: t.key != KashierKey(w.txn);
            && (after.None? <==> due && (transactionFails || !free))
            && (!due ==> after == Some(db))
            && (due && !transactionFails && free ==>
                  forall i: nat | LatestActive(db.sessions, i, p) ::
                    var o, s := db.orders[p], db.sessions[i];
                    var placed := w.success && o.status == PendingPayment;
                    after == Some(db.(
                      sessions := db.sessions[i := s.(status := if w.success then Captured else Failed, lastTxn := Some(w.txn))],
                      ledger := db.ledger + [Txn(Some(p), Charge, if w.success then TxnSucceeded else TxnFailed, s.amount, s.currency,
                                                 Some(o.customerId), if w.success then Some(o.ownerId) else None, KashierKey(w.txn))],
                      orders := if placed then db.orders[p := o.(status := Placed)] else db.orders,
                      outbox := db.outbox + [Event(p, if w.success then PaymentCompleted else PaymentFailed)]
                                + if placed then [Event(p, OrderPlaced)] else [])))
  {
    FindActiveIsLatest(db.sessions, w.orderId);
    KeyIsFree(db.ledger, KashierKey(w.txn));
    hide FindActive, HasKey, LatestActive;
    var told := db.outbox + [Event(w.orderId, if w.success then PaymentCompleted else PaymentFailed)];
    assert told + [] == told;
  }

  // ----- payouts -----------------------------------------------------------------------

  predicate OrderOfAt(created: seq<OrderId>, orders: map<OrderId, Order>, k: nat, restaurantId: nat) {
    k < |created| && created[k] in orders && orders[created[k]].restaurantId == restaurantId
  }

  /** The owner that the latest order of a restaurant names. */
  predicate LatestOwner(created: seq<OrderId>, orders: map<OrderId, Order>, restaurantId: nat, owner: nat) {
    exists k | 0 <= k < |created| ::
      && OrderOfAt(created, orders, k, restaurantId) && orders[created[k]].ownerId == owner
      && forall j | k < j < |created| :: !OrderOfAt(created, orders, j, restaurantId)
  }

  lemma {:induction false} OwnerOfLatestIs(created: seq<OrderId>, orders: map<OrderId, Order>, restaurantId: nat)
    ensures OwnerOfLatest(created, orders, restaurantId).None? ==> forall k: nat :: !OrderOfAt(created, orders, k, restaurantId)
    ensures forall owner: nat :: OwnerOfLatest(created, orders, restaurantId) == Some(owner) <==> LatestOwner(created, orders, restaurantId, owner)
  {
    if |created| > 0 {
      var n := |created| - 1;
      OwnerOfLatestIs(created[..n], orders, restaurantId);
      assert forall k: nat | k < n :: OrderOfAt(created, orders, k, restaurantId) <==> OrderOfAt(created[..n], orders, k, restaurantId);
      if OrderOfAt(created, orders, n, restaurantId) {
        assert LatestOwner(created, orders, restaurantId, orders[created[n]].ownerId);
      } else {
        forall owner: nat
          ensures LatestOwner(created, orders, restaurantId, owner) <==> LatestOwner(created[..n], orders, restaurantId, owner)
        {
          LatestOwnerBefore(created, orders, restaurantId, owner);
        }
      }
    }
  }

  lemma LatestOwnerBefore(created: seq<OrderId>, orders: map<OrderId, Order>, restaurantId: nat, owner: nat)
    requires |created| > 0 && !OrderOfAt(created, orders, |created| - 1, restaurantId)
    ensures LatestOwner(created, orders, restaurantId, owner) <==> LatestOwner(created[..|created| - 1], orders, restaurantId, owner)
  {
    var n := |created| - 1;
    var earlier := created[..n];
    assert forall k: nat | k < n :: OrderOfAt(created, orders, k, restaurantId) <==> OrderOfAt(earlier, orders, k, restaurantId);
    if LatestOwner(created, orders, restaurantId, owner) {
      var k :| 0 <= k < |created| && OrderOfAt(created, orders, k, restaurantId) && orders[created[k]].ownerId == owner
               && forall j | k < j < |created| :: !OrderOfAt(created, orders, j, restaurantId);
      assert k < n && OrderOfAt(earlier, orders, k, restaurantId) && orders[earlier[k]].ownerId == owner;
    }
    if LatestOwner(earlier, orders, restaurantId, owner) {
      var k :| 0 <= k < n && OrderOfAt(earlier, orders, k, restaurantId) && orders[earlier[k]].ownerId == owner
               && forall j | k < j < n :: !OrderOfAt(earlier, orders, j, restaurantId);
      assert OrderOfAt(created, orders, k, restaurantId) && orders[created[k]].ownerId == owner;
    }
  }

  predicate OfAccount(b: BalanceRow, restaurantId: nat, currency: string) {
    b.restaurantId == restaurantId && b.currency == currency
  }

  ghost predicate OneRowEach(rows: seq<BalanceRow>) {
    forall i, j | 0 <= i < j < |rows| :: (rows[i].restaurantId, rows[i].currency) != (rows[j].restaurantId, rows[j].currency)
  }

  /** Some row of the account holds at least the amount. */
  predicate Covers(rows: seq<BalanceRow>, restaurantId: nat, currency: string, amount: int) {
    exists b | b in rows :: OfAccount(b, restaurantId, currency) && b.balance >= amount
  }

  /** The account's row has fallen by the amount, and no other row has changed. */
  predicate FallsBy(rows: seq<BalanceRow>, rows': seq<BalanceRow>, restaurantId: nat, currency: string, amount: int) {
    && |rows'| == |rows|
    && forall i | 0 <= i < |rows| ::
         rows'[i] == if OfAccount(rows[i], restaurantId, currency) then rows[i].(balance := rows[i].balance - amount) else rows[i]
  }

  lemma DecrementExactlyWhen(rows: seq<BalanceRow>, restaurantId: nat, currency: string, amount: int)
    requires OneRowEach(rows)
    ensures var after := DecrementIfSufficient(rows, restaurantId, currency, amount);
            && (after.Some? <==> Covers(rows, restaurantId, currency, amount))
            && (after.Some? ==> FallsBy(rows, after.value, restaurantId, currency, amount))
  {
    var found := FindBalance(rows, restaurantId, currency);
    if found.Some? {
      var i := found.value;
      assert rows[i] in rows;
      forall b | b in rows && OfAccount(b, restaurantId, currency)
        ensures b == rows[i]
      {
        var j :| 0 <= j < |rows| && rows[j] == b;
      }
    }
  }

  /** A payout is granted exactly when the restaurant's latest order names an owner, its
      balance covers the amount, and the key is new; the refusals come in that order. It
      takes the amount from that balance and books one row to that owner. */
  lemma PayoutDoneExactlyWhen(db: Db, restaurantId: nat, currency: string, amount: int, keyText: string)
    requires OneRowEach(db.balances)
    ensures var reply := PayOut(db, restaurantId, currency, amount, keyText);
            var owned := exists owner :: owner != 0 && LatestOwner(db.created, db.orders, restaurantId, owner);
            var covered := Covers(db.balances, restaurantId, currency, amount);
            var free := forall t | t in db.ledger :: t.key != SuppliedKey(keyText);
            && (reply.outcome == Done <==> owned && covered && free)
            && (reply.outcome == RestaurantNotFound <==> !owned)
            && (reply.outcome == InsufficientBalance <==> owned && !covered)
            && (reply.outcome == DuplicateKey <==> owned && covered && !free)
            && (reply.outcome != Done ==> reply.db == db)
            && (reply.outcome == Done ==>
                  && reply.db == db.(balances := reply.db.balances, ledger := reply.db.ledger)
                  && FallsBy(db.balances, reply.db.balances, restaurantId, currency, amount)
                  && forall owner | LatestOwner(db.created, db.orders, restaurantId, owner) ::
                       reply.db.ledger == db.ledger + [Txn(None, Payout, TxnSucceeded, amount, currency, None, Some(owner), SuppliedKey(keyText))])
  {
    OwnerOfLatestIs(db.created, db.orders, restaurantId);
    DecrementExactlyWhen(db.balances, restaurantId, currency, amount);
    KeyIsFree(db.ledger, SuppliedKey(keyText));
    hide LatestOwner, Covers, FallsBy, OneRowEach, DecrementIfSufficient, OwnerOfLatest, HasKey;
  }

  lemma KeyIsFree(ledger: seq<Txn>, key: Key)
    ensures HasKey(ledger, key) <==> !forall t | t in ledger :: t.key != key
  {
    assert forall i | 0 <= i < |ledger| :: ledger[i] in ledger;
  }
}
