/** Where the columns of an order row come from. */
module Provenance {
  import opened Common
  import opened OrderStatus
  import opened Tables
  import opened Lifecycle
  import opened Ledger
  import opened History

  /** The row carries the terms of this placement, made at this time. */
  predicate TermsOf(o: Order, r: Placement, placedAt: int) {
    && o.restaurantId == r.restaurantId && o.ownerId == r.ownerId && o.branchId == r.branchId
    && o.customerId == r.customerId && o.payment == r.payment && o.currency == r.currency
    && o.subtotal == r.subtotal && o.deliveryFee == r.deliveryFee && o.serviceFee == SERVICE_FEE_MINOR
    && o.total == r.subtotal + r.deliveryFee + SERVICE_FEE_MINOR
    && o.stamps.createdAt == placedAt
  }

  predicate PlacedAt(es: seq<Timed>, i: nat, p: OrderId) {
    i < |es| && es[i].request.Place? && es[i].request.placement.orderId == p
  }

  predicate Unchanged(o: Order, o': Order) {
    && o'.restaurantId == o.restaurantId && o'.ownerId == o.ownerId && o'.branchId == o.branchId
    && o'.customerId == o.customerId && o'.payment == o.payment && o'.currency == o.currency
    && o'.subtotal == o.subtotal && o'.deliveryFee == o.deliveryFee && o'.serviceFee == o.serviceFee
    && o'.total == o.total && o'.stamps.createdAt == o.stamps.createdAt
  }

  lemma MovedUnchanged(o: Order, to: Status, stamp: Stamp, now: int)
    ensures Unchanged(o, Moved(o, to, stamp, now))
  {
  }

  lemma StepKeepsTerms(db: Db, e: Timed, p: OrderId)
    requires p in db.orders
    ensures p in After(db, e).orders && Unchanged(db.orders[p], After(db, e).orders[p])
  {
    hide HasKey, InsertAllIgnore, UpsertIncrement, FindActive, SettlementRows, ResolveActor, Moved, AssertTransition;
    var o := db.orders[p];
    match e.request {
      case Place(_) =>
      case FinishInit(_, _) => MovedUnchanged(o, Cancelled, CancelledAt, e.now);
      case Deliver(_, _) => MovedUnchanged(o, Placed, NoStamp, e.now);
      case UpdateStatus(_, _, to, _) => assert forall stamp :: Unchanged(o, Moved(o, to, stamp, e.now)) by { ManyMoves(o, to, e.now); }
      case Claim(_, _) => MovedUnchanged(o, Assigned, AssignedAt, e.now);
      case Pick(_, _) => MovedUnchanged(o, Picked, PickedAt, e.now);
      case GoOffline(_) =>
      case Settle(_, _, bps, _) => MovedUnchanged(o.(commission := CommissionOf(o, bps)), Delivered, DeliveredAt, e.now);
      case RecordPayout(_, _, _, _) =>
    }
  }

  lemma ManyMoves(o: Order, to: Status, now: int)
    ensures forall stamp :: Unchanged(o, Moved(o, to, stamp, now))
  {
  }

  lemma StepPlaces(db: Db, e: Timed, p: OrderId)
    requires p !in db.orders && p in After(db, e).orders
    ensures e.request.Place? && e.request.placement.orderId == p && TermsOf(After(db, e).orders[p], e.request.placement, e.now)
  {
    hide HasKey, InsertAllIgnore, UpsertIncrement, FindActive, SettlementRows, AssertTransition, ResolveActor, Moved;
    match e.request {
      case Deliver(_, _) =>
      case Settle(_, _, _, _) =>
      case UpdateStatus(_, _, _, _) =>
      case GoOffline(_) =>
      case _ =>
    }
  }

  /** In every run, whatever happened since, an order still carries the parties and
      amounts of the placement that created it, and its total is their sum. */
  lemma {:induction false} OrderKeepsItsTerms(es: seq<Timed>, p: OrderId) returns (i: nat)
    requires p in Run(EMPTY, es).orders
    ensures PlacedAt(es, i, p) && TermsOf(Run(EMPTY, es).orders[p], es[i].request.placement, es[i].now)
  {
    hide After;
    var n := |es| - 1;
    var db := Run(EMPTY, es[..n]);
    if p in db.orders {
      i := OrderKeepsItsTerms(es[..n], p);
      StepKeepsTerms(db, es[n], p);
    } else {
      i := n;
      StepPlaces(db, es[n], p);
    }
  }

  /** The move is recorded in its own stamp column, at the request's time, and no
      other column changes. */
  predicate StampedMove(o: Order, o': Order, now: int) {
    Transition(o.status, o'.status).Some? && o'.stamps == Stamped(o.stamps, Transition(o.status, o'.status).value.stamp, now)
  }

  predicate Release(o: Order, o': Order, e: Timed) {
    GivenBack(o, o', e) && o'.stamps == o.stamps.(assignedAt := None)
  }

  lemma EndpointMoveIsStamped(o: Order, c: Caller, to: Status, hasReason: bool, now: int)
    requires ResolveActor(c, o).Some?
    requires AssertTransition(o.status, to, ResolveActor(c, o).value, hasReason, o.stamps.createdAt, o.stamps.acceptedAt, now).Allowed?
    ensures var stamp := AssertTransition(o.status, to, ResolveActor(c, o).value, hasReason, o.stamps.createdAt, o.stamps.acceptedAt, now).stamp;
            StampedMove(o, Moved(o, to, stamp, now), now)
  {
    hide ResolveActor, Stamped;
  }

  lemma PaymentIsStamped(db: Db, e: Timed, p: OrderId)
    requires RefsInv(db) && (e.request.Deliver? || e.request.FinishInit?)
    requires p in db.orders && p in After(db, e).orders && After(db, e).orders[p].status != db.orders[p].status
    ensures StampedMove(db.orders[p], After(db, e).orders[p], e.now)
  {
    hide Stamped, FindActive, HasKey, ChargeRow;
    assert e.request.FinishInit? && e.request.p in db.awaitingInit ==> AwaitingOk(db, e.request.p);
  }

  lemma SettlementIsStamped(db: Db, e: Timed, p: OrderId)
    requires p in db.orders && e.request.Settle? && (e.request.p == p && db.orders[p].agent == Some(e.request.agentId) ==> db.orders[p].status == Picked)
    requires p in db.orders && p in After(db, e).orders && After(db, e).orders[p].status != db.orders[p].status
    ensures StampedMove(db.orders[p], After(db, e).orders[p], e.now)
  {
    hide Stamped, InsertAllIgnore, UpsertIncrement, SettlementRows;
  }

  lemma StepIsStamped(db: Db, e: Timed, p: OrderId)
    requires RefsInv(db) && p in db.orders
    requires e.request.Settle? && e.request.p == p && db.orders[p].agent == Some(e.request.agentId) ==> db.orders[p].status == Picked
    requires p in After(db, e).orders && After(db, e).orders[p].status != db.orders[p].status
    ensures StampedMove(db.orders[p], After(db, e).orders[p], e.now) || Release(db.orders[p], After(db, e).orders[p], e)
  {
    hide Stamped;
    match e.request {
      case UpdateStatus(_, c, to, hasReason) => {
        hide ResolveActor, AssertTransition, Transition, StampedMove;
        EndpointMoveIsStamped(db.orders[p], c, to, hasReason, e.now);
      }
      case FinishInit(_, _) => PaymentIsStamped(db, e, p);
      case Deliver(_, _) => PaymentIsStamped(db, e, p);
      case Settle(_, _, _, _) => SettlementIsStamped(db, e, p);
      case _ => {
        hide DecrementIfSufficient, HasKey, OwnerOfLatest;
      }
    }
  }

  /** In every legal run each change of status is stamped with the time it was made,
      in the column the table names, unless it is the release of an assigned order,
      which takes the assignment's stamp and agent away again. */
  lemma EveryMoveIsStamped(owners: nat -> nat, es: seq<Timed>, i: nat, p: OrderId)
    requires i < |es| && Legal(owners, es[..i + 1]) && p in Run(EMPTY, es[..i]).orders
    requires p in Run(EMPTY, es[..i + 1]).orders
    requires Run(EMPTY, es[..i + 1]).orders[p].status != Run(EMPTY, es[..i]).orders[p].status
    ensures var o, o' := Run(EMPTY, es[..i]).orders[p], Run(EMPTY, es[..i + 1]).orders[p];
            StampedMove(o, o', es[i].now) || Release(o, o', es[i])
  {
    assert es[..i + 1][..i] == es[..i];
    LegalIsSound(owners, es[..i]);
    LedgerIsDetermined(owners, es[..i]);
    hide After, StampedMove, Release, OrdersInv, KeysInv, RefsInv;
    StepIsStamped(Run(EMPTY, es[..i]), es[i], p);
  }
}
