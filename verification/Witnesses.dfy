/**
 Runs that show what can happen: that orders of both kinds are delivered, and that
 the failures which the exact conditions name do occur.
 */
module Witnesses {
  import opened Common
  import opened OrderStatus
  import opened Tables
  import opened Lifecycle
  import opened Ledger
  import opened Books
  import opened BooksExactness
  import opened Charges
  import opened History
  import opened Provenance
  import opened Progress

  predicate Acceptable(owners: nat -> nat, r: Placement) {
    r.ownerId == owners(r.restaurantId) && r.subtotal >= 0 && r.deliveryFee >= 0
  }

  function PlaceSteps(r: Placement): seq<Timed> {
    [Timed(0, Place(r))]
  }

  /** An online order up to its payment session. */
  function InitSteps(r: Placement): seq<Timed> {
    [Timed(0, Place(r))] + [Timed(0, FinishInit(r.orderId, SessionCreated))]
  }

  lemma AfterPlace(owners: nat -> nat, r: Placement)
    requires Acceptable(owners, r)
    ensures Legal(owners, PlaceSteps(r)) && Run(EMPTY, PlaceSteps(r)) == After(EMPTY, Timed(0, Place(r)))
  {
    assert PlaceSteps(r) == [] + PlaceSteps(r);
    assert Run(EMPTY, []) == EMPTY;
    Extends(owners, [], Timed(0, Place(r)));
  }

  function OpenSession(r: Placement): Session {
    Session(r.orderId, r.subtotal + r.deliveryFee + SERVICE_FEE_MINOR, r.currency, Initialized, None)
  }

  lemma AfterInit(owners: nat -> nat, r: Placement)
    requires Acceptable(owners, r) && r.payment == Online
    ensures Legal(owners, InitSteps(r))
    ensures var db := Run(EMPTY, InitSteps(r));
            && db.orders == map[r.orderId := NewOrder(r, 0)] && db.sessions == [OpenSession(r)]
            && db.ledger == [] && db.webhooks == map[] && db.clock == 0
  {
    AfterPlace(owners, r);
    Extends(owners, PlaceSteps(r), Timed(0, FinishInit(r.orderId, SessionCreated)));
  }

  lemma FindsOpenSession(r: Placement)
    ensures FindActive([OpenSession(r)], r.orderId) == Some(0)
  {
  }

  /** A placement that becomes a placed order: a cash order at once, an online order
      once its payment is captured. */
  lemma PlacementsArePlaced(owners: nat -> nat, r: Placement, txn: string) returns (es: seq<Timed>)
    requires Acceptable(owners, r)
    ensures Legal(owners, es) && r.orderId in Run(EMPTY, es).orders
    ensures var o := Run(EMPTY, es).orders[r.orderId]; o.status == Placed && Unchanged(NewOrder(r, 0), o)
  {
    if r.payment == Cod {
      AfterPlace(owners, r);
      es := PlaceSteps(r);
    } else {
      AfterInit(owners, r);
      var paid := Timed(0, Deliver(Webhook(true, txn, r.orderId, true), Runs));
      es := InitSteps(r) + [paid];
      hide Run, Legal;
      Extends(owners, InitSteps(r), paid);
      FindsOpenSession(r);
      assert !HasKey([], KashierKey(txn));
    }
  }

  /** Orders of both kinds are delivered in some legal run. */
  lemma DeliveriesHappen(owners: nat -> nat, r: Placement, txn: string, target: Status) returns (es: seq<Timed>)
    requires Acceptable(owners, r) && (UnderWay(target) || target == Delivered)
    ensures Legal(owners, es) && r.orderId in Run(EMPTY, es).orders
    ensures var o := Run(EMPTY, es).orders[r.orderId]; o.status == target && Unchanged(NewOrder(r, 0), o)
  {
    hide Run, Legal, NewOrder;
    var placed := PlacementsArePlaced(owners, r, txn);
    var more := CanReach(owners, placed, r.orderId, target);
    es := placed + more;
  }

  lemma BooksAgreeSoFar(owners: nat -> nat, es: seq<Timed>)
    requires Legal(owners, es)
    ensures Inv(owners, Run(EMPTY, es)) && BooksAgree(owners, Run(EMPTY, es))
  {
    LegalIsSound(owners, es);
    LedgerIsDetermined(owners, es);
    BalancesEqualLedger(owners, es);
  }

  /** For any order that is worth something: a legal run delivers it, and a second
      settlement by its agent then sets balance and ledger apart. */
  lemma SecondSettlementBreaksBooks(owners: nat -> nat, r: Placement, txn: string) returns (es: seq<Timed>, a: nat)
    requires Acceptable(owners, r) && r.subtotal > 0
    ensures Legal(owners, es)
    ensures var db := Run(EMPTY, es);
            var again := SettleDelivered(db, r.orderId, a, None, 0, db.clock);
            BooksAgree(owners, db) && again.outcome == Done && !BooksAgree(owners, again.db)
  {
    es := DeliveriesHappen(owners, r, txn, Delivered);
    var db := Run(EMPTY, es);
    hide Run, Legal, Inv, BooksAgree;
    HistoryIsConsistent(owners, es, r.orderId);
    a := db.orders[r.orderId].agent.value;
    BooksAgreeSoFar(owners, es);
    SettlementKeepsBooksExactlyWhen(owners, db, r.orderId, a, None, 0, db.clock);
  }

  lemma EndpointAcceptsAgent(db: Db, p: OrderId, a: nat)
    requires p in db.orders && db.orders[p].status == Picked && db.orders[p].agent == Some(a)
    ensures ChangeStatus(db, p, Caller(a, DeliveryAgent, None, false, {}), Delivered, false, db.clock).outcome == Done
  {
  }

  /** For any online order: a legal run brings it to `picked`, and its agent's
      `delivered` to the general status endpoint is accepted and sets the books apart. */
  lemma StatusEndpointBreaksBooks(owners: nat -> nat, r: Placement, txn: string) returns (es: seq<Timed>, a: nat)
    requires Acceptable(owners, r) && r.payment == Online
    ensures Legal(owners, es)
    ensures var db := Run(EMPTY, es);
            var direct := ChangeStatus(db, r.orderId, Caller(a, DeliveryAgent, None, false, {}), Delivered, false, db.clock);
            BooksAgree(owners, db) && direct.outcome == Done && !BooksAgree(owners, direct.db)
  {
    es := DeliveriesHappen(owners, r, txn, Picked);
    var db := Run(EMPTY, es);
    hide Run, Legal, Inv, BooksAgree, AssertTransition, Transition;
    HistoryIsConsistent(owners, es, r.orderId);
    a := db.orders[r.orderId].agent.value;
    BooksAgreeSoFar(owners, es);
    hide ChangeStatus, NewOrder, HistoryOk;
    EndpointAcceptsAgent(db, r.orderId, a);
    StatusEndpointDeliveryKeepsBooksExactlyWhen(owners, db, r.orderId, Caller(a, DeliveryAgent, None, false, {}), false, db.clock);
  }

  /** The provider reports the payment of an online order, the transaction that would
      book it fails, and every retry of the report is taken for a duplicate. */
  function LostPayment(r: Placement, txn: string, retries: nat): seq<Timed> {
    var report := Webhook(true, txn, r.orderId, true);
    if retries == 0 then InitSteps(r) + [Timed(0, Deliver(report, TransactionFails))]
    else LostPayment(r, txn, retries - 1) + [Timed(0, Deliver(report, Runs))]
  }

  /** However often the provider retries, the order stays unpaid and unbooked. */
  lemma {:induction false} PaymentIsLost(owners: nat -> nat, r: Placement, txn: string, retries: nat)
    requires Acceptable(owners, r) && r.payment == Online
    ensures Legal(owners, LostPayment(r, txn, retries))
    ensures var db := Run(EMPTY, LostPayment(r, txn, retries));
            && r.orderId in db.orders && db.orders[r.orderId].status == PendingPayment
            && txn in db.webhooks && db.ledger == [] && db.clock == 0
  {
    var report := Webhook(true, txn, r.orderId, true);
    if retries == 0 {
      AfterInit(owners, r);
      hide Run, Legal;
      Extends(owners, InitSteps(r), Timed(0, Deliver(report, TransactionFails)));
      FindsOpenSession(r);
    } else {
      PaymentIsLost(owners, r, txn, retries - 1);
      hide Run, Legal;
      Extends(owners, LostPayment(r, txn, retries - 1), Timed(0, Deliver(report, Runs)));
    }
  }
}
