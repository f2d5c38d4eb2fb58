/**
 Exactly when the two records of money agree, for the requests and the formula
 that the main theorem leaves out.
 */
module BooksExactness {
  import opened Common
  import opened OrderStatus
  import opened Tables
  import opened Lifecycle
  import opened Ledger
  import opened Books
  import opened Charges

  // ----- settling without looking at the status -----------------------------

  lemma {:induction false} InsertAllConcat(ledger: seq<Txn>, a: seq<Txn>, b: seq<Txn>)
    ensures InsertAllIgnore(ledger, a + b) == InsertAllIgnore(InsertAllIgnore(ledger, a), b)
    decreases |a|
  {
    if |a| == 0 {
      assert a + b == b;
    } else {
      assert (a + b)[1..] == a[1..] + b;
      InsertAllConcat(InsertIgnore(ledger, a[0]), a[1..], b);
    }
  }

  /** A delivered order's settlement keys, as far as they were used, are taken. */
  lemma DeliveredKeysTaken(owners: nat -> nat, db: Db, p: OrderId, t: Txn)
    requires Inv(owners, db) && p in db.orders && db.orders[p].status == Delivered
    requires t in SettlementRows(p, db.orders[p], db.orders[p].commission)
    ensures HasKey(db.ledger, t.key)
  {
    assert OrderOk(owners, db, p);
    RowsOfMembers(db.ledger, p);
    assert t in RowsOf(db.ledger, p);
  }

  lemma NoCommissionExpected(p: OrderId, o: Order, s: Option<Session>)
    requires o.commission == 0
    ensures forall t | t in ExpectedRows(p, o, s) :: t.key != CommissionKey(p)
  {
  }

  lemma CommissionKeyFree(owners: nat -> nat, db: Db, p: OrderId)
    requires Inv(owners, db) && p in db.orders && db.orders[p].status == Delivered && db.orders[p].commission == 0
    ensures !HasKey(db.ledger, CommissionKey(p))
  {
    hide MoneyOk, EarningOk, PaymentOk, RefsInv, RowsOf, ExpectedRows;
    assert OrderOk(owners, db, p);
    RowsOfMembers(db.ledger, p);
    NoCommissionExpected(p, db.orders[p], SessionOf(db.sessions, p));
    forall i | 0 <= i < |db.ledger|
      ensures db.ledger[i].key != CommissionKey(p)
    {
      var t := db.ledger[i];
      assert t in db.ledger && KeyOk(db, t);
      assert t.key == CommissionKey(p) ==> t in RowsOf(db.ledger, p);
    }
  }

  /** What a repeated settlement adds to the ledger: a commission, if the first
      run booked none and this one computes one; otherwise nothing. */
  function Repeated(p: OrderId, o: Order, commission: int): seq<Txn> {
    if commission > 0 && o.commission == 0 then [PlatformRow(p, o, Commission, commission, CommissionKey(p))] else []
  }

  lemma RepeatedSettlementLedger(owners: nat -> nat, db: Db, p: OrderId, commission: int)
    requires Inv(owners, db) && p in db.orders && db.orders[p].status == Delivered && commission >= 0
    ensures InsertAllIgnore(db.ledger, SettlementRows(p, db.orders[p], commission))
         == db.ledger + Repeated(p, db.orders[p], commission)
  {
    hide Inv;
    var o, ledger := db.orders[p], db.ledger;
    var cod := if o.payment == Cod then [CodRow(p, o)] else [];
    var com := if commission > 0 then [PlatformRow(p, o, Commission, commission, CommissionKey(p))] else [];
    var fees := (if o.serviceFee > 0 then [PlatformRow(p, o, Adjustment, o.serviceFee, ServiceFeeKey(p))] else [])
              + (if o.deliveryFee > 0 then [PlatformRow(p, o, Adjustment, o.deliveryFee, DeliveryFeeKey(p))] else []);
    var first := SettlementRows(p, o, o.commission);
    forall t | t in first
      ensures HasKey(ledger, t.key)
    {
      DeliveredKeysTaken(owners, db, p, t);
    }
    assert forall t | t in cod :: t in first;
    assert forall t | t in fees :: t in first;
    InsertAllConcat(ledger, cod, com + fees);
    InsertAllTaken(ledger, cod);
    InsertAllConcat(ledger, com, fees);
    var mid := InsertAllIgnore(ledger, com);
    RepeatedCommission(owners, db, p, commission);
    assert forall t | t in fees :: HasKey(ledger, t.key);
    InsertAllTaken(mid, fees);
  }

  lemma RepeatedCommission(owners: nat -> nat, db: Db, p: OrderId, commission: int)
    requires Inv(owners, db) && p in db.orders && db.orders[p].status == Delivered && commission >= 0
    ensures var com := if commission > 0 then [PlatformRow(p, db.orders[p], Commission, commission, CommissionKey(p))] else [];
            var mid := InsertAllIgnore(db.ledger, com);
            mid == db.ledger + Repeated(p, db.orders[p], commission)
            && forall key :: HasKey(db.ledger, key) ==> HasKey(mid, key)
  {
    hide ExpectedRows, RowsOf;
    var o := db.orders[p];
    if commission > 0 {
      var row := PlatformRow(p, o, Commission, commission, CommissionKey(p));
      if o.commission == 0 {
        CommissionKeyFree(owners, db, p);
        InsertAllFresh(db.ledger, [row]);
      } else {
        assert OrderOk(owners, db, p);
        DeliveredKeysTaken(owners, db, p, PlatformRow(p, o, Commission, o.commission, CommissionKey(p)));
        InsertAllTaken(db.ledger, [row]);
        assert db.ledger + [] == db.ledger;
      }
    }
    forall key | HasKey(db.ledger, key)
      ensures HasKey(db.ledger + Repeated(p, o, commission), key)
    {
      var i :| 0 <= i < |db.ledger| && db.ledger[i].key == key;
      assert (db.ledger + Repeated(p, o, commission))[i].key == key;
    }
  }

  /** The settlement looks only at the agent. Whatever the status it meets, the
      books agree afterwards exactly when the order was not delivered before, or
      the repeated increment is zero and so is what the ledger gains. A repeat
      never books a second earning. */
  lemma SettlementKeepsBooksExactlyWhen(owners: nat -> nat, db: Db, p: OrderId, agentId: nat, bps: Option<int>, shareBps: int, now: int)
    requires Inv(owners, db) && BooksAgree(owners, db)
    requires p in db.orders && db.orders[p].agent == Some(agentId)
    requires (bps.Some? ==> 0 <= bps.value <= BPS) && 0 <= shareBps <= BPS
    ensures var o, commission := db.orders[p], CommissionOf(db.orders[p], bps);
            BooksAgree(owners, SettleDelivered(db, p, agentId, bps, shareBps, now).db) <==>
            (o.status != Delivered || (o.subtotal == commission && (commission == 0 || o.commission > 0)))
    ensures db.orders[p].status == Delivered ==> SettleDelivered(db, p, agentId, bps, shareBps, now).db.earnings == db.earnings
  {
    hide OrdersInv, KeysInv, RefsInv, UpsertIncrement, SumOver, OwnerTotal, PaidOut, SettlementRows;
    var o, commission := db.orders[p], CommissionOf(db.orders[p], bps);
    if o.status != Delivered {
      SettleKeepsBooks(owners, db, p, agentId, bps, shareBps, now);
    } else {
      DeliveredTerms(owners, db, p, bps);
      RepeatedSettlementLedger(owners, db, p, commission);
      var db' := SettleDelivered(db, p, agentId, bps, shareBps, now).db;
      assert DeliveredOrders(db') == DeliveredOrders(db);
      forall owner, currency
        ensures BooksAgreeFor(owners, db', owner, currency) <==>
                (owner == o.ownerId && currency == o.currency ==> o.subtotal - commission == -Amounts(Repeated(p, o, commission)))
      {
        assert BooksAgreeFor(owners, db, owner, currency);
        var net := t => RowNet(t, owner, currency);
        SumConcat(db.ledger, Repeated(p, o, commission), DeliveredOrders(db), net);
        SumIf(commission > 0 && o.commission == 0, PlatformRow(p, o, Commission, commission, CommissionKey(p)), DeliveredOrders(db), net);
        PaidOutConcat(db.ledger, Repeated(p, o, commission), owner, currency);
        NothingPaidOut(Repeated(p, o, commission), owner, currency);
        TotalUpsert(db.balances, o.restaurantId, o.currency, o.subtotal - commission, owners, owner, currency);
      }
      assert BooksAgreeFor(owners, db', o.ownerId, o.currency) <==> o.subtotal - commission == -Amounts(Repeated(p, o, commission));
    }
  }

  lemma DeliveredTerms(owners: nat -> nat, db: Db, p: OrderId, bps: Option<int>)
    requires Inv(owners, db) && p in db.orders && (bps.Some? ==> 0 <= bps.value <= BPS)
    ensures var o := db.orders[p];
            && o.ownerId == owners(o.restaurantId) && 0 <= CommissionOf(o, bps) <= o.subtotal && 0 <= o.commission
            && (o.status == Delivered ==> p in db.earnings)
  {
    assert OrderOk(owners, db, p);
    CommissionWithin(owners, db.orders[p], bps);
  }

  // ----- delivering through the status endpoint ----------------------------

  /** An agent who sends `delivered` to the general status endpoint skips the
      settlement. The books still agree exactly when the order is paid in cash,
      because then the ledger is silent about it; an online order's charge is
      counted with no matching balance. */
  lemma StatusEndpointDeliveryKeepsBooksExactlyWhen(owners: nat -> nat, db: Db, p: OrderId, c: Caller, hasReason: bool, now: int)
    requires Inv(owners, db) && BooksAgree(owners, db) && p in db.orders
    requires ChangeStatus(db, p, c, Delivered, hasReason, now).outcome == Done
    ensures BooksAgree(owners, ChangeStatus(db, p, c, Delivered, hasReason, now).db) <==> db.orders[p].payment == Cod
    ensures p !in ChangeStatus(db, p, c, Delivered, hasReason, now).db.earnings
  {
    hide OrdersInv, KeysInv, RefsInv, SumOver, OwnerTotal, PaidOut, ChargeRows, RowsOf;
    var o, db' := db.orders[p], ChangeStatus(db, p, c, Delivered, hasReason, now).db;
    assert o.status == Picked;
    UndeliveredTerms(owners, db, p);
    assert DeliveredOrders(db') == DeliveredOrders(db) + {p};
    forall owner, currency
      ensures BooksAgreeFor(owners, db', owner, currency) <==>
              (o.payment == Online && owner == o.ownerId && currency == o.currency ==> o.total == 0)
    {
      assert BooksAgreeFor(owners, db, owner, currency);
      SumMoreOrders(db.ledger, DeliveredOrders(db), p, t => RowNet(t, owner, currency));
      ChargeNet(owners, db, p, owner, currency);
    }
    assert BooksAgreeFor(owners, db', o.ownerId, o.currency) <==> o.payment == Cod;
  }

  lemma UndeliveredTerms(owners: nat -> nat, db: Db, p: OrderId)
    requires Inv(owners, db) && p in db.orders && db.orders[p].status == Picked
    ensures RowsOf(db.ledger, p) == ChargeRows(p, db.orders[p], SessionOf(db.sessions, p))
    ensures db.orders[p].total > 0 && p !in db.earnings
  {
    assert OrderOk(owners, db, p);
  }

  lemma ChargeNet(owners: nat -> nat, db: Db, p: OrderId, owner: nat, currency: string)
    requires Inv(owners, db) && p in db.orders && db.orders[p].status == Picked
    ensures var o := db.orders[p];
            SumOver(ChargeRows(p, o, SessionOf(db.sessions, p)), {p}, t => RowNet(t, owner, currency))
            == if o.payment == Online && owner == o.ownerId && currency == o.currency then o.total else 0
  {
    var o, s := db.orders[p], SessionOf(db.sessions, p);
    assert OrderOk(owners, db, p);
    SessionOfMembers(db.sessions, p);
    if o.payment == Online {
      assert SessionOk(db, s.value);
      SumOne(ChargeRow(p, o, s.value, s.value.lastTxn.value, true), {p}, t => RowNet(t, owner, currency));
    }
  }

  // ----- the plain credits-minus-debits formula ----------------------------

  /** The reconciliation query of the test suite: every credit less every debit. */
  function PlainNet(t: Txn, owner: nat, currency: string): int {
    if t.status != TxnSucceeded || t.currency != currency then 0
    else (if t.dst == Some(owner) then t.amount else 0) - (if t.src == Some(owner) then t.amount else 0)
  }

  /** What an account paid, as a customer, to some other account. */
  function Spent(t: Txn, owner: nat, currency: string): int {
    if t.status == TxnSucceeded && t.currency == currency && t.src == Some(owner) && t.dst.Some? then t.amount else 0
  }

  lemma {:induction false} PlainPlusSpent(ledger: seq<Txn>, orders: set<OrderId>, owner: nat, currency: string)
    ensures SumOver(ledger, orders, t => RowNet(t, owner, currency))
         == SumOver(ledger, orders, t => PlainNet(t, owner, currency)) + SumOver(ledger, orders, t => Spent(t, owner, currency))
  {
    if |ledger| > 0 {
      PlainPlusSpent(ledger[..|ledger| - 1], orders, owner, currency);
    }
  }

  /** A sum of non-negative parts is zero exactly when every part is. */
  lemma {:induction false} ZeroSum(ledger: seq<Txn>, orders: set<OrderId>, measure: Txn -> int)
    requires forall t | t in ledger && t.orderId.Some? && t.orderId.value in orders :: measure(t) >= 0
    ensures SumOver(ledger, orders, measure) >= 0
    ensures SumOver(ledger, orders, measure) == 0 <==>
            forall t | t in ledger && t.orderId.Some? && t.orderId.value in orders :: measure(t) == 0
  {
    if |ledger| > 0 {
      var n := |ledger| - 1;
      ZeroSum(ledger[..n], orders, measure);
      assert ledger == ledger[..n] + [ledger[n]];
    }
  }

  /** The owner has a delivered order of its own, as a customer. */
  predicate BoughtAsCustomer(db: Db, owner: nat, currency: string) {
    exists p | p in db.orders ::
      db.orders[p].status == Delivered && db.orders[p].customerId == owner && db.orders[p].currency == currency
  }

  lemma ExpectedSpending(p: OrderId, o: Order, s: Option<Session>, t: Txn, owner: nat, currency: string)
    requires t in ExpectedRows(p, o, s) && o.total >= 0
    requires s.Some? ==> s.value.amount == o.total && s.value.currency == o.currency
    ensures Spent(t, owner, currency) >= 0
    ensures Spent(t, owner, currency) != 0 ==> o.customerId == owner && o.currency == currency
  {
  }

  /** Which rows of a delivered order spend. */
  lemma DeliveredSpending(owners: nat -> nat, db: Db, p: OrderId, t: Txn, owner: nat, currency: string)
    requires Inv(owners, db) && p in db.orders && db.orders[p].status == Delivered
    requires t in db.ledger && t.orderId == Some(p)
    ensures Spent(t, owner, currency) >= 0
    ensures Spent(t, owner, currency) != 0 ==> db.orders[p].customerId == owner && db.orders[p].currency == currency
  {
    hide EarningOk, PaymentOk, ExpectedRows, RowsOf, SessionOf, Spent;
    var o, s := db.orders[p], SessionOf(db.sessions, p);
    assert OrderOk(owners, db, p);
    RowsOfMembers(db.ledger, p);
    SessionOfMembers(db.sessions, p);
    assert s.Some? ==> SessionOk(db, s.value);
    ExpectedSpending(p, o, s, t, owner, currency);
  }

  lemma CustomerPayment(owners: nat -> nat, db: Db, p: OrderId) returns (t: Txn)
    requires Inv(owners, db) && p in db.orders && db.orders[p].status == Delivered
    ensures t in db.ledger && t.orderId == Some(p)
    ensures Spent(t, db.orders[p].customerId, db.orders[p].currency) > 0
  {
    hide EarningOk;
    var o, s := db.orders[p], SessionOf(db.sessions, p);
    assert OrderOk(owners, db, p);
    RowsOfMembers(db.ledger, p);
    SessionOfMembers(db.sessions, p);
    assert s.Some? ==> SessionOk(db, s.value);
    t := if o.payment == Cod then CodRow(p, o) else ChargeRow(p, o, s.value, s.value.lastTxn.value, true);
    assert t in ExpectedRows(p, o, s);
  }

  /** In every reachable state the plain formula gives an owner's balance exactly
      when that owner has no delivered order as a customer: such an order is a
      debit of the account in the ledger but never of the restaurant's balance. */
  lemma PlainFormulaAgreesExactlyWhen(owners: nat -> nat, es: seq<Timed>, owner: nat, currency: string)
    requires SoundRun(owners, es)
    ensures var db := Run(EMPTY, es);
            OwnerTotal(db.balances, owners, owner, currency)
            == SumOver(db.ledger, DeliveredOrders(db), t => PlainNet(t, owner, currency)) - PaidOut(db.ledger, owner, currency)
            <==> !BoughtAsCustomer(db, owner, currency)
  {
    hide Run, Legal, RowNet, PlainNet, Spent;
    var db := Run(EMPTY, es);
    LedgerIsDetermined(owners, es);
    BalancesEqualLedger(owners, es);
    assert BooksAgreeFor(owners, db, owner, currency);
    var orders, spent := DeliveredOrders(db), t => Spent(t, owner, currency);
    PlainPlusSpent(db.ledger, orders, owner, currency);
    forall t | t in db.ledger && t.orderId.Some? && t.orderId.value in orders
      ensures spent(t) >= 0 && (!BoughtAsCustomer(db, owner, currency) ==> spent(t) == 0)
    {
      DeliveredSpending(owners, db, t.orderId.value, t, owner, currency);
    }
    ZeroSum(db.ledger, orders, spent);
    if BoughtAsCustomer(db, owner, currency) {
      var p :| p in db.orders && db.orders[p].status == Delivered && db.orders[p].customerId == owner && db.orders[p].currency == currency;
      var t := CustomerPayment(owners, db, p);
      assert spent(t) != 0;
    }
  }
}
