/**
 The running balances and the ledger are two records of the same money. They
 agree for every owner and currency in every reachable state.
 */
module Books {
  import opened Common
  import opened OrderStatus
  import opened Tables
  import opened Lifecycle
  import opened Ledger

  /** What the balance table says is owed to an owner, over all its restaurants. */
  ghost function OwnerTotal(rows: seq<BalanceRow>, owners: nat -> nat, owner: nat, currency: string): int {
    if |rows| == 0 then 0
    else
      var last := rows[|rows| - 1];
      OwnerTotal(rows[..|rows| - 1], owners, owner, currency)
      + if owners(last.restaurantId) == owner && last.currency == currency then last.balance else 0
  }

  /** Credits to the owner minus what the owner hands to the platform (dst NULL). */
  function RowNet(t: Txn, owner: nat, currency: string): int {
    if t.status != TxnSucceeded || t.currency != currency then 0
    else (if t.dst == Some(owner) then t.amount else 0) - (if t.src == Some(owner) && t.dst.None? then t.amount else 0)
  }

  /** Sum of a row measure over the ledger rows of a set of orders. */
  ghost function SumOver(ledger: seq<Txn>, orders: set<OrderId>, measure: Txn -> int): int {
    if |ledger| == 0 then 0
    else
      var last := ledger[|ledger| - 1];
      SumOver(ledger[..|ledger| - 1], orders, measure)
      + if last.orderId.Some? && last.orderId.value in orders then measure(last) else 0
  }

  function PaidOut(ledger: seq<Txn>, owner: nat, currency: string): int {
    if |ledger| == 0 then 0
    else
      var last := ledger[|ledger| - 1];
      PaidOut(ledger[..|ledger| - 1], owner, currency)
      + if last.kind == Payout && last.dst == Some(owner) && last.currency == currency then last.amount else 0
  }

  function DeliveredOrders(db: Db): set<OrderId> {
    set p | p in db.orders && db.orders[p].status == Delivered
  }

  ghost predicate BooksAgreeFor(owners: nat -> nat, db: Db, owner: nat, currency: string) {
    OwnerTotal(db.balances, owners, owner, currency)
    == SumOver(db.ledger, DeliveredOrders(db), t => RowNet(t, owner, currency)) - PaidOut(db.ledger, owner, currency)
  }

  ghost predicate BooksAgree(owners: nat -> nat, db: Db) {
    forall owner, currency :: BooksAgreeFor(owners, db, owner, currency)
  }

  // ----- sums -------------------------------------------------------------

  lemma {:induction false} SumConcat(a: seq<Txn>, b: seq<Txn>, orders: set<OrderId>, measure: Txn -> int)
    ensures SumOver(a + b, orders, measure) == SumOver(a, orders, measure) + SumOver(b, orders, measure)
  {
    if |b| == 0 {
      assert a + b == a;
    } else {
      var n := |b| - 1;
      assert (a + b)[..|a + b| - 1] == a + b[..n];
      SumConcat(a, b[..n], orders, measure);
    }
  }

  /** Counting one more order adds the rows of that order. */
  lemma {:induction false} SumMoreOrders(ledger: seq<Txn>, orders: set<OrderId>, p: OrderId, measure: Txn -> int)
    requires p !in orders
    ensures SumOver(ledger, orders + {p}, measure)
         == SumOver(ledger, orders, measure) + SumOver(RowsOf(ledger, p), {p}, measure)
  {
    if |ledger| > 0 {
      var n := |ledger| - 1;
      SumMoreOrders(ledger[..n], orders, p, measure);
      SumConcat(RowsOf(ledger[..n], p), if ledger[n].orderId == Some(p) then [ledger[n]] else [], {p}, measure);
      SumOne(ledger[n], {p}, measure);
    }
  }

  lemma SumOne(t: Txn, orders: set<OrderId>, measure: Txn -> int)
    ensures SumOver([t], orders, measure) == if t.orderId.Some? && t.orderId.value in orders then measure(t) else 0
  {
    assert [t][..0] == [];
  }

  lemma SumIf(present: bool, t: Txn, orders: set<OrderId>, measure: Txn -> int)
    ensures SumOver(if present then [t] else [], orders, measure)
         == if present && t.orderId.Some? && t.orderId.value in orders then measure(t) else 0
  {
    SumOne(t, orders, measure);
  }

  lemma {:induction false} PaidOutConcat(a: seq<Txn>, b: seq<Txn>, owner: nat, currency: string)
    ensures PaidOut(a + b, owner, currency) == PaidOut(a, owner, currency) + PaidOut(b, owner, currency)
  {
    if |b| == 0 {
      assert a + b == a;
    } else {
      var n := |b| - 1;
      assert (a + b)[..|a + b| - 1] == a + b[..n];
      PaidOutConcat(a, b[..n], owner, currency);
    }
  }

  lemma {:induction false} NothingPaidOut(rows: seq<Txn>, owner: nat, currency: string)
    requires forall r | r in rows :: r.kind != Payout
    ensures PaidOut(rows, owner, currency) == 0
  {
    if |rows| > 0 {
      NothingPaidOut(rows[..|rows| - 1], owner, currency);
    }
  }

  lemma {:induction false} TotalUpdate(rows: seq<BalanceRow>, i: nat, balance: int, owners: nat -> nat, owner: nat, currency: string)
    requires i < |rows|
    ensures OwnerTotal(rows[i := rows[i].(balance := balance)], owners, owner, currency)
         == OwnerTotal(rows, owners, owner, currency)
          + if owners(rows[i].restaurantId) == owner && rows[i].currency == currency then balance - rows[i].balance else 0
  {
    var n := |rows| - 1;
    var updated := rows[i := rows[i].(balance := balance)];
    if i == n {
      assert updated[..n] == rows[..n];
    } else {
      assert updated[..n] == rows[..n][i := rows[..n][i].(balance := balance)];
      TotalUpdate(rows[..n], i, balance, owners, owner, currency);
    }
  }

  lemma TotalUpsert(rows: seq<BalanceRow>, restaurantId: nat, c: string, delta: int, owners: nat -> nat, owner: nat, currency: string)
    ensures OwnerTotal(UpsertIncrement(rows, restaurantId, c, delta), owners, owner, currency)
         == OwnerTotal(rows, owners, owner, currency) + if owners(restaurantId) == owner && c == currency then delta else 0
  {
    match FindBalance(rows, restaurantId, c)
    case None =>
      assert (rows + [BalanceRow(restaurantId, c, delta)])[..|rows|] == rows;
    case Some(i) =>
      TotalUpdate(rows, i, rows[i].balance + delta, owners, owner, currency);
  }

  // ----- one settlement ---------------------------------------------------

  /** What the whole ledger of a delivered order nets to for an owner. */
  lemma DeliveredOrderNet(owners: nat -> nat, p: OrderId, o: Order, s: Option<Session>, owner: nat, currency: string)
    requires MoneyOk(owners, o) && PaymentOk(o, s) && o.status == Delivered
    requires s.Some? ==> s.value.amount == o.total && s.value.currency == o.currency && (s.value.status == Captured ==> s.value.lastTxn.Some?)
    ensures SumOver(ExpectedRows(p, o, s), {p}, t => RowNet(t, owner, currency))
         == if owner == o.ownerId && currency == o.currency then o.subtotal - o.commission else 0
  {
    hide SumOver, RowsOf;
    var net := t => RowNet(t, owner, currency);
    var cod, com := CodRow(p, o), PlatformRow(p, o, Commission, o.commission, CommissionKey(p));
    var svc := PlatformRow(p, o, Adjustment, o.serviceFee, ServiceFeeKey(p));
    var del := PlatformRow(p, o, Adjustment, o.deliveryFee, DeliveryFeeKey(p));
    var tail2 := if o.deliveryFee > 0 then [del] else [];
    var tail1 := (if o.serviceFee > 0 then [svc] else []) + tail2;
    var tail0 := (if o.commission > 0 then [com] else []) + tail1;
    SumConcat(ChargeRows(p, o, s), SettlementRows(p, o, o.commission), {p}, net);
    SumConcat(if o.payment == Cod then [cod] else [], tail0, {p}, net);
    SumConcat(if o.commission > 0 then [com] else [], tail1, {p}, net);
    SumConcat(if o.serviceFee > 0 then [svc] else [], tail2, {p}, net);
    SumIf(o.payment == Cod, cod, {p}, net);
    SumIf(o.commission > 0, com, {p}, net);
    SumIf(o.serviceFee > 0, svc, {p}, net);
    SumIf(o.deliveryFee > 0, del, {p}, net);
    if o.payment == Online {
      SumOne(ChargeRow(p, o, s.value, s.value.lastTxn.value, true), {p}, net);
    } else {
      SumIf(false, cod, {p}, net);
    }
  }

  // ----- steps ------------------------------------------------------------

  /** Rows of undelivered orders do not count yet. */
  lemma RowsNotCounted(owners: nat -> nat, db: Db, db': Db, rows: seq<Txn>)
    requires BooksAgree(owners, db)
    requires db'.balances == db.balances && db'.ledger == db.ledger + rows
    requires DeliveredOrders(db') == DeliveredOrders(db)
    requires |rows| <= 1 && forall r | r in rows :: r.kind != Payout && r.orderId.Some? && r.orderId.value !in DeliveredOrders(db)
    ensures BooksAgree(owners, db')
  {
    forall owner, currency
      ensures BooksAgreeFor(owners, db', owner, currency)
    {
      assert BooksAgreeFor(owners, db, owner, currency);
      var net := t => RowNet(t, owner, currency);
      SumConcat(db.ledger, rows, DeliveredOrders(db), net);
      PaidOutConcat(db.ledger, rows, owner, currency);
      NothingPaidOut(rows, owner, currency);
      if |rows| == 1 {
        SumOne(rows[0], DeliveredOrders(db), net);
        assert rows == [rows[0]];
      }
    }
  }

  lemma WebhookKeepsBooks(owners: nat -> nat, db: Db, w: Webhook, fate: Fate, now: int)
    requires Inv(owners, db) && BooksAgree(owners, db)
    ensures BooksAgree(owners, ProcessWebhook(db, w, fate, now).db)
  {
    hide BooksAgree, RowsOf, ExpectedRows, EarningOk, MoneyOk;
    var db' := ProcessWebhook(db, w, fate, now).db;
    var p := w.orderId;
    if db'.ledger == db.ledger {
      assert db.ledger + [] == db.ledger;
      assert db'.orders == db.orders;
      RowsNotCounted(owners, db, db', []);
    } else {
      var i := FindActive(db.sessions, p).value;
      assert SessionOk(db, db.sessions[i]) && OrderOk(owners, db, p);
      SessionOfIs(db.sessions, i);
      assert DeliveredOrders(db') == DeliveredOrders(db);
      RowsNotCounted(owners, db, db', [db'.ledger[|db.ledger|]]);
    }
  }

  lemma SettleKeepsBooks(owners: nat -> nat, db: Db, p: OrderId, agentId: nat, bps: Option<int>, shareBps: int, now: int)
    requires Inv(owners, db) && BooksAgree(owners, db)
    requires p in db.orders && db.orders[p].agent == Some(agentId) && db.orders[p].status != Delivered
    requires (bps.Some? ==> 0 <= bps.value <= BPS) && 0 <= shareBps <= BPS
    ensures BooksAgree(owners, SettleDelivered(db, p, agentId, bps, shareBps, now).db)
  {
    hide SettlementRows, ChargeRows, RowsOf, SumOver, OwnerTotal, PaidOut, OrdersInv, RefsInv, KeysInv, UpsertIncrement;
    var o, db' := db.orders[p], SettleDelivered(db, p, agentId, bps, shareBps, now).db;
    var o', commission, s := db'.orders[p], CommissionOf(o, bps), SessionOf(db.sessions, p);
    var rows := SettlementRows(p, o, commission);
    SettlementAppends(owners, db, p, commission);
    SettledTerms(owners, db, p, agentId, bps, shareBps, now);
    assert DeliveredOrders(db') == DeliveredOrders(db) + {p};
    forall owner, currency
      ensures BooksAgreeFor(owners, db', owner, currency)
    {
      assert BooksAgreeFor(owners, db, owner, currency);
      var net := t => RowNet(t, owner, currency);
      SumMoreOrders(db'.ledger, DeliveredOrders(db), p, net);
      SumConcat(db.ledger, rows, DeliveredOrders(db), net);
      SumForeign(rows, DeliveredOrders(db), p, net);
      DeliveredOrderNet(owners, p, o', s, owner, currency);
      PaidOutConcat(db.ledger, rows, owner, currency);
      NothingPaidOut(rows, owner, currency);
      TotalUpsert(db.balances, o.restaurantId, o.currency, o.subtotal - commission, owners, owner, currency);
    }
  }

  lemma {:induction false} SumForeign(rows: seq<Txn>, orders: set<OrderId>, p: OrderId, measure: Txn -> int)
    requires p !in orders && forall r | r in rows :: r.orderId == Some(p)
    ensures SumOver(rows, orders, measure) == 0
  {
    if |rows| > 0 {
      SumForeign(rows[..|rows| - 1], orders, p, measure);
    }
  }

  lemma SettlementRowsNoPayout(p: OrderId, o: Order, commission: int)
    ensures forall r | r in SettlementRows(p, o, commission) :: r.orderId == Some(p) && r.kind != Payout
  {
  }

  /** The facts about a settled order that its net rests on. */
  lemma SettledTerms(owners: nat -> nat, db: Db, p: OrderId, agentId: nat, bps: Option<int>, shareBps: int, now: int)
    requires Inv(owners, db) && p in db.orders && db.orders[p].agent == Some(agentId) && db.orders[p].status != Delivered
    requires (bps.Some? ==> 0 <= bps.value <= BPS) && 0 <= shareBps <= BPS
    ensures var o', s := SettleDelivered(db, p, agentId, bps, shareBps, now).db.orders[p], SessionOf(db.sessions, p);
            var db' := SettleDelivered(db, p, agentId, bps, shareBps, now).db;
            && MoneyOk(owners, o') && PaymentOk(o', s) && o'.status == Delivered
            && RowsOf(db'.ledger, p) == ExpectedRows(p, o', s)
            && (s.Some? ==> s.value.amount == o'.total && s.value.currency == o'.currency && (s.value.status == Captured ==> s.value.lastTxn.Some?))
            && forall r | r in SettlementRows(p, db.orders[p], CommissionOf(db.orders[p], bps)) :: r.orderId == Some(p) && r.kind != Payout
  {
    hide RowsOf, SessionOf, ExpectedRows, MoneyOk, PaymentOk, EarningOk, SettlementRows, UpsertIncrement, InsertAllIgnore;
    SettleKeeps(owners, db, p, agentId, bps, shareBps, now);
    SettlementRowsNoPayout(p, db.orders[p], CommissionOf(db.orders[p], bps));
    var db' := SettleDelivered(db, p, agentId, bps, shareBps, now).db;
    assert OrderOk(owners, db', p);
    SessionOfMembers(db.sessions, p);
    assert SessionOf(db.sessions, p).Some? ==> SessionOk(db, SessionOf(db.sessions, p).value);
  }

  lemma {:induction false} OwnerOfLatestIsOwner(owners: nat -> nat, db: Db, created: seq<OrderId>, restaurantId: nat)
    requires OrdersInv(owners, db)
    requires OwnerOfLatest(created, db.orders, restaurantId).Some?
    ensures OwnerOfLatest(created, db.orders, restaurantId) == Some(owners(restaurantId))
  {
    var last := created[|created| - 1];
    if last in db.orders && db.orders[last].restaurantId == restaurantId {
      assert OrderOk(owners, db, last);
    } else {
      OwnerOfLatestIsOwner(owners, db, created[..|created| - 1], restaurantId);
    }
  }

  lemma PayoutKeepsBooksFor(owners: nat -> nat, db: Db, db': Db, restaurantId: nat, c: string, amount: int, keyText: string, owner: nat, currency: string)
    requires BooksAgreeFor(owners, db, owner, currency)
    requires FindBalance(db.balances, restaurantId, c).Some?
    requires var i := FindBalance(db.balances, restaurantId, c).value;
             db' == db.(balances := db.balances[i := db.balances[i].(balance := db.balances[i].balance - amount)],
                        ledger := db.ledger + [PayoutRow(owners(restaurantId), c, amount, keyText)])
    ensures BooksAgreeFor(owners, db', owner, currency)
  {
    hide SumOver, OwnerTotal, FindBalance;
    var row, i := PayoutRow(owners(restaurantId), c, amount, keyText), FindBalance(db.balances, restaurantId, c).value;
    var net := t => RowNet(t, owner, currency);
    assert DeliveredOrders(db') == DeliveredOrders(db);
    SumConcat(db.ledger, [row], DeliveredOrders(db), net);
    SumOne(row, DeliveredOrders(db), net);
    PaidOutConcat(db.ledger, [row], owner, currency);
    assert [row][..0] == [];
    TotalUpdate(db.balances, i, db.balances[i].balance - amount, owners, owner, currency);
  }

  lemma PayoutKeepsBooks(owners: nat -> nat, db: Db, restaurantId: nat, c: string, amount: int, keyText: string)
    requires Inv(owners, db) && BooksAgree(owners, db)
    ensures BooksAgree(owners, PayOut(db, restaurantId, c, amount, keyText).db)
  {
    hide OrdersInv, RefsInv, KeysInv, HasKey, OwnerOfLatest, FindBalance, BooksAgreeFor;
    var r := PayOut(db, restaurantId, c, amount, keyText);
    if r.outcome == Done {
      OwnerOfLatestIsOwner(owners, db, db.created, restaurantId);
      forall owner, currency
        ensures BooksAgreeFor(owners, r.db, owner, currency)
      {
        PayoutKeepsBooksFor(owners, db, r.db, restaurantId, c, amount, keyText, owner, currency);
      }
    }
  }

  /** Only a settlement delivers. */
  lemma SameDelivered(db: Db, e: Timed)
    requires RefsInv(db)
    requires !e.request.Deliver? && !e.request.Settle? && !e.request.RecordPayout?
    requires e.request.UpdateStatus? ==> e.request.to != Delivered
    ensures DeliveredOrders(Exec(db, e).db) == DeliveredOrders(db)
  {
    hide OneSessionEach, SessionOk, FindActive, ResolveActor, Stamped;
    var db' := Exec(db, e).db;
    assert e.request.FinishInit? && e.request.p in db.awaitingInit ==> AwaitingOk(db, e.request.p);
    forall p | p in db.orders
      ensures p in db'.orders && (db.orders[p].status == Delivered <==> db'.orders[p].status == Delivered)
    {
    }
    assert forall p | p in db'.orders && p !in db.orders :: db'.orders[p].status != Delivered;
  }

  lemma StepKeepsBooks(owners: nat -> nat, db: Db, e: Timed)
    requires Inv(owners, db) && BooksAgree(owners, db) && Sound(owners, db, e)
    ensures BooksAgree(owners, After(db, e))
  {
    hide SumOver, OwnerTotal, PaidOut, OrdersInv, RefsInv, KeysInv;
    var db' := Exec(db, e).db;
    match e.request {
      case Deliver(w, fate) => WebhookKeepsBooks(owners, db, w, fate, e.now);
      case Settle(p, a, bps, share) =>
        if db'.ledger != db.ledger || db'.orders != db.orders {
          SettleKeepsBooks(owners, db, p, a, bps, share, e.now);
        }
      case RecordPayout(r, c, amount, key) => PayoutKeepsBooks(owners, db, r, c, amount, key);
      case _ =>
        SameDelivered(db, e);
        assert db.ledger + [] == db.ledger;
        RowsNotCounted(owners, db, db', []);
    }
    assert DeliveredOrders(After(db, e)) == DeliveredOrders(db');
    assert forall owner, currency :: BooksAgreeFor(owners, db', owner, currency) ==> BooksAgreeFor(owners, After(db, e), owner, currency);
  }

  /** For every owner and currency, the balances of the owner's restaurants sum to
      the ledger's net for that owner over delivered orders, less what was paid
      out; whatever was placed, captured, cancelled, delivered or paid before. */
  lemma {:induction false} BalancesEqualLedger(owners: nat -> nat, es: seq<Timed>)
    requires SoundRun(owners, es)
    ensures BooksAgree(owners, Run(EMPTY, es))
  {
    if |es| == 0 {
      assert forall owner, currency :: BooksAgreeFor(owners, EMPTY, owner, currency);
    } else {
      BalancesEqualLedger(owners, es[..|es| - 1]);
      LedgerIsDetermined(owners, es[..|es| - 1]);
      StepKeepsBooks(owners, Run(EMPTY, es[..|es| - 1]), es[|es| - 1]);
    }
  }
}
