/** Which request each amount in the tables comes from, with the arithmetic written out. */
module MoneyProvenance {
  import opened Common
  import opened OrderStatus
  import opened Tables
  import opened Lifecycle
  import opened Ledger
  import opened Provenance
  import opened Webhooks
  import Answers
  import Payouts

  // ----- commissions and earnings ------------------------------------------------

  /** The settlement that one request made of an order: floor(subtotal * bps / 10000)
      for the platform, or nothing if core named no rate, and floor(fee * share / 10000)
      for the agent. */
  predicate SettledBy(o: Order, earning: Earning, p: OrderId, r: Request) {
    && r.Settle? && r.p == p && o.agent == Some(r.agentId)
    && o.commission == (if r.branchBps.Some? then o.subtotal * r.branchBps.value / 10000 else 0)
    && earning == Earning(r.agentId, o.deliveryFee * r.shareBps / 10000, o.currency)
  }

  lemma EarningIsNew(db: Db, e: Timed, p: OrderId)
    requires p !in db.earnings && p in After(db, e).earnings
    ensures e.request.Settle? && Exec(db, e).outcome == Done && p in After(db, e).orders
    ensures SettledBy(After(db, e).orders[p], After(db, e).earnings[p], p, e.request)
  {
    hide HasKey, FindActive, InsertAllIgnore, UpsertIncrement, SettlementRows, AssertTransition, ResolveActor, OwnerOfLatest,
         DecrementIfSufficient, Stamped;
    match e.request {
      case Settle(_, _, _, _) =>
      case Deliver(_, _) =>
      case _ =>
    }
  }

  lemma DeliveredIsSettled(owners: nat -> nat, db: Db, p: OrderId)
    requires Inv(owners, db) && p in db.earnings
    ensures p in db.orders && db.orders[p].status == Delivered && p !in db.awaitingInit
  {
    assert OrderOk(owners, db, p);
    assert p in db.awaitingInit ==> AwaitingOk(db, p);
  }

  lemma DeliveredRowStays(db: Db, e: Timed, p: OrderId)
    requires p in db.orders && db.orders[p].status == Delivered && p !in db.awaitingInit
    requires e.request.Settle? && e.request.p == p ==> db.orders[p].agent != Some(e.request.agentId)
    ensures p in After(db, e).orders && After(db, e).orders[p] == db.orders[p]
  {
    hide HasKey, FindActive, InsertAllIgnore, UpsertIncrement, SettlementRows, OwnerOfLatest, DecrementIfSufficient, Moved, ChargeRow;
    match e.request {
      case UpdateStatus(q, c, to, hasReason) => {
        Answers.StatusChangeDoneExactlyWhen(db, q, c, to, hasReason, e.now);
        hide ChangeStatus;
      }
      case Deliver(_, _) =>
      case Settle(_, _, _, _) =>
      case _ =>
    }
  }

  lemma EarningStays(db: Db, e: Timed, p: OrderId)
    requires p in db.earnings
    ensures p in After(db, e).earnings && After(db, e).earnings[p] == db.earnings[p]
  {
    hide HasKey, FindActive, InsertAllIgnore, UpsertIncrement, SettlementRows, AssertTransition, ResolveActor, OwnerOfLatest,
         DecrementIfSufficient, Moved, ChargeRow;
  }

  lemma SettlementStays(owners: nat -> nat, db: Db, e: Timed, p: OrderId)
    requires Inv(owners, db) && Sound(owners, db, e) && p in db.earnings
    ensures p in After(db, e).orders && p in db.orders && After(db, e).orders[p] == db.orders[p]
    ensures p in After(db, e).earnings && After(db, e).earnings[p] == db.earnings[p]
  {
    DeliveredIsSettled(owners, db, p);
    EarningStays(db, e, p);
    assert e.request.Settle? && e.request.p == p ==> db.orders[p].agent != Some(e.request.agentId) by {
      hide Inv, After;
    }
    hide Inv, After, Sound;
    DeliveredRowStays(db, e, p);
  }

  /** In every sound run each order with an earning, which is each delivered order, was
      settled by one request of the agent it names: its commission is the branch's rate
      on the subtotal and its earning the agent's share of the delivery fee, both rounded
      down, at the rates of that request. */
  lemma {:induction false} EarningsComeFromSettlements(owners: nat -> nat, es: seq<Timed>, p: OrderId) returns (i: nat)
    requires SoundRun(owners, es) && p in Run(EMPTY, es).earnings
    ensures p in Run(EMPTY, es).orders && i < |es| && Exec(Run(EMPTY, es[..i]), es[i]).outcome == Done
    ensures SettledBy(Run(EMPTY, es).orders[p], Run(EMPTY, es).earnings[p], p, es[i].request)
  {
    hide After, Exec, Inv, Sound;
    var n := |es| - 1;
    var db := Run(EMPTY, es[..n]);
    LedgerIsDetermined(owners, es[..n]);
    if p in db.earnings {
      i := EarningsComeFromSettlements(owners, es[..n], p);
      SettlementStays(owners, db, es[n], p);
      assert es[..n][..i] == es[..i];
    } else {
      i := n;
      EarningIsNew(db, es[n], p);
    }
  }

  lemma DeliveredHasEarning(owners: nat -> nat, es: seq<Timed>, p: OrderId)
    requires SoundRun(owners, es) && p in Run(EMPTY, es).orders
    ensures p in Run(EMPTY, es).earnings <==> Run(EMPTY, es).orders[p].status == Delivered
  {
    LedgerIsDetermined(owners, es);
    assert OrderOk(owners, Run(EMPTY, es), p);
  }

  // ----- the rows of a delivered order ----------------------------------------------

  function TheFeeRow(p: OrderId, o: Order, kind: TxnKind, amount: int, key: Key): seq<Txn> {
    if amount > 0 then [Txn(Some(p), kind, TxnSucceeded, amount, o.currency, Some(o.ownerId), None, key)] else []
  }

  function TheFees(p: OrderId, o: Order): seq<Txn> {
    TheFeeRow(p, o, Commission, o.commission, CommissionKey(p))
    + (TheFeeRow(p, o, Adjustment, 1000, ServiceFeeKey(p)) + TheFeeRow(p, o, Adjustment, o.deliveryFee, DeliveryFeeKey(p)))
  }

  function ThePayment(p: OrderId, o: Order, key: Key): Txn {
    Txn(Some(p), if o.payment == Cod then CodCollection else Charge, TxnSucceeded, o.total, o.currency, Some(o.customerId), Some(o.ownerId), key)
  }

  lemma SettlementSpelledOut(p: OrderId, o: Order)
    requires o.serviceFee == 1000
    ensures SettlementRows(p, o, o.commission) == (if o.payment == Cod then [ThePayment(p, o, CodCollectKey(p))] else []) + TheFees(p, o)
  {
  }

  lemma PaymentSpelledOut(owners: nat -> nat, db: Db, p: OrderId) returns (key: Key)
    requires Inv(owners, db) && p in db.orders && db.orders[p].status == Delivered
    ensures var o := db.orders[p];
            && (o.payment == Cod ==> key == CodCollectKey(p) && ChargeRows(p, o, SessionOf(db.sessions, p)) == [])
            && (o.payment == Online ==> key.KashierKey? && ChargeRows(p, o, SessionOf(db.sessions, p)) == [ThePayment(p, o, key)])
  {
    var o, session := db.orders[p], SessionOf(db.sessions, p);
    assert OrderOk(owners, db, p);
    SessionOfMembers(db.sessions, p);
    assert session.Some? ==> SessionOk(db, session.value);
    key := if o.payment == Cod then CodCollectKey(p) else KashierKey(session.value.lastTxn.value);
  }

  /** In every sound run the ledger rows of a delivered order, spelled out: the charge of
      an online order or the collection of a cash order, from the customer to the owner,
      then what the owner hands on to the platform. */
  lemma DeliveredLedger(owners: nat -> nat, es: seq<Timed>, p: OrderId) returns (key: Key)
    requires SoundRun(owners, es) && p in Run(EMPTY, es).orders && Run(EMPTY, es).orders[p].status == Delivered
    ensures if Run(EMPTY, es).orders[p].payment == Cod then key == CodCollectKey(p) else key.KashierKey?
    ensures RowsOf(Run(EMPTY, es).ledger, p) == [ThePayment(p, Run(EMPTY, es).orders[p], key)] + TheFees(p, Run(EMPTY, es).orders[p])
  {
    LedgerIsDetermined(owners, es);
    var db := Run(EMPTY, es);
    assert OrderOk(owners, db, p);
    key := PaymentSpelledOut(owners, db, p);
    SettlementSpelledOut(p, db.orders[p]);
    hide Run, Inv, RowsOf, SessionOf, SettlementRows, ChargeRows, ThePayment, TheFees;
    assert [] + TheFees(p, db.orders[p]) == TheFees(p, db.orders[p]);
    assert [] + ([ThePayment(p, db.orders[p], key)] + TheFees(p, db.orders[p])) == [ThePayment(p, db.orders[p], key)] + TheFees(p, db.orders[p]);
  }

  // ----- one settlement, whatever was settled before -----------------------------------

  predicate SameKey(ledger: seq<Txn>, key: Key) {
    exists t | t in ledger :: t.key == key
  }

  /** The rows whose keys the ledger does not hold yet. */
  function Missing(ledger: seq<Txn>, rows: seq<Txn>): seq<Txn> {
    if rows == [] then [] else (if SameKey(ledger, rows[0].key) then [] else [rows[0]]) + Missing(ledger, rows[1..])
  }

  predicate DistinctKeys(rows: seq<Txn>) {
    forall i, j | 0 <= i < j < |rows| :: rows[i].key != rows[j].key
  }

  lemma {:induction false} MissingAfterOther(ledger: seq<Txn>, t: Txn, rows: seq<Txn>)
    requires forall x | x in rows :: x.key != t.key
    ensures Missing(ledger + [t], rows) == Missing(ledger, rows)
  {
    if rows != [] {
      MissingAfterOther(ledger, t, rows[1..]);
      assert SameKey(ledger + [t], rows[0].key) <==> SameKey(ledger, rows[0].key) by {
        assert forall x | x in ledger :: x in ledger + [t];
      }
    }
  }

  lemma {:induction false} InsertAllIsMissing(ledger: seq<Txn>, rows: seq<Txn>)
    requires DistinctKeys(rows)
    ensures InsertAllIgnore(ledger, rows) == ledger + Missing(ledger, rows)
    decreases |rows|
  {
    if rows == [] {
      assert ledger + [] == ledger;
    } else {
      var t := rows[0];
      Answers.KeyIsFree(ledger, t.key);
      assert SameKey(ledger, t.key) <==> HasKey(ledger, t.key);
      hide HasKey, SameKey;
      InsertAllIsMissing(InsertIgnore(ledger, t), rows[1..]);
      if !HasKey(ledger, t.key) {
        MissingAfterOther(ledger, t, rows[1..]);
        assert ledger + [t] + Missing(ledger, rows[1..]) == ledger + ([t] + Missing(ledger, rows[1..]));
      } else {
        assert [] + Missing(ledger, rows[1..]) == Missing(ledger, rows[1..]);
      }
    }
  }

  /** The account's row has risen by the amount, or is new; no other row has changed. */
  predicate RisesBy(rows: seq<BalanceRow>, rows': seq<BalanceRow>, restaurantId: nat, currency: string, amount: int) {
    if exists b | b in rows :: Answers.OfAccount(b, restaurantId, currency) then Answers.FallsBy(rows, rows', restaurantId, currency, -amount)
    else rows' == rows + [BalanceRow(restaurantId, currency, amount)]
  }

  lemma IncrementRises(rows: seq<BalanceRow>, restaurantId: nat, currency: string, amount: int)
    requires Answers.OneRowEach(rows)
    ensures RisesBy(rows, UpsertIncrement(rows, restaurantId, currency, amount), restaurantId, currency, amount)
  {
    var found := FindBalance(rows, restaurantId, currency);
    if found.Some? {
      assert rows[found.value] in rows;
    }
  }

  /** What the settlement of an order with that commission books, spelled out. */
  function TheRows(p: OrderId, o: Order, commission: int): seq<Txn> {
    (if o.payment == Cod then [ThePayment(p, o, CodCollectKey(p))] else [])
    + (TheFeeRow(p, o, Commission, commission, CommissionKey(p))
       + (TheFeeRow(p, o, Adjustment, o.serviceFee, ServiceFeeKey(p)) + TheFeeRow(p, o, Adjustment, o.deliveryFee, DeliveryFeeKey(p))))
  }

  lemma RowsSpelledOut(p: OrderId, o: Order, commission: int)
    ensures SettlementRows(p, o, commission) == TheRows(p, o, commission) && DistinctKeys(TheRows(p, o, commission))
  {
  }

  /** The tables after a settlement at that commission and with that earning. */
  predicate SettledInto(db: Db, db': Db, p: OrderId, commission: int, earning: Earning, now: int)
    requires p in db.orders
  {
    var o := db.orders[p];
    && db' == db.(
         orders := db.orders[p := o.(commission := commission, status := Delivered, stamps := o.stamps.(deliveredAt := Some(now)))],
         earnings := db.earnings[p := if p in db.earnings then db.earnings[p] else earning],
         outbox := db.outbox + [Event(p, OrderDelivered)],
         balances := db'.balances, ledger := db.ledger + Missing(db.ledger, TheRows(p, o, commission)))
    && if commission == o.subtotal then db'.balances == db.balances
       else RisesBy(db.balances, db'.balances, o.restaurantId, o.currency, o.subtotal - commission)
  }

  lemma SettledAt(db: Db, p: OrderId, agentId: nat, branchBps: Option<int>, shareBps: int, now: int)
    requires Answers.OneRowEach(db.balances) && p in db.orders && db.orders[p].agent == Some(agentId)
    ensures var o := db.orders[p];
            SettledInto(db, SettleDelivered(db, p, agentId, branchBps, shareBps, now).db, p, CommissionOf(o, branchBps),
                        Earning(agentId, Share(o.deliveryFee, shareBps), o.currency), now)
  {
    var o, commission := db.orders[p], CommissionOf(db.orders[p], branchBps);
    RowsSpelledOut(p, o, commission);
    InsertAllIsMissing(db.ledger, TheRows(p, o, commission));
    IncrementRises(db.balances, o.restaurantId, o.currency, o.subtotal - commission);
    hide InsertAllIgnore, UpsertIncrement, SettlementRows, RisesBy, TheRows, Missing, CommissionOf, Share;
    assert p in db.earnings ==> db.earnings[p := db.earnings[p]] == db.earnings;
  }

  /** A settlement is granted exactly to the agent of the order, whatever its status. It
      books the rows whose keys are new, adds the net to the restaurant's balance if it is
      not zero, keeps an earning there is, and announces the delivery. */
  lemma SettleDoneExactlyWhen(db: Db, p: OrderId, agentId: nat, branchBps: Option<int>, shareBps: int, now: int)
    requires Answers.OneRowEach(db.balances)
    ensures var reply := SettleDelivered(db, p, agentId, branchBps, shareBps, now);
            && (reply.outcome == Done <==> p in db.orders && db.orders[p].agent == Some(agentId))
            && (reply.outcome == OrderNotFound <==> p !in db.orders)
            && (reply.outcome != Done ==> reply.db == db)
            && (reply.outcome == Done ==>
                  var o := db.orders[p];
                  var commission := if branchBps.Some? then o.subtotal * branchBps.value / 10000 else 0;
                  SettledInto(db, reply.db, p, commission, Earning(agentId, o.deliveryFee * shareBps / 10000, o.currency), now))
  {
    if p in db.orders && db.orders[p].agent == Some(agentId) {
      SettledAt(db, p, agentId, branchBps, shareBps, now);
      hide SettledInto;
    }
  }

  // ----- charges --------------------------------------------------------------------

  /** What a webhook says about an order, as the ledger keeps it: its outcome, the order's
      total, from the customer, and to the owner only if it was paid. */
  function ChargeOf(w: Webhook, o: Order): Txn {
    Txn(Some(w.orderId), Charge, if w.success then TxnSucceeded else TxnFailed, o.total, o.currency,
        Some(o.customerId), if w.success then Some(o.ownerId) else None, KashierKey(w.txn))
  }

  lemma FirstDeliveryIsCharged(owners: nat -> nat, db: Db, e: Timed)
    requires Inv(owners, db) && e.request.Deliver? && e.request.webhook.txn !in db.webhooks && Bookable(db, e.request)
    ensures ChargeOf(e.request.webhook, db.orders[e.request.webhook.orderId]) in After(db, e).ledger
  {
    var w := e.request.webhook;
    UnseenTxnHasNoKey(db, w.txn);
    var i := FindActive(db.sessions, w.orderId).value;
    assert db.sessions[i] in db.sessions && SessionOk(db, db.sessions[i]);
    var row := ChargeRow(w.orderId, db.orders[w.orderId], db.sessions[i], w.txn, w.success);
    hide HasKey, FindActive, Moved, Inv;
    assert After(db, e).ledger == db.ledger + [row];
    assert row in db.ledger + [row];
  }

  lemma LedgerKeepsRows(db: Db, e: Timed, t: Txn)
    requires t in db.ledger
    ensures t in After(db, e).ledger
  {
    Payouts.StepGrows(db, e);
  }

  lemma ChargeKeepsTerms(db: Db, e: Timed, w: Webhook)
    requires w.orderId in db.orders
    ensures w.orderId in After(db, e).orders && ChargeOf(w, After(db, e).orders[w.orderId]) == ChargeOf(w, db.orders[w.orderId])
  {
    StepKeepsTerms(db, e, w.orderId);
  }

  /** A charge that was not there before is booked by the first delivery of its id. */
  lemma NewBooking(db: Db, e: Timed, txn: string)
    requires !HasKey(db.ledger, KashierKey(txn)) && HasKey(After(db, e).ledger, KashierKey(txn))
    ensures e.request.Deliver? && e.request.webhook.txn == txn && txn !in db.webhooks && Bookable(db, e.request)
  {
    hide HasKey, Bookable, After;
    if e.request.Deliver? && e.request.webhook.txn == txn && txn !in db.webhooks {
      FirstDeliveryBooksExactlyWhen(db, e);
    } else {
      OthersDoNotBook(db, e, txn);
    }
  }

  lemma BookableMeans(db: Db, r: Request)
    requires Bookable(db, r)
    ensures r.Deliver? && r.webhook.isPay && r.webhook.orderId in db.orders
  {
  }

  lemma EarlierDelivery(es: seq<Timed>, i: nat, txn: string)
    requires |es| > 0 && FirstDelivery(es[..|es| - 1], i, txn)
    ensures FirstDelivery(es, i, txn) && es[i] == es[..|es| - 1][i]
  {
    assert es[..|es| - 1][..i] == es[..i];
  }

  lemma LastIsFirst(es: seq<Timed>, txn: string)
    requires |es| > 0 && es[|es| - 1].request.Deliver? && es[|es| - 1].request.webhook.txn == txn && !DeliveredIn(es[..|es| - 1], txn)
    ensures FirstDelivery(es, |es| - 1, txn)
  {
  }

  /** In every sound run each booked provider transaction says what the first delivery of
      its id said: paid or declined, for that order, over its total. */
  lemma {:induction false} ChargesSayWhatProviderSaid(owners: nat -> nat, es: seq<Timed>, txn: string) returns (i: nat)
    requires SoundRun(owners, es) && HasKey(Run(EMPTY, es).ledger, KashierKey(txn))
    ensures FirstDelivery(es, i, txn) && es[i].request.webhook.isPay && es[i].request.webhook.orderId in Run(EMPTY, es).orders
    ensures ChargeOf(es[i].request.webhook, Run(EMPTY, es).orders[es[i].request.webhook.orderId]) in Run(EMPTY, es).ledger
  {
    hide After, Inv, Sound, HasKey, Bookable, FirstDelivery;
    NothingBooked(txn);
    var n := |es| - 1;
    var db, e := Run(EMPTY, es[..n]), es[n];
    LedgerIsDetermined(owners, es[..n]);
    BookedExactlyWhen(es[..n], txn);
    if HasKey(db.ledger, KashierKey(txn)) {
      i := ChargesSayWhatProviderSaid(owners, es[..n], txn);
      DeliveryIndex(es[..n], i, txn);
      var w := es[..n][i].request.webhook;
      EarlierDelivery(es, i, txn);
      LedgerKeepsRows(db, e, ChargeOf(w, db.orders[w.orderId]));
      ChargeKeepsTerms(db, e, w);
    } else {
      i := n;
      NewBooking(db, e, txn);
      LastIsFirst(es, txn);
      FirstDeliveryIsCharged(owners, db, e);
      BookableMeans(db, e.request);
      ChargeKeepsTerms(db, e, e.request.webhook);
    }
  }

  // ----- the order of placements and the webhook log --------------------------------

  /** The orders that requests placed, oldest first. */
  function PlacedIn(es: seq<Timed>): seq<OrderId> {
    if |es| == 0 then []
    else
      var n := |es| - 1;
      PlacedIn(es[..n]) + if es[n].request.Place? && Exec(Run(EMPTY, es[..n]), es[n]).outcome == Done then [es[n].request.placement.orderId] else []
  }

  lemma StepCreates(db: Db, e: Timed)
    ensures After(db, e).created
         == db.created + if e.request.Place? && Exec(db, e).outcome == Done then [e.request.placement.orderId] else []
  {
    hide HasKey, FindActive, InsertAllIgnore, UpsertIncrement, SettlementRows, AssertTransition, ResolveActor, OwnerOfLatest,
         DecrementIfSufficient, Moved, NewOrder;
    assert db.created + [] == db.created;
  }

  /** In every run the orders lie in the order of their placements, so the latest order
      of a restaurant is the one placed last. */
  lemma {:induction false} CreatedIsPlacementOrder(es: seq<Timed>)
    ensures Run(EMPTY, es).created == PlacedIn(es)
  {
    hide After, Exec;
    if |es| > 0 {
      CreatedIsPlacementOrder(es[..|es| - 1]);
      StepCreates(Run(EMPTY, es[..|es| - 1]), es[|es| - 1]);
    }
  }

  /** What the event row of a delivery says in the end: stamped unless the process died,
      with an error if a booking was due and its transaction failed. */
  function LogRow(db: Db, r: Request): WebhookRow
    requires r.Deliver?
  {
    var w := r.webhook;
    var due := w.isPay && w.orderId in db.orders && FindActive(db.sessions, w.orderId).Some?;
    if r.fate == ProcessDies || r.fate == StampLost then WebhookRow(false, false) else WebhookRow(true, r.fate == TransactionFails && due)
  }

  lemma FirstDeliveryIsLogged(owners: nat -> nat, db: Db, e: Timed)
    requires Inv(owners, db) && e.request.Deliver? && e.request.webhook.txn !in db.webhooks
    ensures e.request.webhook.txn in After(db, e).webhooks && After(db, e).webhooks[e.request.webhook.txn] == LogRow(db, e.request)
  {
    var w := e.request.webhook;
    UnseenTxnHasNoKey(db, w.txn);
    hide HasKey, FindActive, Moved, Inv, ChargeRow;
    var recorded := db.(webhooks := db.webhooks[w.txn := WebhookRow(false, false)]);
    var due := w.isPay && w.orderId in db.orders && FindActive(db.sessions, w.orderId).Some?;
    var after := Reconcile(recorded, w, e.request.fate == TransactionFails, e.now);
    assert after.None? <==> due && e.request.fate == TransactionFails;
    assert after.Some? ==> after.value.webhooks == recorded.webhooks;
    hide Reconcile;
  }

  lemma LoggedStays(db: Db, e: Timed, txn: string)
    requires txn in db.webhooks
    ensures txn in After(db, e).webhooks && After(db, e).webhooks[txn] == db.webhooks[txn]
  {
    hide HasKey, FindActive, InsertAllIgnore, UpsertIncrement, SettlementRows, AssertTransition, ResolveActor, OwnerOfLatest,
         DecrementIfSufficient, Moved, NewOrder, ChargeRow;
    if e.request.Deliver? {
      assert After(db, e).webhooks == db.webhooks
             || After(db, e).webhooks == db.webhooks[e.request.webhook.txn := After(db, e).webhooks[e.request.webhook.txn]];
    } else {
      assert After(db, e).webhooks == db.webhooks;
    }
  }

  /** In every sound run the event row of a transaction id is the one its first delivery
      left. */
  lemma {:induction false} WebhookLogIsExact(owners: nat -> nat, es: seq<Timed>, txn: string) returns (i: nat)
    requires SoundRun(owners, es) && txn in Run(EMPTY, es).webhooks
    ensures FirstDelivery(es, i, txn) && Run(EMPTY, es).webhooks[txn] == LogRow(Run(EMPTY, es[..i]), es[i].request)
  {
    hide After, Inv, Sound, LogRow, FirstDelivery;
    var n := |es| - 1;
    var db, e := Run(EMPTY, es[..n]), es[n];
    LedgerIsDetermined(owners, es[..n]);
    BookedExactlyWhen(es[..n], txn);
    if txn in db.webhooks {
      i := WebhookLogIsExact(owners, es[..n], txn);
      EarlierDelivery(es, i, txn);
      LoggedStays(db, e, txn);
      DeliveryIndex(es[..n], i, txn);
      assert es[..n][..i] == es[..i];
    } else {
      i := n;
      NewlyLogged(db, e, txn);
      LastIsFirst(es, txn);
      FirstDeliveryIsLogged(owners, db, e);
    }
  }

  lemma DeliveryIndex(es: seq<Timed>, i: nat, txn: string)
    requires FirstDelivery(es, i, txn)
    ensures i < |es| && es[i].request.Deliver?
  {
  }

  lemma NewlyLogged(db: Db, e: Timed, txn: string)
    requires txn !in db.webhooks && txn in After(db, e).webhooks
    ensures e.request.Deliver? && e.request.webhook.txn == txn
  {
    hide After, HasKey;
    if !(e.request.Deliver? && e.request.webhook.txn == txn) {
      OthersDoNotBook(db, e, txn);
    }
  }
}
