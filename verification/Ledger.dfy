/**
 The ledger of every reachable state, row by row: which rows an order has, and
 with which amounts, is a function of the order and its payment session.
 */
module Ledger {
  import opened Common
  import opened OrderStatus
  import opened Tables
  import opened Lifecycle

  /** The ledger rows that name an order, in booking order. */
  function RowsOf(ledger: seq<Txn>, p: OrderId): seq<Txn> {
    if |ledger| == 0 then []
    else
      var n := |ledger| - 1;
      RowsOf(ledger[..n], p) + if ledger[n].orderId == Some(p) then [ledger[n]] else []
  }

  /** The latest session of an order. */
  function SessionOf(sessions: seq<Session>, p: OrderId): Option<Session> {
    if |sessions| == 0 then None
    else
      var n := |sessions| - 1;
      if sessions[n].orderId == p then Some(sessions[n]) else SessionOf(sessions[..n], p)
  }

  function ChargeRows(p: OrderId, o: Order, session: Option<Session>): seq<Txn> {
    match session
    case None => []
    case Some(s) =>
      if s.lastTxn.Some? && s.status == Captured then [ChargeRow(p, o, s, s.lastTxn.value, true)]
      else if s.lastTxn.Some? && s.status == Failed then [ChargeRow(p, o, s, s.lastTxn.value, false)]
      else []
  }

  /** The whole ledger of one order. */
  function ExpectedRows(p: OrderId, o: Order, session: Option<Session>): seq<Txn> {
    ChargeRows(p, o, session) + if o.status == Delivered then SettlementRows(p, o, o.commission) else []
  }

  // ----- the invariant ----------------------------------------------------

  ghost predicate MoneyOk(owners: nat -> nat, o: Order) {
    && o.ownerId == owners(o.restaurantId)
    && o.subtotal >= 0 && o.deliveryFee >= 0 && o.serviceFee == SERVICE_FEE_MINOR
    && o.total == o.subtotal + o.deliveryFee + o.serviceFee
    && 0 <= o.commission <= o.subtotal
  }

  ghost predicate SessionOk(db: Db, s: Session) {
    && s.orderId in db.orders
    && db.orders[s.orderId].payment == Online
    && s.amount == db.orders[s.orderId].total && s.currency == db.orders[s.orderId].currency
    && s.status in {Initialized, Captured, Failed}
    && (s.status != Initialized <==> s.lastTxn.Some?)
  }

  ghost predicate IsCaptured(session: Option<Session>) {
    session.Some? && session.value.status == Captured
  }

  /** How an order's status and its session go together. */
  ghost predicate PaymentOk(o: Order, session: Option<Session>) {
    && (o.payment == Cod ==> session.None? && o.status != PendingPayment)
    && (o.payment == Online && o.status == PendingPayment ==> !IsCaptured(session))
    && (o.payment == Online && o.status != PendingPayment && o.status != Cancelled ==> IsCaptured(session))
    && (o.payment == Online && o.agent.Some? ==> IsCaptured(session))
  }

  ghost predicate OneSessionEach(sessions: seq<Session>) {
    forall i, j | 0 <= i < j < |sessions| :: sessions[i].orderId != sessions[j].orderId
  }

  ghost predicate KeyOk(db: Db, t: Txn) {
    && (t.orderId.Some? ==> t.orderId.value in db.orders)
    && match t.key
       case CodCollectKey(p) => t.orderId == Some(p)
       case CommissionKey(p) => t.orderId == Some(p)
       case ServiceFeeKey(p) => t.orderId == Some(p)
       case DeliveryFeeKey(p) => t.orderId == Some(p)
       case KashierKey(txn) => t.orderId.Some? && txn in db.webhooks
       case SuppliedKey(_) => t.orderId.None? && t.kind == Payout && t.status == TxnSucceeded
  }

  ghost predicate EarningOk(o: Order, earning: Option<Earning>) {
    && (earning.Some? <==> o.status == Delivered)
    && (earning.Some? ==>
          Some(earning.value.agentId) == o.agent && earning.value.currency == o.currency
          && 0 <= earning.value.amount <= o.deliveryFee)
  }

  function EarningOf(db: Db, p: OrderId): Option<Earning> {
    if p in db.earnings then Some(db.earnings[p]) else None
  }

  ghost predicate OrderOk(owners: nat -> nat, db: Db, p: OrderId)
    requires p in db.orders
  {
    var o, s := db.orders[p], SessionOf(db.sessions, p);
    && MoneyOk(owners, o) && PaymentOk(o, s) && EarningOk(o, EarningOf(db, p))
    && RowsOf(db.ledger, p) == ExpectedRows(p, o, s)
  }

  ghost predicate AwaitingOk(db: Db, p: OrderId) {
    && p in db.orders && db.orders[p].payment == Online
    && db.orders[p].status in {PendingPayment, Cancelled}
    && SessionOf(db.sessions, p) == None
  }

  /** Every order's own ledger, payment state and earning. */
  ghost predicate OrdersInv(owners: nat -> nat, db: Db) {
    forall p | p in db.orders :: OrderOk(owners, db, p)
  }

  /** Sessions, pending placements and earnings refer to fitting orders. */
  ghost predicate RefsInv(db: Db) {
    && OneSessionEach(db.sessions)
    && (forall s | s in db.sessions :: SessionOk(db, s))
    && (forall p | p in db.awaitingInit :: AwaitingOk(db, p))
    && db.earnings.Keys <= db.orders.Keys
    && (forall p | p in db.created :: p in db.orders)
  }

  ghost predicate DistinctKeys(rows: seq<Txn>) {
    forall i, j | 0 <= i < j < |rows| :: rows[i].key != rows[j].key
  }

  /** Ledger keys are unique and each belongs to the row it should. */
  ghost predicate KeysInv(db: Db) {
    DistinctKeys(db.ledger) && forall t | t in db.ledger :: KeyOk(db, t)
  }

  ghost predicate Inv(owners: nat -> nat, db: Db) {
    OrdersInv(owners, db) && RefsInv(db) && KeysInv(db)
  }

  // ----- filters ----------------------------------------------------------

  lemma RowsOfAppend(ledger: seq<Txn>, t: Txn, p: OrderId)
    ensures RowsOf(ledger + [t], p) == RowsOf(ledger, p) + if t.orderId == Some(p) then [t] else []
  {
    assert (ledger + [t])[..|ledger|] == ledger;
  }

  lemma {:induction false} RowsOfConcat(a: seq<Txn>, b: seq<Txn>, p: OrderId)
    ensures RowsOf(a + b, p) == RowsOf(a, p) + RowsOf(b, p)
  {
    if |b| == 0 {
      assert a + b == a;
    } else {
      var n := |b| - 1;
      assert a + b == (a + b[..n]) + [b[n]];
      RowsOfAppend(a + b[..n], b[n], p);
      RowsOfConcat(a, b[..n], p);
    }
  }

  lemma FirstIsMember(rows: seq<Txn>)
    ensures rows != [] ==> rows[0] in rows
  {
  }

  lemma {:induction false} RowsOfMembers(ledger: seq<Txn>, p: OrderId)
    ensures forall t :: t in RowsOf(ledger, p) <==> t in ledger && t.orderId == Some(p)
  {
    if |ledger| > 0 {
      var n := |ledger| - 1;
      RowsOfMembers(ledger[..n], p);
      assert ledger == ledger[..n] + [ledger[n]];
    }
  }

  lemma {:induction false} SessionOfIs(sessions: seq<Session>, i: nat)
    requires OneSessionEach(sessions) && i < |sessions|
    ensures SessionOf(sessions, sessions[i].orderId) == Some(sessions[i])
  {
    var n := |sessions| - 1;
    if i < n {
      SessionOfIs(sessions[..n], i);
    }
  }

  lemma {:induction false} SessionOfMembers(sessions: seq<Session>, p: OrderId)
    ensures SessionOf(sessions, p).Some? ==> SessionOf(sessions, p).value in sessions && SessionOf(sessions, p).value.orderId == p
    ensures SessionOf(sessions, p).None? ==> forall s | s in sessions :: s.orderId != p
  {
    if |sessions| > 0 {
      var n := |sessions| - 1;
      SessionOfMembers(sessions[..n], p);
      assert sessions == sessions[..n] + [sessions[n]];
    }
  }

  lemma {:induction false} SessionOfUpdate(sessions: seq<Session>, i: nat, s: Session, p: OrderId)
    requires OneSessionEach(sessions) && i < |sessions| && s.orderId == sessions[i].orderId
    ensures OneSessionEach(sessions[i := s])
    ensures SessionOf(sessions[i := s], p) == if p == s.orderId then Some(s) else SessionOf(sessions, p)
  {
    var n := |sessions| - 1;
    var updated := sessions[i := s];
    if i == n {
      assert updated[..n] == sessions[..n];
    } else {
      assert updated[..n] == sessions[..n][i := s];
      SessionOfUpdate(sessions[..n], i, s, p);
    }
  }

  lemma SessionOfAppend(sessions: seq<Session>, s: Session, p: OrderId)
    ensures SessionOf(sessions + [s], p) == if s.orderId == p then Some(s) else SessionOf(sessions, p)
  {
    assert (sessions + [s])[..|sessions|] == sessions;
  }

  // ----- arithmetic of shares ---------------------------------------------

  /** A share at a rate within 0..10000 lies between nothing and the amount. */
  lemma ShareWithin(amount: int, bps: int)
    requires amount >= 0 && 0 <= bps <= BPS
    ensures 0 <= Share(amount, bps) <= amount
  {
    assert amount * bps >= 0;
    assert amount * bps <= amount * BPS;
  }

  // ----- how each part of the invariant survives a step ---------------------

  lemma KeysKept(db: Db, db': Db, rows: seq<Txn>)
    requires KeysInv(db)
    requires db'.ledger == db.ledger + rows && DistinctKeys(rows)
    requires db.orders.Keys <= db'.orders.Keys && db.webhooks.Keys <= db'.webhooks.Keys
    requires forall r | r in rows :: KeyOk(db', r) && !HasKey(db.ledger, r.key)
    ensures KeysInv(db')
  {
    forall t | t in db'.ledger
      ensures KeyOk(db', t)
    {
      assert t in db.ledger ==> KeyOk(db, t);
    }
    forall i, j | 0 <= i < |db.ledger| <= j < |db'.ledger|
      ensures db'.ledger[i].key != db'.ledger[j].key
    {
      assert db'.ledger[j] == rows[j - |db.ledger|];
    }
    assert forall i, j | |db.ledger| <= i < j < |db'.ledger| ::
        db'.ledger[i] == rows[i - |db.ledger|] && db'.ledger[j] == rows[j - |db.ledger|];
  }

  /** The terms of an order that a payment session copies. */
  predicate SameTerms(o: Order, o': Order) {
    o'.payment == o.payment && o'.total == o.total && o'.currency == o.currency
  }

  lemma RefsKept(db: Db, db': Db)
    requires RefsInv(db)
    requires forall q | q in db.orders :: q in db'.orders && SameTerms(db.orders[q], db'.orders[q])
    requires OneSessionEach(db'.sessions)
    requires forall s | s in db'.sessions :: s in db.sessions || SessionOk(db', s)
    requires forall q | q in db'.awaitingInit :: AwaitingOk(db', q)
    requires db'.earnings.Keys <= db'.orders.Keys
    requires forall q | q in db'.created :: q in db.created || q in db'.orders
    ensures RefsInv(db')
  {
    forall s | s in db'.sessions
      ensures SessionOk(db', s)
    {
      assert s in db.sessions ==> SessionOk(db, s);
    }
  }

  /** One order gains rows; every other order keeps its row, session and earning. */
  lemma OrdersKept(owners: nat -> nat, db: Db, db': Db, p: OrderId, o': Order, rows: seq<Txn>)
    requires OrdersInv(owners, db) && p in db.orders
    requires db'.orders == db.orders[p := o'] && db'.ledger == db.ledger + rows
    requires forall r | r in rows :: r.orderId == Some(p)
    requires forall q | q in db.orders && q != p ::
               EarningOf(db', q) == EarningOf(db, q) && SessionOf(db'.sessions, q) == SessionOf(db.sessions, q)
    requires MoneyOk(owners, o') && PaymentOk(o', SessionOf(db'.sessions, p)) && EarningOk(o', EarningOf(db', p))
    requires ExpectedRows(p, o', SessionOf(db'.sessions, p)) == ExpectedRows(p, db.orders[p], SessionOf(db.sessions, p)) + rows
    ensures OrdersInv(owners, db')
  {
    hide ExpectedRows, MoneyOk, PaymentOk, EarningOk, RowsOf, SessionOf;
    RowsOfAllMine(rows, p);
    forall q | q in db'.orders
      ensures OrderOk(owners, db', q)
    {
      RowsOfConcat(db.ledger, rows, q);
      assert OrderOk(owners, db, q);
    }
  }

  // ----- steps that move no money -----------------------------------------

  /** The same order but for status, agent and stamps, with capture-relevant
      statuses changing only in harmless directions. */
  ghost predicate QuietlyMoved(o: Order, o': Order) {
    && o' == o.(status := o'.status, agent := o'.agent, stamps := o'.stamps)
    && (o.status == Delivered <==> o'.status == Delivered)
    && (o.status == Delivered ==> o'.agent == o.agent)
    && (o.status == PendingPayment ==> o'.status in {PendingPayment, Cancelled})
    && (o'.status == PendingPayment ==> o.status == PendingPayment)
    && (o.status == Cancelled ==> o'.status == Cancelled)
    && (o'.agent.Some? ==> o.agent.Some? || o.status == Ready)
  }

  lemma QuietOrder(owners: nat -> nat, p: OrderId, o: Order, o': Order, s: Option<Session>, e: Option<Earning>)
    requires QuietlyMoved(o, o')
    requires MoneyOk(owners, o) && PaymentOk(o, s) && EarningOk(o, e)
    ensures MoneyOk(owners, o') && PaymentOk(o', s) && EarningOk(o', e)
    ensures ExpectedRows(p, o', s) == ExpectedRows(p, o, s)
  {
  }

  lemma QuietKeeps(owners: nat -> nat, db: Db, db': Db)
    requires Inv(owners, db)
    requires db' == db.(orders := db'.orders, outbox := db'.outbox, clock := db'.clock)
    requires db'.orders.Keys == db.orders.Keys
    requires forall p | p in db.orders :: QuietlyMoved(db.orders[p], db'.orders[p])
    ensures Inv(owners, db')
  {
    forall p | p in db'.orders
      ensures OrderOk(owners, db', p)
    {
      assert OrderOk(owners, db, p);
      QuietOrder(owners, p, db.orders[p], db'.orders[p], SessionOf(db.sessions, p), EarningOf(db, p));
    }
    forall p | p in db'.awaitingInit
      ensures AwaitingOk(db', p)
    {
      assert AwaitingOk(db, p) && QuietlyMoved(db.orders[p], db'.orders[p]);
    }
    RefsKept(db, db');
    KeysKept(db, db', []);
  }

  // ----- placement --------------------------------------------------------

  /** Nothing refers to an order id that is not in use. */
  lemma NoTrace(db: Db, p: OrderId)
    requires RefsInv(db) && KeysInv(db) && p !in db.orders
    ensures SessionOf(db.sessions, p) == None && RowsOf(db.ledger, p) == [] && EarningOf(db, p) == None
  {
    RowsOfMembers(db.ledger, p);
    SessionOfMembers(db.sessions, p);
    assert forall s | s in db.sessions :: SessionOk(db, s);
    FirstIsMember(RowsOf(db.ledger, p));
    assert forall t | t in db.ledger :: KeyOk(db, t);
  }

  lemma NewOrderOk(owners: nat -> nat, r: Placement, now: int)
    requires r.ownerId == owners(r.restaurantId) && r.subtotal >= 0 && r.deliveryFee >= 0
    ensures MoneyOk(owners, NewOrder(r, now)) && PaymentOk(NewOrder(r, now), None) && EarningOk(NewOrder(r, now), None)
    ensures ExpectedRows(r.orderId, NewOrder(r, now), None) == []
  {
  }

  lemma PlaceKeepsOrders(owners: nat -> nat, db: Db, r: Placement, now: int)
    requires OrdersInv(owners, db) && RefsInv(db) && KeysInv(db) && r.orderId !in db.orders
    requires r.ownerId == owners(r.restaurantId) && r.subtotal >= 0 && r.deliveryFee >= 0
    ensures OrdersInv(owners, PlaceOrder(db, r, now).db)
  {
    NoTrace(db, r.orderId);
    NewOrderOk(owners, r, now);
    hide RowsOf, SessionOf, MoneyOk, PaymentOk, EarningOk, ExpectedRows, NewOrder, RefsInv, KeysInv;
    var db' := PlaceOrder(db, r, now).db;
    forall q | q in db'.orders
      ensures OrderOk(owners, db', q)
    {
      assert q != r.orderId ==> OrderOk(owners, db, q);
    }
  }

  lemma PlaceKeeps(owners: nat -> nat, db: Db, r: Placement, now: int)
    requires Inv(owners, db)
    requires r.ownerId == owners(r.restaurantId) && r.subtotal >= 0 && r.deliveryFee >= 0
    ensures Inv(owners, PlaceOrder(db, r, now).db)
  {
    var db', p := PlaceOrder(db, r, now).db, r.orderId;
    if p !in db.orders {
      PlaceKeepsOrders(owners, db, r, now);
      NoTrace(db, p);
      hide OrdersInv, RowsOf, SessionOf, OneSessionEach, SessionOk, KeyOk, DistinctKeys;
      forall q | q in db'.awaitingInit
        ensures AwaitingOk(db', q)
      {
        assert q != p ==> AwaitingOk(db, q);
      }
      RefsKept(db, db');
      KeysKept(db, db', []);
    }
  }

  /** The placement stops waiting for the provider. */
  lemma NoLongerAwaiting(owners: nat -> nat, db: Db, p: OrderId)
    requires Inv(owners, db)
    ensures Inv(owners, db.(awaitingInit := db.awaitingInit - {p}))
  {
    var db' := db.(awaitingInit := db.awaitingInit - {p});
    assert forall q | q in db.orders :: OrderOk(owners, db, q) ==> OrderOk(owners, db', q);
    assert forall q | q in db'.awaitingInit :: AwaitingOk(db, q) ==> AwaitingOk(db', q);
    RefsKept(db, db');
    KeysKept(db, db', []);
  }

  lemma OneMoreSession(sessions: seq<Session>, begun: Session)
    requires OneSessionEach(sessions) && SessionOf(sessions, begun.orderId) == None
    ensures OneSessionEach(sessions + [begun])
    ensures forall q :: SessionOf(sessions + [begun], q) == if q == begun.orderId then Some(begun) else SessionOf(sessions, q)
  {
    SessionOfMembers(sessions, begun.orderId);
    hide SessionOf;
    forall q
      ensures SessionOf(sessions + [begun], q) == if q == begun.orderId then Some(begun) else SessionOf(sessions, q)
    {
      SessionOfAppend(sessions, begun, q);
    }
  }

  lemma SessionKeeps(owners: nat -> nat, db: Db, p: OrderId)
    requires Inv(owners, db)
    requires AwaitingOk(db, p) && p !in db.awaitingInit
    ensures Inv(owners, db.(sessions := db.sessions + [Session(p, db.orders[p].total, db.orders[p].currency, Initialized, None)]))
  {
    hide RowsOf, SessionOf, MoneyOk, EarningOk, KeyOk, SettlementRows, OneSessionEach, DistinctKeys;
    var begun := Session(p, db.orders[p].total, db.orders[p].currency, Initialized, None);
    var db' := db.(sessions := db.sessions + [begun]);
    OneMoreSession(db.sessions, begun);
    forall q | q in db'.awaitingInit
      ensures AwaitingOk(db', q)
    {
      assert AwaitingOk(db, q);
    }
    assert OrderOk(owners, db, p);
    OrdersKept(owners, db, db', p, db.orders[p], []);
    RefsKept(db, db');
    KeysKept(db, db', []);
  }

  lemma FinishKeeps(owners: nat -> nat, db: Db, p: OrderId, init: InitOutcome, now: int)
    requires Inv(owners, db)
    ensures Inv(owners, FinishPlacement(db, p, init, now).db)
  {
    if p in db.awaitingInit && p in db.orders {
      assert AwaitingOk(db, p);
      var rest := db.(awaitingInit := db.awaitingInit - {p});
      NoLongerAwaiting(owners, db, p);
      SessionOfMembers(db.sessions, p);
      match init
      case SessionCreated => SessionKeeps(owners, rest, p);
      case ProviderFailed => QuietKeeps(owners, rest, FinishPlacement(db, p, init, now).db);
      case ProviderFailedAndVoidFailed =>
    }
  }

  // ----- webhook ----------------------------------------------------------

  /** A webhook not seen before cannot collide with a key already in the ledger,
      so the plain insert of its charge never violates uniqueness. */
  lemma UnseenTxnHasNoKey(db: Db, txn: string)
    requires KeysInv(db) && txn !in db.webhooks
    ensures !HasKey(db.ledger, KashierKey(txn))
  {
    forall i | 0 <= i < |db.ledger|
      ensures db.ledger[i].key != KashierKey(txn)
    {
      assert KeyOk(db, db.ledger[i]);
    }
  }

  lemma RecordedKeeps(owners: nat -> nat, db: Db, webhooks: map<string, WebhookRow>)
    requires Inv(owners, db) && db.webhooks.Keys <= webhooks.Keys
    ensures Inv(owners, db.(webhooks := webhooks))
  {
    var db' := db.(webhooks := webhooks);
    assert forall p | p in db.orders :: OrderOk(owners, db, p) ==> OrderOk(owners, db', p);
    assert forall p | p in db.awaitingInit :: AwaitingOk(db, p) ==> AwaitingOk(db', p);
    RefsKept(db, db');
    KeysKept(db, db', []);
  }

  /** The order after its session left the active state. */
  lemma ChargedOrder(owners: nat -> nat, p: OrderId, o: Order, o': Order, s: Session, txn: string, success: bool, e: Option<Earning>)
    requires MoneyOk(owners, o) && PaymentOk(o, Some(s)) && EarningOk(o, e)
    requires o.payment == Online && s.status == Initialized && s.lastTxn.None?
    requires o' == if success && o.status == PendingPayment then o.(status := Placed, stamps := o'.stamps) else o
    ensures var s' := s.(status := if success then Captured else Failed, lastTxn := Some(txn));
            && MoneyOk(owners, o') && PaymentOk(o', Some(s')) && EarningOk(o', e)
            && ExpectedRows(p, o', Some(s')) == ExpectedRows(p, o, Some(s)) + [ChargeRow(p, o, s, txn, success)]
  {
    assert o.status in {PendingPayment, Cancelled};
  }

  lemma ChargeKeeps(owners: nat -> nat, db: Db, db': Db, w: Webhook, i: nat, o': Order)
    requires Inv(owners, db) && w.txn in db.webhooks && w.orderId in db.orders
    requires FindActive(db.sessions, w.orderId) == Some(i) && !HasKey(db.ledger, KashierKey(w.txn))
    requires var o, s := db.orders[w.orderId], db.sessions[i];
             && o' == (if w.success && o.status == PendingPayment then o.(status := Placed, stamps := o'.stamps) else o)
             && db' == db.(orders := db.orders[w.orderId := o'], outbox := db'.outbox,
                           sessions := db.sessions[i := s.(status := if w.success then Captured else Failed, lastTxn := Some(w.txn))],
                           ledger := db.ledger + [ChargeRow(w.orderId, o, s, w.txn, w.success)])
    ensures Inv(owners, db')
  {
    hide ExpectedRows, MoneyOk, PaymentOk, EarningOk, RowsOf, SessionOf;
    var p, s := w.orderId, db.sessions[i];
    var o, row := db.orders[p], ChargeRow(p, db.orders[p], s, w.txn, w.success);
    var s' := s.(status := if w.success then Captured else Failed, lastTxn := Some(w.txn));
    assert SessionOk(db, s) && OrderOk(owners, db, p);
    SessionOfIs(db.sessions, i);
    ChargedOrder(owners, p, o, o', s, w.txn, w.success, EarningOf(db, p));
    forall q
      ensures SessionOf(db'.sessions, q) == if q == p then Some(s') else SessionOf(db.sessions, q)
    {
      SessionOfUpdate(db.sessions, i, s', q);
    }
    SessionOfUpdate(db.sessions, i, s', p);
    OrdersKept(owners, db, db', p, o', [row]);
    forall q | q in db'.awaitingInit
      ensures AwaitingOk(db', q)
    {
      assert AwaitingOk(db, q);
    }
    RefsKept(db, db');
    KeysKept(db, db', [row]);
  }

  lemma ReconcileKeeps(owners: nat -> nat, db: Db, w: Webhook, now: int)
    requires Inv(owners, db) && w.txn in db.webhooks
    ensures var r := Reconcile(db, w, false, now); r.Some? ==> Inv(owners, r.value)
  {
    var r := Reconcile(db, w, false, now);
    if w.isPay && w.orderId in db.orders && r.Some? {
      match FindActive(db.sessions, w.orderId)
      case None =>
      case Some(i) =>
        ChargeKeeps(owners, db, r.value, w, i, r.value.orders[w.orderId]);
    }
  }

  lemma WebhookKeeps(owners: nat -> nat, db: Db, w: Webhook, fate: Fate, now: int)
    requires Inv(owners, db)
    ensures Inv(owners, ProcessWebhook(db, w, fate, now).db)
  {
    if w.txn !in db.webhooks {
      var recorded := db.(webhooks := db.webhooks[w.txn := WebhookRow(false, false)]);
      RecordedKeeps(owners, db, recorded.webhooks);
      RecordedKeeps(owners, db, db.webhooks[w.txn := WebhookRow(true, true)]);
      ReconcileKeeps(owners, recorded, w, now);
      var r := Reconcile(recorded, w, fate == TransactionFails, now);
      if r.Some? {
        RecordedKeeps(owners, r.value, db.webhooks[w.txn := WebhookRow(true, false)]);
      }
    }
  }

  // ----- settlement -------------------------------------------------------

  lemma KeyInAppended(ledger: seq<Txn>, t: Txn, key: Key)
    ensures HasKey(ledger + [t], key) <==> HasKey(ledger, key) || t.key == key
  {
    var all := ledger + [t];
    assert forall i | 0 <= i < |ledger| :: all[i] == ledger[i];
    assert all[|ledger|] == t;
  }

  /** Rows that do not carry a key leave it as it was. */
  lemma {:induction false} KeyInInsertAll(ledger: seq<Txn>, rows: seq<Txn>, key: Key)
    requires forall r | r in rows :: r.key != key
    ensures HasKey(InsertAllIgnore(ledger, rows), key) <==> HasKey(ledger, key)
    decreases |rows|
  {
    hide HasKey;
    if |rows| > 0 {
      KeyInAppended(ledger, rows[0], key);
      KeyInInsertAll(InsertIgnore(ledger, rows[0]), rows[1..], key);
    }
  }

  lemma {:induction false} InsertAllFresh(ledger: seq<Txn>, rows: seq<Txn>)
    requires DistinctKeys(rows) && forall r | r in rows :: !HasKey(ledger, r.key)
    ensures InsertAllIgnore(ledger, rows) == ledger + rows
    decreases |rows|
  {
    if |rows| == 0 {
      assert ledger + rows == ledger;
    } else {
      var longer := ledger + [rows[0]];
      forall r | r in rows[1..]
        ensures !HasKey(longer, r.key)
      {
        assert !HasKey(ledger, r.key);
      }
      InsertAllFresh(longer, rows[1..]);
      assert longer + rows[1..] == ledger + rows;
    }
  }

  /** Rows whose keys are all taken add nothing. */
  lemma {:induction false} InsertAllTaken(ledger: seq<Txn>, rows: seq<Txn>)
    requires forall r | r in rows :: HasKey(ledger, r.key)
    ensures InsertAllIgnore(ledger, rows) == ledger
    decreases |rows|
  {
    if |rows| > 0 {
      InsertAllTaken(ledger, rows[1..]);
    }
  }

  /** The four keys a settlement may use. */
  predicate SettlementKey(key: Key, p: OrderId) {
    key == CodCollectKey(p) || key == CommissionKey(p) || key == ServiceFeeKey(p) || key == DeliveryFeeKey(p)
  }

  predicate Lacks(rows: seq<Txn>, key: Key) {
    forall r | r in rows :: r.key != key
  }

  /** At most one row, of an order, with this key. */
  predicate OneRow(rows: seq<Txn>, p: OrderId, key: Key) {
    |rows| <= 1 && forall r | r in rows :: r.orderId == Some(p) && r.status == TxnSucceeded && r.key == key
  }

  ghost predicate Shaped(rows: seq<Txn>, p: OrderId) {
    DistinctKeys(rows) && forall r | r in rows :: r.orderId == Some(p) && r.status == TxnSucceeded && SettlementKey(r.key, p)
  }

  lemma OneMoreRow(row: seq<Txn>, rest: seq<Txn>, p: OrderId, key: Key)
    requires OneRow(row, p, key) && SettlementKey(key, p) && Shaped(rest, p) && Lacks(rest, key)
    ensures Shaped(row + rest, p)
    ensures forall k | k != key && Lacks(rest, k) :: Lacks(row + rest, k)
  {
    var all := row + rest;
    hide SettlementKey;
    forall i, j | 0 <= i < j < |all|
      ensures all[i].key != all[j].key
    {
      assert i < |row| ==> all[i] in row && all[j] in rest;
    }
  }

  lemma SettlementRowsShape(p: OrderId, o: Order, commission: int)
    ensures DistinctKeys(SettlementRows(p, o, commission))
    ensures forall r | r in SettlementRows(p, o, commission) ::
              r.orderId == Some(p) && r.status == TxnSucceeded && SettlementKey(r.key, p)
  {
    var cod := if o.payment == Cod then [CodRow(p, o)] else [];
    var com := if commission > 0 then [PlatformRow(p, o, Commission, commission, CommissionKey(p))] else [];
    var fee := if o.serviceFee > 0 then [PlatformRow(p, o, Adjustment, o.serviceFee, ServiceFeeKey(p))] else [];
    var del := if o.deliveryFee > 0 then [PlatformRow(p, o, Adjustment, o.deliveryFee, DeliveryFeeKey(p))] else [];
    assert SettlementRows(p, o, commission) == cod + (com + (fee + del));
    assert OneRow(cod, p, CodCollectKey(p)) && OneRow(com, p, CommissionKey(p));
    assert OneRow(fee, p, ServiceFeeKey(p)) && OneRow(del, p, DeliveryFeeKey(p));
    hide SettlementRows, CodRow, PlatformRow, OneRow, Lacks, DistinctKeys;
    NoRows(p);
    OneMoreRow(del, [], p, DeliveryFeeKey(p));
    assert del + [] == del;
    OneMoreRow(fee, del, p, ServiceFeeKey(p));
    OneMoreRow(com, fee + del, p, CommissionKey(p));
    OneMoreRow(cod, com + (fee + del), p, CodCollectKey(p));
  }

  lemma NoRows(p: OrderId)
    ensures Shaped([], p) && forall k :: Lacks([], k)
  {
  }

  lemma {:induction false} RowsOfMine(rows: seq<Txn>, p: OrderId, q: OrderId)
    requires forall i | 0 <= i < |rows| :: rows[i].orderId == Some(p)
    ensures RowsOf(rows, q) == if p == q then rows else []
  {
    if |rows| > 0 {
      hide RowsOf;
      var n := |rows| - 1;
      RowsOfMine(rows[..n], p, q);
      RowsOfAppend(rows[..n], rows[n], q);
      assert rows == rows[..n] + [rows[n]];
    }
  }

  lemma RowsOfAllMine(rows: seq<Txn>, p: OrderId)
    requires forall r | r in rows :: r.orderId == Some(p)
    ensures RowsOf(rows, p) == rows
    ensures forall q | q != p :: RowsOf(rows, q) == []
  {
    hide RowsOf;
    assert forall i | 0 <= i < |rows| :: rows[i] in rows;
    RowsOfMine(rows, p, p);
    forall q | q != p
      ensures RowsOf(rows, q) == []
    {
      RowsOfMine(rows, p, q);
    }
  }

  /** Until an order is delivered, none of its settlement keys is taken. */
  lemma SettlementKeysFree(owners: nat -> nat, db: Db, p: OrderId, key: Key)
    requires Inv(owners, db) && p in db.orders && db.orders[p].status != Delivered
    requires SettlementKey(key, p)
    ensures !HasKey(db.ledger, key)
  {
    assert OrderOk(owners, db, p);
    RowsOfMembers(db.ledger, p);
    forall i | 0 <= i < |db.ledger|
      ensures db.ledger[i].key != key
    {
      var t := db.ledger[i];
      assert t in db.ledger && KeyOk(db, t);
      assert t.key == key ==> t in RowsOf(db.ledger, p);
    }
  }

  /** A first settlement appends its rows, all of them. */
  lemma SettlementAppends(owners: nat -> nat, db: Db, p: OrderId, commission: int)
    requires Inv(owners, db) && p in db.orders && db.orders[p].status != Delivered
    ensures var rows := SettlementRows(p, db.orders[p], commission);
            InsertAllIgnore(db.ledger, rows) == db.ledger + rows
            && forall r | r in rows :: !HasKey(db.ledger, r.key)
  {
    var rows := SettlementRows(p, db.orders[p], commission);
    SettlementRowsShape(p, db.orders[p], commission);
    forall r | r in rows
      ensures !HasKey(db.ledger, r.key)
    {
      SettlementKeysFree(owners, db, p, r.key);
    }
    InsertAllFresh(db.ledger, rows);
  }

  lemma SettledOrder(owners: nat -> nat, p: OrderId, o: Order, agentId: nat, commission: int, shareBps: int, now: int, s: Option<Session>, e: Option<Earning>)
    requires MoneyOk(owners, o) && PaymentOk(o, s) && EarningOk(o, e) && o.agent == Some(agentId) && o.status != Delivered
    requires 0 <= commission <= o.subtotal && 0 <= shareBps <= BPS
    ensures var o' := Moved(o.(commission := commission), Delivered, DeliveredAt, now);
            && MoneyOk(owners, o') && PaymentOk(o', s)
            && e.None? && EarningOk(o', Some(Earning(agentId, Share(o.deliveryFee, shareBps), o.currency)))
            && ExpectedRows(p, o', s) == ExpectedRows(p, o, s) + SettlementRows(p, o, commission)
  {
    ShareWithin(o.deliveryFee, shareBps);
  }

  lemma CommissionWithin(owners: nat -> nat, o: Order, bps: Option<int>)
    requires MoneyOk(owners, o) && (bps.Some? ==> 0 <= bps.value <= BPS)
    ensures 0 <= CommissionOf(o, bps) <= o.subtotal
  {
    if bps.Some? {
      ShareWithin(o.subtotal, bps.value);
    }
  }

  lemma SettleOrdersKept(owners: nat -> nat, db: Db, p: OrderId, agentId: nat, bps: Option<int>, shareBps: int, now: int)
    requires Inv(owners, db) && p in db.orders && db.orders[p].agent == Some(agentId) && db.orders[p].status != Delivered
    requires (bps.Some? ==> 0 <= bps.value <= BPS) && 0 <= shareBps <= BPS
    ensures OrdersInv(owners, SettleDelivered(db, p, agentId, bps, shareBps, now).db)
  {
    hide ExpectedRows, MoneyOk, PaymentOk, EarningOk, RowsOf, SessionOf, SettlementRows;
    var o, db' := db.orders[p], SettleDelivered(db, p, agentId, bps, shareBps, now).db;
    assert OrderOk(owners, db, p);
    CommissionWithin(owners, o, bps);
    var rows := SettlementRows(p, o, CommissionOf(o, bps));
    SettlementRowsShape(p, o, CommissionOf(o, bps));
    SettlementAppends(owners, db, p, CommissionOf(o, bps));
    SettledOrder(owners, p, o, agentId, CommissionOf(o, bps), shareBps, now, SessionOf(db.sessions, p), EarningOf(db, p));
    OrdersKept(owners, db, db', p, db'.orders[p], rows);
  }

  /** An order still waiting for the provider has no agent. */
  lemma AwaitingHasNoAgent(owners: nat -> nat, db: Db, p: OrderId)
    requires Inv(owners, db) && p in db.awaitingInit
    ensures p in db.orders && db.orders[p].agent.None?
  {
    assert AwaitingOk(db, p) && OrderOk(owners, db, p);
  }

  lemma SettleKeeps(owners: nat -> nat, db: Db, p: OrderId, agentId: nat, bps: Option<int>, shareBps: int, now: int)
    requires Inv(owners, db)
    requires p in db.orders && db.orders[p].agent == Some(agentId) ==> db.orders[p].status != Delivered
    requires (bps.Some? ==> 0 <= bps.value <= BPS) && 0 <= shareBps <= BPS
    ensures Inv(owners, SettleDelivered(db, p, agentId, bps, shareBps, now).db)
  {
    hide OrderOk, SettlementRows;
    if p in db.orders && db.orders[p].agent == Some(agentId) {
      var o, db' := db.orders[p], SettleDelivered(db, p, agentId, bps, shareBps, now).db;
      SettleOrdersKept(owners, db, p, agentId, bps, shareBps, now);
      var rows := SettlementRows(p, o, CommissionOf(o, bps));
      SettlementRowsShape(p, o, CommissionOf(o, bps));
      SettlementAppends(owners, db, p, CommissionOf(o, bps));
      forall q | q in db'.awaitingInit
        ensures AwaitingOk(db', q)
      {
        AwaitingHasNoAgent(owners, db, q);
        assert AwaitingOk(db, q);
      }
      RefsKept(db, db');
      KeysKept(db, db', rows);
    }
  }

  // ----- payouts ----------------------------------------------------------

  lemma PayoutKeeps(owners: nat -> nat, db: Db, restaurantId: nat, currency: string, amount: int, keyText: string)
    requires Inv(owners, db)
    ensures Inv(owners, PayOut(db, restaurantId, currency, amount, keyText).db)
  {
    hide ExpectedRows, MoneyOk, PaymentOk, EarningOk, RowsOf, SessionOf;
    var db' := PayOut(db, restaurantId, currency, amount, keyText).db;
    if db'.ledger != db.ledger {
      var row := db'.ledger[|db.ledger|];
      forall q | q in db'.orders
        ensures OrderOk(owners, db', q)
      {
        RowsOfAppend(db.ledger, row, q);
        assert OrderOk(owners, db, q);
      }
      assert forall q | q in db'.awaitingInit :: AwaitingOk(db, q) ==> AwaitingOk(db', q);
      RefsKept(db, db');
      KeysKept(db, db', [row]);
    }
  }

  // ----- every run --------------------------------------------------------

  lemma QuietStatusChange(o: Order, c: Caller, to: Status, hasReason: bool, now: int)
    requires to != Delivered && ResolveActor(c, o).Some?
    requires AssertTransition(o.status, to, ResolveActor(c, o).value, hasReason, o.stamps.createdAt, o.stamps.acceptedAt, now).Allowed?
    ensures forall stamp :: QuietlyMoved(o, Moved(o, to, stamp, now))
  {
    assert ResolveActor(c, o).value != System;
  }

  lemma MoveIsQuiet(owners: nat -> nat, db: Db, e: Timed, p: OrderId)
    requires Sound(owners, db, e) && p in db.orders
    requires e.request.UpdateStatus? || e.request.Claim? || e.request.Pick? || e.request.GoOffline?
    ensures p in Exec(db, e).db.orders && QuietlyMoved(db.orders[p], Exec(db, e).db.orders[p])
  {
    hide AssertTransition, ResolveActor, Stamped;
    if e.request.UpdateStatus? && e.request.p == p && Exec(db, e).outcome == Done {
      QuietStatusChange(db.orders[p], e.request.caller, e.request.to, e.request.hasReason, e.now);
    }
  }

  /** Status changes, claims, pick-ups and releases leave all money alone. */
  lemma MoveKeeps(owners: nat -> nat, db: Db, e: Timed)
    requires Inv(owners, db) && Sound(owners, db, e)
    requires e.request.UpdateStatus? || e.request.Claim? || e.request.Pick? || e.request.GoOffline?
    ensures Inv(owners, Exec(db, e).db)
  {
    hide OrdersInv, RefsInv, KeysInv, AssertTransition, ResolveActor, Moved, QuietlyMoved, Released, HeldBy, Sound;
    var db' := Exec(db, e).db;
    forall p | p in db.orders
      ensures p in db'.orders && QuietlyMoved(db.orders[p], db'.orders[p])
    {
      MoveIsQuiet(owners, db, e, p);
    }
    QuietKeeps(owners, db, db');
  }

  lemma StepKeeps(owners: nat -> nat, db: Db, e: Timed)
    requires Inv(owners, db) && Sound(owners, db, e)
    ensures Inv(owners, After(db, e))
  {
    hide OrdersInv, RefsInv, KeysInv;
    match e.request {
      case Place(r) => PlaceKeeps(owners, db, r, e.now);
      case FinishInit(p, init) => FinishKeeps(owners, db, p, init, e.now);
      case Deliver(w, fate) => WebhookKeeps(owners, db, w, fate, e.now);
      case Settle(p, a, bps, share) => SettleKeeps(owners, db, p, a, bps, share, e.now);
      case RecordPayout(r, c, amount, key) => PayoutKeeps(owners, db, r, c, amount, key);
      case _ => MoveKeeps(owners, db, e);
    }
    ClockKeeps(owners, Exec(db, e).db, e.now);
  }

  lemma ClockKeeps(owners: nat -> nat, db: Db, now: int)
    requires Inv(owners, db)
    ensures Inv(owners, db.(clock := now))
  {
    var db' := db.(clock := now);
    assert forall p | p in db.orders :: OrderOk(owners, db, p) ==> OrderOk(owners, db', p);
    assert forall p | p in db.awaitingInit :: AwaitingOk(db, p) ==> AwaitingOk(db', p);
    RefsKept(db, db');
    KeysKept(db, db', []);
  }

  /** In every reachable state each order's ledger is exactly the one its status
      and its payment session call for. */
  lemma {:induction false} LedgerIsDetermined(owners: nat -> nat, es: seq<Timed>)
    requires SoundRun(owners, es)
    ensures Inv(owners, Run(EMPTY, es))
  {
    if |es| > 0 {
      LedgerIsDetermined(owners, es[..|es| - 1]);
      StepKeeps(owners, Run(EMPTY, es[..|es| - 1]), es[|es| - 1]);
    }
  }
}
