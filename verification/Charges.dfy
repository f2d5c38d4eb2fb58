/** What the ledger of an order says about who paid, in every reachable state. */
module Charges {
  import opened Common
  import opened OrderStatus
  import opened Tables
  import opened Lifecycle
  import opened Ledger

  /** The succeeded rows of one kind that a ledger holds for an order. */
  function Booked(ledger: seq<Txn>, p: OrderId, kind: TxnKind): seq<Txn> {
    if |ledger| == 0 then []
    else
      var n := |ledger| - 1;
      Booked(ledger[..n], p, kind) +
      if ledger[n].orderId == Some(p) && ledger[n].kind == kind && ledger[n].status == TxnSucceeded then [ledger[n]] else []
  }

  lemma BookedAppend(ledger: seq<Txn>, t: Txn, p: OrderId, kind: TxnKind)
    ensures Booked(ledger + [t], p, kind) ==
            Booked(ledger, p, kind) + if t.orderId == Some(p) && t.kind == kind && t.status == TxnSucceeded then [t] else []
  {
    assert (ledger + [t])[..|ledger|] == ledger;
  }

  lemma {:induction false} BookedConcat(a: seq<Txn>, b: seq<Txn>, p: OrderId, kind: TxnKind)
    ensures Booked(a + b, p, kind) == Booked(a, p, kind) + Booked(b, p, kind)
  {
    if |b| == 0 {
      assert a + b == a;
    } else {
      var n := |b| - 1;
      assert a + b == (a + b[..n]) + [b[n]];
      BookedAppend(a + b[..n], b[n], p, kind);
      BookedConcat(a, b[..n], p, kind);
    }
  }

  lemma {:induction false} BookedFromRows(ledger: seq<Txn>, p: OrderId, kind: TxnKind)
    ensures Booked(ledger, p, kind) == Booked(RowsOf(ledger, p), p, kind)
  {
    if |ledger| > 0 {
      var n := |ledger| - 1;
      BookedFromRows(ledger[..n], p, kind);
      if ledger[n].orderId == Some(p) {
        BookedAppend(RowsOf(ledger[..n], p), ledger[n], p, kind);
      } else {
        assert RowsOf(ledger, p) == RowsOf(ledger[..n], p);
      }
    }
  }

  lemma BookedIf(present: bool, t: Txn, p: OrderId, kind: TxnKind)
    ensures Booked(if present then [t] else [], p, kind) ==
            if present && t.orderId == Some(p) && t.kind == kind && t.status == TxnSucceeded then [t] else []
  {
    assert [t][..0] == [];
  }

  function Amounts(rows: seq<Txn>): int {
    if |rows| == 0 then 0 else rows[0].amount + Amounts(rows[1..])
  }

  /** What a settlement books under one kind. */
  function SettlementOfKind(p: OrderId, o: Order, commission: int, kind: TxnKind): seq<Txn> {
    match kind
    case CodCollection => if o.payment == Cod then [CodRow(p, o)] else []
    case Commission => if commission > 0 then [PlatformRow(p, o, Commission, commission, CommissionKey(p))] else []
    case Adjustment =>
      (if o.serviceFee > 0 then [PlatformRow(p, o, Adjustment, o.serviceFee, ServiceFeeKey(p))] else []) +
      (if o.deliveryFee > 0 then [PlatformRow(p, o, Adjustment, o.deliveryFee, DeliveryFeeKey(p))] else [])
    case _ => []
  }

  lemma BookedInSettlement(p: OrderId, o: Order, commission: int, kind: TxnKind)
    ensures Booked(SettlementRows(p, o, commission), p, kind) == SettlementOfKind(p, o, commission, kind)
  {
    hide Booked;
    var cod, com := CodRow(p, o), PlatformRow(p, o, Commission, commission, CommissionKey(p));
    var svc := PlatformRow(p, o, Adjustment, o.serviceFee, ServiceFeeKey(p));
    var del := PlatformRow(p, o, Adjustment, o.deliveryFee, DeliveryFeeKey(p));
    var tail2 := if o.deliveryFee > 0 then [del] else [];
    var tail1 := (if o.serviceFee > 0 then [svc] else []) + tail2;
    BookedConcat(if o.serviceFee > 0 then [svc] else [], tail2, p, kind);
    BookedConcat(if commission > 0 then [com] else [], tail1, p, kind);
    BookedConcat(if o.payment == Cod then [cod] else [], (if commission > 0 then [com] else []) + tail1, p, kind);
    BookedIf(o.payment == Cod, cod, p, kind);
    BookedIf(commission > 0, com, p, kind);
    BookedIf(o.serviceFee > 0, svc, p, kind);
    BookedIf(o.deliveryFee > 0, del, p, kind);
  }

  lemma BookedInCharges(p: OrderId, o: Order, session: Option<Session>, kind: TxnKind)
    ensures Booked(ChargeRows(p, o, session), p, kind) ==
            if kind == Charge && IsCaptured(session) && session.value.lastTxn.Some?
            then [ChargeRow(p, o, session.value, session.value.lastTxn.value, true)] else []
  {
    if ChargeRows(p, o, session) != [] {
      BookedIf(true, ChargeRows(p, o, session)[0], p, kind);
    }
  }

  /** The succeeded ledger rows of an order, kind by kind. */
  lemma BookedExactly(owners: nat -> nat, db: Db, p: OrderId, kind: TxnKind)
    requires Inv(owners, db) && p in db.orders
    ensures var o, s := db.orders[p], SessionOf(db.sessions, p);
            Booked(db.ledger, p, kind) ==
            (if kind == Charge && IsCaptured(s) && s.value.lastTxn.Some?
             then [ChargeRow(p, o, s.value, s.value.lastTxn.value, true)] else [])
            + (if o.status == Delivered then SettlementOfKind(p, o, o.commission, kind) else [])
  {
    hide SettlementRows, ChargeRows, MoneyOk, PaymentOk, EarningOk;
    var o, s := db.orders[p], SessionOf(db.sessions, p);
    assert OrderOk(owners, db, p);
    var settled := if o.status == Delivered then SettlementRows(p, o, o.commission) else [];
    BookedInSettlement(p, o, o.commission, kind);
    BookedInCharges(p, o, s, kind);
    BookedFromRows(db.ledger, p, kind);
    BookedConcat(ChargeRows(p, o, s), settled, p, kind);
  }

  /** An online order has one succeeded charge, of exactly its total and credited
      to its owner, if and only if its session is captured; it has none while it
      waits for payment and one in every later status but `cancelled`. A cash
      order never has a charge, and has its collection exactly when delivered. */
  lemma ChargedExactlyWhenCaptured(owners: nat -> nat, es: seq<Timed>, p: OrderId)
    requires SoundRun(owners, es) && p in Run(EMPTY, es).orders
    ensures var db := Run(EMPTY, es);
            var o, s := db.orders[p], SessionOf(db.sessions, p);
            var charges, collections := Booked(db.ledger, p, Charge), Booked(db.ledger, p, CodCollection);
            && |charges| == (if IsCaptured(s) then 1 else 0)
            && (IsCaptured(s) ==> charges[0].amount == o.total && charges[0].currency == o.currency
                                  && charges[0].src == Some(o.customerId) && charges[0].dst == Some(o.ownerId))
            && (o.status == PendingPayment ==> charges == [])
            && (o.payment == Online && o.status != PendingPayment && o.status != Cancelled ==> |charges| == 1)
            && (o.payment == Cod ==> charges == [])
            && (o.payment == Online ==> collections == [])
            && (o.payment == Cod && o.status != Delivered ==> collections == [])
            && (o.payment == Cod && o.status == Delivered ==> collections == [CodRow(p, o)])
  {
    LedgerIsDetermined(owners, es);
    var db := Run(EMPTY, es);
    var o, s := db.orders[p], SessionOf(db.sessions, p);
    BookedExactly(owners, db, p, Charge);
    BookedExactly(owners, db, p, CodCollection);
    assert OrderOk(owners, db, p);
    SessionOfMembers(db.sessions, p);
    assert s.Some? ==> SessionOk(db, s.value);
  }

  /** Money is conserved in every delivered order: the one payment the customer
      made equals what stays with the restaurant plus the commission and the two
      fees booked to the platform, and exactly one earning, no larger than the
      delivery fee, is owed to the agent who delivered. */
  lemma DeliveredOrderConservesMoney(owners: nat -> nat, es: seq<Timed>, p: OrderId)
    requires SoundRun(owners, es) && p in Run(EMPTY, es).orders && Run(EMPTY, es).orders[p].status == Delivered
    ensures var db := Run(EMPTY, es);
            var o := db.orders[p];
            var paid := Amounts(Booked(db.ledger, p, Charge)) + Amounts(Booked(db.ledger, p, CodCollection));
            var commission, fees := Amounts(Booked(db.ledger, p, Commission)), Amounts(Booked(db.ledger, p, Adjustment));
            && paid == o.total && commission == o.commission && fees == o.serviceFee + o.deliveryFee
            && paid == (o.subtotal - o.commission) + commission + fees
            && 0 <= o.commission <= o.subtotal
            && p in db.earnings && Some(db.earnings[p].agentId) == o.agent && 0 <= db.earnings[p].amount <= o.deliveryFee
  {
    hide RowsOf, SessionOf, ExpectedRows, Booked, Run, Legal;
    LedgerIsDetermined(owners, es);
    var db := Run(EMPTY, es);
    var o := db.orders[p];
    assert OrderOk(owners, db, p);
    ChargedExactlyWhenCaptured(owners, es, p);
    BookedExactly(owners, db, p, Commission);
    BookedExactly(owners, db, p, Adjustment);
    var svc := [PlatformRow(p, o, Adjustment, o.serviceFee, ServiceFeeKey(p))];
    var del := if o.deliveryFee > 0 then [PlatformRow(p, o, Adjustment, o.deliveryFee, DeliveryFeeKey(p))] else [];
    AmountsConcat(svc, del);
    assert Booked(db.ledger, p, Adjustment) == svc + del;
  }

  lemma {:induction false} AmountsConcat(a: seq<Txn>, b: seq<Txn>)
    ensures Amounts(a + b) == Amounts(a) + Amounts(b)
  {
    if |a| == 0 {
      assert a + b == b;
    } else {
      assert (a + b)[1..] == a[1..] + b;
      AmountsConcat(a[1..], b);
    }
  }
}
