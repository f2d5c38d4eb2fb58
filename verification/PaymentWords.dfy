/** The payment events of one order and its charges in the ledger tell the same story. */
module PaymentWords {
  import opened Common
  import opened OrderStatus
  import opened Tables
  import opened Lifecycle

  /** The payment events of one order, oldest first. */
  function PaymentEvents(events: seq<Event>, p: OrderId): seq<EventKind> {
    if |events| == 0 then []
    else
      var last := events[|events| - 1];
      PaymentEvents(events[..|events| - 1], p)
      + if last.order == p && (last.kind == PaymentCompleted || last.kind == PaymentFailed) then [last.kind] else []
  }

  /** The charges of one order in the ledger, each as the event it should be known by. */
  function ChargesTold(ledger: seq<Txn>, p: OrderId): seq<EventKind> {
    if |ledger| == 0 then []
    else
      var last := ledger[|ledger| - 1];
      ChargesTold(ledger[..|ledger| - 1], p)
      + if last.orderId == Some(p) && last.kind == Charge then [if last.status == TxnSucceeded then PaymentCompleted else PaymentFailed] else []
  }

  lemma EventsAppend(events: seq<Event>, e: Event, p: OrderId)
    ensures PaymentEvents(events + [e], p)
         == PaymentEvents(events, p) + if e.order == p && (e.kind == PaymentCompleted || e.kind == PaymentFailed) then [e.kind] else []
  {
    assert (events + [e])[..|events|] == events;
  }

  lemma ChargesAppend(ledger: seq<Txn>, t: Txn, p: OrderId)
    ensures ChargesTold(ledger + [t], p)
         == ChargesTold(ledger, p)
            + if t.orderId == Some(p) && t.kind == Charge then [if t.status == TxnSucceeded then PaymentCompleted else PaymentFailed] else []
  {
    assert (ledger + [t])[..|ledger|] == ledger;
  }

  /** Rows of other kinds tell nothing. */
  lemma {:induction false} InsertsTellNothing(ledger: seq<Txn>, rows: seq<Txn>, p: OrderId)
    requires forall i | 0 <= i < |rows| :: rows[i].kind != Charge
    ensures ChargesTold(InsertAllIgnore(ledger, rows), p) == ChargesTold(ledger, p)
    decreases |rows|
  {
    hide ChargesTold, HasKey;
    if |rows| > 0 {
      ChargesAppend(ledger, rows[0], p);
      InsertsTellNothing(InsertIgnore(ledger, rows[0]), rows[1..], p);
    }
  }

  lemma SettlementTellsNothing(ledger: seq<Txn>, p: OrderId, o: Order, commission: int, q: OrderId)
    ensures ChargesTold(InsertAllIgnore(ledger, SettlementRows(p, o, commission)), q) == ChargesTold(ledger, q)
  {
    assert forall i | 0 <= i < |SettlementRows(p, o, commission)| :: SettlementRows(p, o, commission)[i].kind != Charge;
    hide SettlementRows;
    InsertsTellNothing(ledger, SettlementRows(p, o, commission), q);
  }

  ghost predicate ToldAlike(db: Db, p: OrderId) {
    PaymentEvents(db.outbox, p) == ChargesTold(db.ledger, p)
  }

  lemma WebhookTellsAlike(db: Db, e: Timed, p: OrderId)
    requires ToldAlike(db, p) && e.request.Deliver?
    ensures ToldAlike(After(db, e), p)
  {
    hide PaymentEvents, ChargesTold, HasKey, FindActive, Moved;
    var w := e.request.webhook;
    var told := Event(w.orderId, if w.success then PaymentCompleted else PaymentFailed);
    EventsAppend(db.outbox, told, p);
    EventsAppend(db.outbox + [told], Event(w.orderId, OrderPlaced), p);
    if w.orderId in db.orders && FindActive(db.sessions, w.orderId).Some? {
      ChargesAppend(db.ledger, ChargeRow(w.orderId, db.orders[w.orderId], db.sessions[FindActive(db.sessions, w.orderId).value], w.txn, w.success), p);
    }
  }

  lemma OthersTellAlike(db: Db, e: Timed, p: OrderId)
    requires ToldAlike(db, p) && !e.request.Deliver?
    ensures ToldAlike(After(db, e), p)
  {
    hide PaymentEvents, ChargesTold, HasKey, FindActive, Moved, InsertAllIgnore, UpsertIncrement, SettlementRows, AssertTransition, ResolveActor,
         OwnerOfLatest, DecrementIfSufficient;
    match e.request {
      case Place(r) => EventsAppend(db.outbox, Event(r.orderId, OrderPlaced), p);
      case UpdateStatus(q, _, to, _) => {
        if EventForStatus(to).Some? {
          EventsAppend(db.outbox, Event(q, EventForStatus(to).value), p);
        }
      }
      case Settle(q, _, bps, _) => {
        EventsAppend(db.outbox, Event(q, OrderDelivered), p);
        if q in db.orders {
          SettlementTellsNothing(db.ledger, q, db.orders[q], CommissionOf(db.orders[q], bps), p);
        }
      }
      case RecordPayout(r, c, amount, key) => {
        if OwnerOfLatest(db.created, db.orders, r).Some? {
          ChargesAppend(db.ledger, PayoutRow(OwnerOfLatest(db.created, db.orders, r).value, c, amount, key), p);
        }
      }
      case _ =>
    }
  }

  /** In every run, legal or not, the payment events of an order in the outbox are its
      charges in the ledger, in order: completed for a succeeded one, failed for a
      declined one. */
  lemma {:induction false} PaymentEventsTellCharges(es: seq<Timed>, p: OrderId)
    ensures PaymentEvents(Run(EMPTY, es).outbox, p) == ChargesTold(Run(EMPTY, es).ledger, p)
  {
    hide After;
    if |es| > 0 {
      var n := |es| - 1;
      PaymentEventsTellCharges(es[..n], p);
      if es[n].request.Deliver? {
        WebhookTellsAlike(Run(EMPTY, es[..n]), es[n], p);
      } else {
        OthersTellAlike(Run(EMPTY, es[..n]), es[n], p);
      }
    }
  }
}
