/** Redelivered payment webhooks have no effect, wherever in a run they fall. */
module Webhooks {
  import opened Common
  import opened OrderStatus
  import opened Tables
  import opened Lifecycle
  import opened Ledger

  predicate DeliveredIn(es: seq<Timed>, txn: string) {
    exists i | 0 <= i < |es| :: es[i].request.Deliver? && es[i].request.webhook.txn == txn
  }

  /** The run without the second and later deliveries of any transaction id. */
  function FirstDeliveries(es: seq<Timed>): seq<Timed> {
    if |es| == 0 then []
    else
      var n := |es| - 1;
      FirstDeliveries(es[..n]) +
      if es[n].request.Deliver? && DeliveredIn(es[..n], es[n].request.webhook.txn) then [] else [es[n]]
  }

  /** Equal tables; the time of the latest request may differ. */
  predicate SameTables(a: Db, b: Db) {
    a == b.(clock := a.clock)
  }

  lemma WebhookIgnoresClock(a: Db, b: Db, w: Webhook, fate: Fate, now: int)
    requires SameTables(a, b)
    ensures SameTables(ProcessWebhook(a, w, fate, now).db, ProcessWebhook(b, w, fate, now).db)
    ensures ProcessWebhook(a, w, fate, now).outcome == ProcessWebhook(b, w, fate, now).outcome
  {
    hide FindActive, HasKey, Moved, ChargeRow;
  }

  lemma ChangeIgnoresClock(a: Db, b: Db, e: Timed)
    requires SameTables(a, b) && (e.request.UpdateStatus? || e.request.Settle? || e.request.GoOffline?)
    ensures SameTables(Exec(a, e).db, Exec(b, e).db) && Exec(a, e).outcome == Exec(b, e).outcome
  {
    hide InsertAllIgnore, UpsertIncrement, AssertTransition, ResolveActor, SettlementRows, Moved, CommissionOf, Share, HeldBy, Released;
  }

  lemma PlacementIgnoresClock(a: Db, b: Db, e: Timed)
    requires SameTables(a, b) && (e.request.Place? || e.request.FinishInit?)
    ensures SameTables(Exec(a, e).db, Exec(b, e).db) && Exec(a, e).outcome == Exec(b, e).outcome
  {
    hide FindActive, Moved, NewOrder;
  }

  lemma TakeIgnoresClock(a: Db, b: Db, e: Timed)
    requires SameTables(a, b) && (e.request.Claim? || e.request.Pick? || e.request.RecordPayout?)
    ensures SameTables(Exec(a, e).db, Exec(b, e).db) && Exec(a, e).outcome == Exec(b, e).outcome
  {
    hide OwnerOfLatest, Moved, DecrementIfSufficient, HasKey;
  }

  /** No request looks at the clock the tables carry, only at its own instant. */
  lemma ExecIgnoresClock(a: Db, b: Db, e: Timed)
    requires SameTables(a, b)
    ensures SameTables(After(a, e), After(b, e)) && Exec(a, e).outcome == Exec(b, e).outcome
  {
    hide PlaceOrder, FinishPlacement, ProcessWebhook, ChangeStatus, ClaimReady, PickUp, AgentOffline, SettleDelivered, PayOut;
    match e.request {
      case Deliver(w, fate) => WebhookIgnoresClock(a, b, w, fate, e.now);
      case Place(_) => PlacementIgnoresClock(a, b, e);
      case FinishInit(_, _) => PlacementIgnoresClock(a, b, e);
      case UpdateStatus(_, _, _, _) => ChangeIgnoresClock(a, b, e);
      case Settle(_, _, _, _) => ChangeIgnoresClock(a, b, e);
      case GoOffline(_) => ChangeIgnoresClock(a, b, e);
      case _ => TakeIgnoresClock(a, b, e);
    }
  }

  lemma WebhooksStay(db: Db, e: Timed)
    ensures db.webhooks.Keys <= After(db, e).webhooks.Keys
    ensures e.request.Deliver? ==> e.request.webhook.txn in After(db, e).webhooks
  {
    hide InsertAllIgnore, UpsertIncrement, FindActive, HasKey, AssertTransition, ResolveActor, OwnerOfLatest;
  }

  lemma {:induction false} DeliveredIsRecorded(db: Db, es: seq<Timed>, txn: string)
    requires DeliveredIn(es, txn)
    ensures txn in Run(db, es).webhooks
  {
    hide After;
    var n := |es| - 1;
    WebhooksStay(Run(db, es[..n]), es[n]);
    if !(es[n].request.Deliver? && es[n].request.webhook.txn == txn) {
      var i :| 0 <= i < |es| && es[i].request.Deliver? && es[i].request.webhook.txn == txn;
      assert es[..n][i] == es[i];
      DeliveredIsRecorded(db, es[..n], txn);
    }
  }

  /** Whatever else happens in between, and whatever became of the first delivery,
      a run leaves the same orders, sessions, ledger, balances and outbox as the
      run that saw only the first delivery of each transaction id. */
  lemma {:induction false} RedeliveriesChangeNothing(db: Db, es: seq<Timed>)
    ensures SameTables(Run(db, es), Run(db, FirstDeliveries(es)))
  {
    if |es| > 0 {
      var n := |es| - 1;
      var before, kept := Run(db, es[..n]), FirstDeliveries(es[..n]);
      RedeliveriesChangeNothing(db, es[..n]);
      if es[n].request.Deliver? && DeliveredIn(es[..n], es[n].request.webhook.txn) {
        DeliveredIsRecorded(db, es[..n], es[n].request.webhook.txn);
        assert FirstDeliveries(es) == kept;
        assert SameTables(After(before, es[n]), before);
      } else {
        assert FirstDeliveries(es) == kept + [es[n]] && (kept + [es[n]])[..|kept|] == kept;
        ExecIgnoresClock(before, Run(db, kept), es[n]);
      }
    }
  }

  // ----- when a delivery is booked ------------------------------------------------

  /** The first delivery of a transaction id. */
  predicate FirstDelivery(es: seq<Timed>, i: nat, txn: string) {
    && i < |es| && es[i].request.Deliver? && es[i].request.webhook.txn == txn
    && !DeliveredIn(es[..i], txn)
  }

  /** A payment event on an order that waits for one, whose transaction commits. */
  predicate Bookable(db: Db, r: Request) {
    && r.Deliver? && r.webhook.isPay && (r.fate == Runs || r.fate == StampLost)
    && r.webhook.orderId in db.orders && FindActive(db.sessions, r.webhook.orderId).Some?
  }

  predicate BookedBy(es: seq<Timed>, i: nat, txn: string) {
    FirstDelivery(es, i, txn) && Bookable(Run(EMPTY, es[..i]), es[i].request)
  }

  predicate WasBooked(es: seq<Timed>, txn: string) {
    exists i | 0 <= i < |es| :: BookedBy(es, i, txn)
  }

  /** Any request but the first delivery leaves a transaction id's charge, and its
      record, as they are. */
  lemma OthersDoNotBook(db: Db, e: Timed, txn: string)
    requires e.request.Deliver? && e.request.webhook.txn == txn ==> txn in db.webhooks
    ensures HasKey(After(db, e).ledger, KashierKey(txn)) <==> HasKey(db.ledger, KashierKey(txn))
    ensures txn in After(db, e).webhooks <==> txn in db.webhooks
  {
    hide HasKey, FindActive, InsertAllIgnore, UpsertIncrement, AssertTransition, ResolveActor, Moved, SettlementRows, OwnerOfLatest;
    var key := KashierKey(txn);
    match e.request {
      case Deliver(w, _) => {
        if w.orderId in db.orders && FindActive(db.sessions, w.orderId).Some? {
          var row := ChargeRow(w.orderId, db.orders[w.orderId], db.sessions[FindActive(db.sessions, w.orderId).value], w.txn, w.success);
          KeyInAppended(db.ledger, row, key);
        }
      }
      case Settle(p, _, bps, _) => {
        if p in db.orders {
          var rows := SettlementRows(p, db.orders[p], CommissionOf(db.orders[p], bps));
          SettlementRowsShape(p, db.orders[p], CommissionOf(db.orders[p], bps));
          assert forall r | r in rows :: r.key != key;
          KeyInInsertAll(db.ledger, rows, key);
        }
      }
      case RecordPayout(r, c, amount, keyText) => {
        if OwnerOfLatest(db.created, db.orders, r).Some? {
          KeyInAppended(db.ledger, PayoutRow(OwnerOfLatest(db.created, db.orders, r).value, c, amount, keyText), key);
        }
      }
      case _ =>
    }
  }

  lemma FirstDeliveryBooksExactlyWhen(db: Db, e: Timed)
    requires e.request.Deliver? && e.request.webhook.txn !in db.webhooks && !HasKey(db.ledger, KashierKey(e.request.webhook.txn))
    ensures HasKey(After(db, e).ledger, KashierKey(e.request.webhook.txn)) <==> Bookable(db, e.request)
    ensures e.request.webhook.txn in After(db, e).webhooks
  {
    hide HasKey, Moved;
    var w := e.request.webhook;
    if w.orderId in db.orders && FindActive(db.sessions, w.orderId).Some? {
      var row := ChargeRow(w.orderId, db.orders[w.orderId], db.sessions[FindActive(db.sessions, w.orderId).value], w.txn, w.success);
      KeyInAppended(db.ledger, row, KashierKey(w.txn));
    }
  }

  lemma EarlierBooking(es: seq<Timed>, i: nat, txn: string)
    requires |es| > 0 && i < |es| - 1
    ensures BookedBy(es, i, txn) <==> BookedBy(es[..|es| - 1], i, txn)
  {
    assert es[..|es| - 1][..i] == es[..i];
  }

  lemma DeliveredInPrefix(es: seq<Timed>, txn: string)
    requires |es| > 0
    ensures var e := es[|es| - 1].request;
            DeliveredIn(es, txn) <==> DeliveredIn(es[..|es| - 1], txn) || (e.Deliver? && e.webhook.txn == txn)
  {
    var n := |es| - 1;
    assert forall i | 0 <= i < n :: es[..n][i] == es[i];
  }

  /** In every run, legal or not, the ledger holds a row for a provider transaction if
      and only if its first delivery was a payment event for an order with an active
      session and its transaction committed. No later delivery makes up for a first one
      that failed. */
  lemma {:induction false} BookedExactlyWhen(es: seq<Timed>, txn: string)
    ensures HasKey(Run(EMPTY, es).ledger, KashierKey(txn)) <==> WasBooked(es, txn)
    ensures txn in Run(EMPTY, es).webhooks <==> DeliveredIn(es, txn)
    ensures HasKey(Run(EMPTY, es).ledger, KashierKey(txn)) ==> txn in Run(EMPTY, es).webhooks
  {
    hide After, HasKey, Bookable;
    if |es| == 0 {
      NothingBooked(txn);
    } else {
      var n := |es| - 1;
      var db, e := Run(EMPTY, es[..n]), es[n];
      BookedExactlyWhen(es[..n], txn);
      DeliveredInPrefix(es, txn);
      if e.request.Deliver? && e.request.webhook.txn == txn && txn !in db.webhooks {
        FirstDeliveryBooksExactlyWhen(db, e);
        NoEarlierBooking(es[..n], txn);
        assert BookedBy(es, n, txn) <==> Bookable(db, e.request);
      } else {
        OthersDoNotBook(db, e, txn);
        assert !BookedBy(es, n, txn);
      }
      BookingsSplit(es, txn);
    }
  }

  lemma NothingBooked(txn: string)
    ensures !HasKey(EMPTY.ledger, KashierKey(txn))
  {
  }

  lemma NoEarlierBooking(es: seq<Timed>, txn: string)
    requires !DeliveredIn(es, txn)
    ensures !WasBooked(es, txn)
  {
  }

  lemma BookingsSplit(es: seq<Timed>, txn: string)
    requires |es| > 0
    ensures WasBooked(es, txn) <==> WasBooked(es[..|es| - 1], txn) || BookedBy(es, |es| - 1, txn)
  {
    var n := |es| - 1;
    forall i: nat | i < n
      ensures BookedBy(es, i, txn) <==> BookedBy(es[..n], i, txn)
    {
      EarlierBooking(es, i, txn);
    }
  }

  /** In a reachable state the reconciliation of a new webhook fails only if the
      database or the process does: the charge's key is always free. */
  lemma NewWebhookNeverConflicts(owners: nat -> nat, es: seq<Timed>, w: Webhook, now: int)
    requires SoundRun(owners, es) && w.txn !in Run(EMPTY, es).webhooks
    ensures ProcessWebhook(Run(EMPTY, es), w, Runs, now).outcome == Done
  {
    LedgerIsDetermined(owners, es);
    UnseenTxnHasNoKey(Run(EMPTY, es), w.txn);
  }
}
