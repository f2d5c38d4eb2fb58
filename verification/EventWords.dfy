/** The order events the outbox holds for one order, as a word. */
module EventWords {
  import opened Common
  import opened OrderStatus
  import opened Tables
  import opened Lifecycle
  import opened Ledger
  import opened History

  predicate IsOrderEvent(kind: EventKind) {
    kind != PaymentCompleted && kind != PaymentFailed
  }

  /** The order events of one order, oldest first. */
  function Word(events: seq<Event>, p: OrderId): seq<EventKind> {
    if |events| == 0 then []
    else
      var last := events[|events| - 1];
      Word(events[..|events| - 1], p) + if last.order == p && IsOrderEvent(last.kind) then [last.kind] else []
  }

  /** What a subscriber may ever have been told about one order. */
  predicate LegalWord(w: seq<EventKind>) {
    || w == [] || w == [OrderCancelled] || w == [OrderPlaced]
    || w == [OrderPlaced, OrderRejected] || w == [OrderPlaced, OrderCancelled] || w == [OrderPlaced, OrderAccepted]
    || w == [OrderPlaced, OrderAccepted, OrderCancelled] || w == [OrderPlaced, OrderAccepted, OrderDelivered]
  }

  /** The word is fixed by the status; for a cancelled order it tells whether the
      order had been accepted, and only an online order, which may be cancelled or
      voided before it is placed, leaves more than one. */
  predicate WordFits(o: Order, w: seq<EventKind>) {
    match o.status
    case PendingPayment => o.payment == Online && w == []
    case Placed => w == [OrderPlaced]
    case Rejected => w == [OrderPlaced, OrderRejected]
    case Delivered => w == [OrderPlaced, OrderAccepted, OrderDelivered]
    case Cancelled =>
      if o.stamps.acceptedAt.Some? then w == [OrderPlaced, OrderAccepted, OrderCancelled]
      else if o.payment == Cod then w == [OrderPlaced, OrderCancelled]
      else w == [] || w == [OrderCancelled] || w == [OrderPlaced, OrderCancelled]
    case _ => w == [OrderPlaced, OrderAccepted]
  }

  lemma WordAppend(events: seq<Event>, e: Event, p: OrderId)
    ensures Word(events + [e], p) == Word(events, p) + if e.order == p && IsOrderEvent(e.kind) then [e.kind] else []
  {
    assert (events + [e])[..|events|] == events;
  }

  lemma {:induction false} WordOfForeign(events: seq<Event>, p: OrderId)
    requires forall e | e in events :: e.order != p
    ensures Word(events, p) == []
  {
    if |events| > 0 {
      WordOfForeign(events[..|events| - 1], p);
    }
  }

  ghost predicate OutboxRefers(db: Db) {
    forall e | e in db.outbox :: e.order in db.orders
  }

  /** What one request appends to the outbox, seen by one order. */
  function News(db: Db, e: Timed, p: OrderId): seq<EventKind> {
    match e.request
    case Place(r) => if r.orderId == p && p !in db.orders && r.payment == Cod then [OrderPlaced] else []
    case Deliver(w, _) =>
      if w.orderId == p && p in db.orders && p in After(db, e).orders
         && db.orders[p].status == PendingPayment && After(db, e).orders[p].status == Placed then [OrderPlaced] else []
    case UpdateStatus(q, _, to, _) =>
      if q == p && Exec(db, e).outcome == Done && EventForStatus(to).Some? then [EventForStatus(to).value] else []
    case Settle(q, _, _, _) => if q == p && Exec(db, e).outcome == Done then [OrderDelivered] else []
    case _ => []
  }

  lemma QuietNews(db: Db, e: Timed)
    requires e.request.Claim? || e.request.Pick? || e.request.FinishInit?
    ensures After(db, e).outbox == db.outbox
    ensures OutboxRefers(db) ==> OutboxRefers(After(db, e))
  {
    hide FindActive, Stamped;
  }

  lemma WebhookAppendsNews(db: Db, e: Timed, p: OrderId)
    requires e.request.Deliver?
    ensures Word(After(db, e).outbox, p) == Word(db.outbox, p) + News(db, e, p)
    ensures OutboxRefers(db) ==> OutboxRefers(After(db, e))
  {
    hide HasKey, FindActive, Word, Stamped, ChargeRow;
    var w := e.request.webhook;
    var first := Event(w.orderId, if w.success then PaymentCompleted else PaymentFailed);
    WordAppend(db.outbox, first, p);
    WordAppend(db.outbox + [first], Event(w.orderId, OrderPlaced), p);
  }

  lemma StepAppendsNews(db: Db, e: Timed, p: OrderId)
    ensures Word(After(db, e).outbox, p) == Word(db.outbox, p) + News(db, e, p)
    ensures OutboxRefers(db) ==> OutboxRefers(After(db, e))
  {
    hide HasKey, InsertAllIgnore, UpsertIncrement, FindActive, SettlementRows, AssertTransition, ResolveActor, Word, Stamped,
         ProcessWebhook, PickUp, ClaimReady, FinishPlacement;
    match e.request {
      case Place(q) => WordAppend(db.outbox, Event(q.orderId, OrderPlaced), p);
      case Deliver(_, _) => WebhookAppendsNews(db, e, p);
      case Claim(_, _) => QuietNews(db, e);
      case Pick(_, _) => QuietNews(db, e);
      case FinishInit(_, _) => QuietNews(db, e);
      case UpdateStatus(q, _, to, _) =>
        if EventForStatus(to).Some? {
          WordAppend(db.outbox, Event(q, EventForStatus(to).value), p);
        }
      case Settle(q, _, _, _) => WordAppend(db.outbox, Event(q, OrderDelivered), p);
      case _ =>
    }
  }

  /** The event, if any, that goes with entering a status. */
  function EventOnEntry(s: Status): seq<EventKind> {
    match s
    case Placed => [OrderPlaced]
    case Accepted => [OrderAccepted]
    case Rejected => [OrderRejected]
    case Delivered => [OrderDelivered]
    case Cancelled => [OrderCancelled]
    case _ => []
  }

  /** One listed move and its event keep status and word in step. */
  lemma MoveKeepsWord(o: Order, o': Order, w: seq<EventKind>)
    requires WordFits(o, w) && StampsFit(o) && Transition(o.status, o'.status).Some?
    requires o'.payment == o.payment && (o'.status == Cancelled ==> o'.stamps.acceptedAt == o.stamps.acceptedAt)
    ensures WordFits(o', w + EventOnEntry(o'.status))
  {
    assert w + [] == w;
  }

  /** A payment start that fails voids the order without an event. */
  lemma VoidKeepsWord(o: Order, now: int, w: seq<EventKind>)
    requires WordFits(o, w) && StampsFit(o) && o.status in {PendingPayment, Cancelled} && o.payment == Online
    ensures WordFits(Moved(o, Cancelled, CancelledAt, now), w)
  {
  }

  lemma ReleaseKeepsWord(o: Order, agentId: nat, w: seq<EventKind>)
    requires WordFits(o, w)
    ensures WordFits(Released(o, agentId), w)
  {
  }

  lemma StatusStepKeepsWord(db: Db, e: Timed, p: OrderId)
    requires p in db.orders && HistoryOk(db.orders[p], db.clock) && WordFits(db.orders[p], Word(db.outbox, p))
    requires e.request.UpdateStatus? && e.request.to != Delivered
    ensures p in After(db, e).orders && WordFits(After(db, e).orders[p], Word(After(db, e).outbox, p))
  {
    hide AssertTransition, ResolveActor, Word, Transition, WordFits, StampsFit, Within, InOrder, AgentFits;
    StepAppendsNews(db, e, p);
    var o, o', w := db.orders[p], After(db, e).orders[p], Word(db.outbox, p);
    assert w + [] == w;
    if e.request.p == p && Exec(db, e).outcome == Done {
      AssignIsForTheSystem(o, e.request.caller, e.request.to, e.request.hasReason, e.now);
      PlacedIsForTheSystem(o, e.request.caller, e.request.to, e.request.hasReason, e.now);
      MoveKeepsWord(o, o', w);
    }
  }

  lemma InitStepKeepsWord(db: Db, e: Timed, p: OrderId)
    requires RefsInv(db)
    requires p in db.orders && HistoryOk(db.orders[p], db.clock) && WordFits(db.orders[p], Word(db.outbox, p))
    requires e.request.FinishInit?
    ensures p in After(db, e).orders && WordFits(After(db, e).orders[p], Word(After(db, e).outbox, p))
  {
    hide FindActive, Word, WordFits, StampsFit, Within, InOrder, AgentFits, OneSessionEach, SessionOk;
    StepAppendsNews(db, e, p);
    assert Word(db.outbox, p) + [] == Word(db.outbox, p);
    if After(db, e).orders[p] != db.orders[p] {
      assert AwaitingOk(db, p);
      VoidKeepsWord(db.orders[p], e.now, Word(db.outbox, p));
    }
  }

  lemma PaymentStepKeepsWord(db: Db, e: Timed, p: OrderId)
    requires p in db.orders && HistoryOk(db.orders[p], db.clock) && WordFits(db.orders[p], Word(db.outbox, p))
    requires e.request.Deliver?
    ensures p in After(db, e).orders && WordFits(After(db, e).orders[p], Word(After(db, e).outbox, p))
  {
    hide HasKey, FindActive, Word, WordFits, StampsFit, Within, InOrder, AgentFits, Transition, ChargeRow;
    StepAppendsNews(db, e, p);
    var o, o', w := db.orders[p], After(db, e).orders[p], Word(db.outbox, p);
    assert w + [] == w;
    if o' != o {
      TableHas(PendingPayment, Placed, NoStamp);
      MoveKeepsWord(o, o', w);
    }
  }

  lemma SettleStepKeepsWord(db: Db, e: Timed, p: OrderId)
    requires p in db.orders && HistoryOk(db.orders[p], db.clock) && WordFits(db.orders[p], Word(db.outbox, p))
    requires e.request.Settle?
    requires e.request.p == p && db.orders[p].agent == Some(e.request.agentId) ==> db.orders[p].status == Picked
    ensures p in After(db, e).orders && WordFits(After(db, e).orders[p], Word(After(db, e).outbox, p))
  {
    hide InsertAllIgnore, UpsertIncrement, SettlementRows, Word, WordFits, StampsFit, Within, InOrder, AgentFits;
    StepAppendsNews(db, e, p);
    var o, o', w := db.orders[p], After(db, e).orders[p], Word(db.outbox, p);
    assert w + [] == w;
    if o' != o {
      MoveKeepsWord(o, o', w);
    }
  }

  lemma CarryStepKeepsWord(db: Db, e: Timed, p: OrderId)
    requires p in db.orders && HistoryOk(db.orders[p], db.clock) && WordFits(db.orders[p], Word(db.outbox, p))
    requires e.request.Claim? || e.request.Pick? || e.request.GoOffline?
    ensures p in After(db, e).orders && WordFits(After(db, e).orders[p], Word(After(db, e).outbox, p))
  {
    hide Word, WordFits, StampsFit, Within, InOrder, AgentFits;
    StepAppendsNews(db, e, p);
    var o, o', w := db.orders[p], After(db, e).orders[p], Word(db.outbox, p);
    assert w + [] == w;
    if e.request.GoOffline? {
      ReleaseKeepsWord(o, e.request.agentId, w);
    } else if o' != o {
      MoveKeepsWord(o, o', w);
    }
  }

  lemma OnlyPlacementAddsOrders(db: Db, e: Timed, p: OrderId)
    requires p !in db.orders && p in After(db, e).orders
    ensures e.request.Place? && e.request.placement.orderId == p
  {
    hide HasKey, FindActive, InsertAllIgnore, UpsertIncrement, AssertTransition, ResolveActor, Moved, SettlementRows, ChargeRow;
    match e.request {
      case Deliver(_, _) =>
      case Settle(_, _, _, _) =>
      case UpdateStatus(_, _, _, _) =>
      case GoOffline(_) =>
      case _ =>
    }
  }

  lemma PlacementHasWord(db: Db, e: Timed, p: OrderId)
    requires OutboxRefers(db) && p !in db.orders && p in After(db, e).orders
    ensures WordFits(After(db, e).orders[p], Word(After(db, e).outbox, p))
  {
    hide Word, ProcessWebhook, ChangeStatus, SettleDelivered, PickUp, ClaimReady, FinishPlacement, AgentOffline, PayOut;
    OnlyPlacementAddsOrders(db, e, p);
    WordOfForeign(db.outbox, p);
    StepAppendsNews(db, e, p);
  }

  lemma StepKeepsWord(db: Db, e: Timed, p: OrderId)
    requires RefsInv(db) && OutboxRefers(db) && p in After(db, e).orders
    requires p in db.orders ==> HistoryOk(db.orders[p], db.clock) && WordFits(db.orders[p], Word(db.outbox, p))
    requires e.request.UpdateStatus? ==> e.request.to != Delivered
    requires e.request.Settle? && p in db.orders && e.request.p == p && db.orders[p].agent == Some(e.request.agentId)
             ==> db.orders[p].status == Picked
    ensures WordFits(After(db, e).orders[p], Word(After(db, e).outbox, p))
  {
    hide Word, WordFits, HistoryOk, RefsInv;
    if p !in db.orders {
      PlacementHasWord(db, e, p);
    } else if e.request.UpdateStatus? {
      StatusStepKeepsWord(db, e, p);
    } else if e.request.FinishInit? {
      InitStepKeepsWord(db, e, p);
    } else if e.request.Deliver? {
      PaymentStepKeepsWord(db, e, p);
    } else if e.request.Place? || e.request.RecordPayout? {
      StepAppendsNews(db, e, p);
      assert Word(db.outbox, p) + [] == Word(db.outbox, p);
    } else if e.request.Settle? {
      SettleStepKeepsWord(db, e, p);
    } else {
      CarryStepKeepsWord(db, e, p);
    }
  }

  lemma PlacedIsForTheSystem(o: Order, c: Caller, to: Status, hasReason: bool, now: int)
    requires ResolveActor(c, o).Some?
    requires AssertTransition(o.status, to, ResolveActor(c, o).value, hasReason, o.stamps.createdAt, o.stamps.acceptedAt, now).Allowed?
    ensures to != Placed && Transition(o.status, to).Some?
    ensures to == Cancelled ==> Transition(o.status, to).value.stamp == CancelledAt
  {
  }

  /** In every reachable state the order events in the outbox form, for each order,
      the word its status calls for. */
  lemma {:induction false} OutboxWordFitsStatus(owners: nat -> nat, es: seq<Timed>, p: OrderId)
    requires Legal(owners, es)
    ensures OutboxRefers(Run(EMPTY, es))
    ensures p in Run(EMPTY, es).orders ==> WordFits(Run(EMPTY, es).orders[p], Word(Run(EMPTY, es).outbox, p))
    ensures LegalWord(Word(Run(EMPTY, es).outbox, p))
  {
    if |es| > 0 {
      var n := |es| - 1;
      var db := Run(EMPTY, es[..n]);
      OutboxWordFitsStatus(owners, es[..n], p);
      LegalIsSound(owners, es[..n]);
      LedgerIsDetermined(owners, es[..n]);
      StepAppendsNews(db, es[n], p);
      if p in db.orders {
        HistoryIsConsistent(owners, es[..n], p);
      }
      if p in Run(EMPTY, es).orders {
        StepKeepsWord(db, es[n], p);
      } else {
        WordOfForeign(Run(EMPTY, es).outbox, p);
      }
    }
  }
}
