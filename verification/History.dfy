/** Status, agent and timestamps of an order along every run. */
module History {
  import opened Common
  import opened OrderStatus
  import opened Tables
  import opened Lifecycle
  import opened Ledger

  // ----- the status follows the table ---------------------------------------

  /** The only move outside the table: an agent going offline gives the order back. */
  predicate GivenBack(o: Order, o': Order, e: Timed) {
    e.request.GoOffline? && HeldBy(o, e.request.agentId, Assigned) && o'.status == Ready && o'.agent.None?
  }

  lemma PaymentFollowsTable(db: Db, e: Timed, p: OrderId)
    requires RefsInv(db) && p in db.orders && (e.request.FinishInit? || e.request.Deliver?)
    ensures p in After(db, e).orders
    ensures var o, o' := db.orders[p], After(db, e).orders[p]; o'.status == o.status || Transition(o.status, o'.status).Some?
  {
    hide HasKey, FindActive, Stamped, ChargeRow, OneSessionEach, SessionOk;
    assert e.request.FinishInit? && e.request.p in db.awaitingInit ==> AwaitingOk(db, e.request.p);
  }

  lemma StepFollowsTable(db: Db, e: Timed, p: OrderId)
    requires RefsInv(db) && p in db.orders
    requires e.request.Settle? && e.request.p == p && db.orders[p].agent == Some(e.request.agentId) ==> db.orders[p].status == Picked
    ensures p in After(db, e).orders
    ensures var o, o' := db.orders[p], After(db, e).orders[p];
            o'.status == o.status || Transition(o.status, o'.status).Some? || GivenBack(o, o', e)
  {
    hide HasKey, ResolveActor, InsertAllIgnore, UpsertIncrement, Stamped, SettlementRows, OwnerOfLatest, DecrementIfSufficient,
         FinishPlacement, ProcessWebhook, RefsInv;
    if e.request.FinishInit? || e.request.Deliver? {
      PaymentFollowsTable(db, e, p);
    }
  }

  /** In every run, each change of an order's status is a listed transition, or
      the release of an assigned order by the agent who goes offline. */
  lemma StatusFollowsTable(owners: nat -> nat, es: seq<Timed>, i: nat, p: OrderId)
    requires i < |es| && Legal(owners, es[..i + 1]) && p in Run(EMPTY, es[..i]).orders
    ensures p in Run(EMPTY, es[..i + 1]).orders
    ensures var o, o' := Run(EMPTY, es[..i]).orders[p], Run(EMPTY, es[..i + 1]).orders[p];
            o'.status == o.status || Transition(o.status, o'.status).Some? || GivenBack(o, o', es[i])
  {
    assert es[..i + 1][..i] == es[..i];
    LegalIsSound(owners, es[..i]);
    LedgerIsDetermined(owners, es[..i]);
    StepFollowsTable(Run(EMPTY, es[..i]), es[i], p);
  }

  lemma {:induction false} LegalPrefix(owners: nat -> nat, es: seq<Timed>, i: nat)
    requires Legal(owners, es) && i <= |es|
    ensures Legal(owners, es[..i])
    decreases |es|
  {
    if i < |es| {
      assert es[..|es| - 1][..i] == es[..i];
      LegalPrefix(owners, es[..|es| - 1], i);
    } else {
      assert es[..i] == es;
    }
  }

  /** A rejected, delivered or cancelled order stays so for the rest of the run. */
  lemma {:induction false} TerminalIsForever(owners: nat -> nat, es: seq<Timed>, i: nat, j: nat, p: OrderId)
    requires Legal(owners, es) && i <= j <= |es|
    requires p in Run(EMPTY, es[..i]).orders && Terminal(Run(EMPTY, es[..i]).orders[p].status)
    ensures p in Run(EMPTY, es[..j]).orders && Run(EMPTY, es[..j]).orders[p].status == Run(EMPTY, es[..i]).orders[p].status
    decreases j
  {
    hide Run, Legal;
    if i < j {
      TerminalIsForever(owners, es, i, j - 1, p);
      LegalPrefix(owners, es, j);
      StatusFollowsTable(owners, es, j - 1, p);
    }
  }

  // ----- stamps and agent ---------------------------------------------------

  predicate NotAfter(a: Option<int>, b: Option<int>) {
    a.Some? && b.Some? ==> a.value <= b.value
  }

  predicate Between(from: int, x: Option<int>, to: int) {
    x.Some? ==> from <= x.value <= to
  }

  /** Every stamp that exists lies between the creation of the order and now. */
  predicate Within(s: Stamps, now: int) {
    && s.createdAt <= now
    && Between(s.createdAt, s.acceptedAt, now) && Between(s.createdAt, s.rejectedAt, now)
    && Between(s.createdAt, s.readyAt, now) && Between(s.createdAt, s.assignedAt, now)
    && Between(s.createdAt, s.pickedAt, now) && Between(s.createdAt, s.deliveredAt, now)
    && Between(s.createdAt, s.cancelledAt, now)
  }

  /** The stamps come in the order of the statuses they record. */
  predicate InOrder(s: Stamps) {
    && NotAfter(s.acceptedAt, s.readyAt) && NotAfter(s.readyAt, s.assignedAt)
    && NotAfter(s.assignedAt, s.pickedAt) && NotAfter(s.pickedAt, s.deliveredAt)
    && NotAfter(s.acceptedAt, s.cancelledAt) && NotAfter(s.readyAt, s.cancelledAt) && NotAfter(s.assignedAt, s.cancelledAt)
  }

  /** Which stamps an order has is decided by its status, but for a cancelled one,
      whose stamps tell how far it came. */
  predicate StampsFit(o: Order) {
    var s := o.stamps;
    var accepted := o.status in {Accepted, Preparing, Ready, Assigned, Picked, Delivered};
    var ready := o.status in {Ready, Assigned, Picked, Delivered};
    && (o.status != Cancelled ==>
          && (s.acceptedAt.Some? <==> accepted) && (s.readyAt.Some? <==> ready)
          && (s.assignedAt.Some? <==> o.status in {Assigned, Picked, Delivered}))
    && (o.status == Cancelled ==>
          && (s.readyAt.Some? ==> s.acceptedAt.Some?) && (s.assignedAt.Some? ==> s.readyAt.Some?))
    && (s.pickedAt.Some? <==> o.status in {Picked, Delivered})
    && (s.deliveredAt.Some? <==> o.status == Delivered)
    && (s.rejectedAt.Some? <==> o.status == Rejected)
    && (s.cancelledAt.Some? <==> o.status == Cancelled)
  }

  /** Who holds the order: an agent from assignment to delivery, else nobody; a
      cancelled order may still name the agent it was taken from. */
  predicate AgentFits(o: Order) {
    && (o.status in {Assigned, Picked, Delivered} ==> o.agent.Some?)
    && (o.status !in {Assigned, Picked, Delivered, Cancelled} ==> o.agent.None?)
  }

  predicate HistoryOk(o: Order, now: int) {
    Within(o.stamps, now) && InOrder(o.stamps) && StampsFit(o) && AgentFits(o)
  }

  /** One listed move, stamped now, keeps the history in shape. */
  lemma MovedKeepsHistory(o: Order, to: Status, before: int, now: int)
    requires HistoryOk(o, before) && before <= now
    requires Transition(o.status, to).Some? && to != Assigned
    ensures HistoryOk(Moved(o, to, Transition(o.status, to).value.stamp, now), now)
  {
    hide Within, InOrder, StampsFit, AgentFits;
    MovedStampsFit(o, to, now);
    MovedStampsInOrder(o, to, before, now);
    MovedAgentFits(o, to, now);
  }

  lemma MovedStampsFit(o: Order, to: Status, now: int)
    requires StampsFit(o) && Transition(o.status, to).Some? && to != Assigned
    ensures StampsFit(Moved(o, to, Transition(o.status, to).value.stamp, now))
  {
  }

  lemma MovedStampsInOrder(o: Order, to: Status, before: int, now: int)
    requires Within(o.stamps, before) && before <= now && InOrder(o.stamps) && StampsFit(o)
    requires Transition(o.status, to).Some? && to != Assigned
    ensures Within(Moved(o, to, Transition(o.status, to).value.stamp, now).stamps, now)
    ensures InOrder(Moved(o, to, Transition(o.status, to).value.stamp, now).stamps)
  {
  }

  lemma MovedAgentFits(o: Order, to: Status, now: int)
    requires AgentFits(o) && Transition(o.status, to).Some? && to != Assigned
    ensures AgentFits(Moved(o, to, Transition(o.status, to).value.stamp, now))
  {
  }

  lemma AssignedKeepsHistory(o: Order, agentId: nat, before: int, now: int)
    requires HistoryOk(o, before) && before <= now && o.status == Ready
    ensures HistoryOk(Moved(o, Assigned, AssignedAt, now).(agent := Some(agentId)), now)
  {
  }

  lemma ReleasedKeepsHistory(o: Order, agentId: nat, before: int, now: int)
    requires HistoryOk(o, before) && before <= now
    ensures HistoryOk(Released(o, agentId), now)
  {
  }

  lemma PaymentStepKeepsHistory(db: Db, e: Timed, p: OrderId)
    requires RefsInv(db) && p in db.orders && HistoryOk(db.orders[p], db.clock) && db.clock <= e.now
    requires e.request.FinishInit? || e.request.Deliver?
    ensures p in After(db, e).orders && HistoryOk(After(db, e).orders[p], e.now)
  {
    hide HistoryOk, HasKey, FindActive, Transition, Stamped;
    var o, o' := db.orders[p], After(db, e).orders[p];
    UntouchedKeepsHistory(o, db.clock, e.now);
    if o' != o {
      if e.request.FinishInit? {
        assert AwaitingOk(db, p);
        VoidedKeepsHistory(o, db.clock, e.now);
      } else {
        TableHas(PendingPayment, Placed, NoStamp);
        MovedKeepsHistory(o, Placed, db.clock, e.now);
      }
    }
  }

  lemma StatusStepKeepsHistory(db: Db, e: Timed, p: OrderId)
    requires p in db.orders && HistoryOk(db.orders[p], db.clock) && db.clock <= e.now
    requires e.request.UpdateStatus?
    ensures p in After(db, e).orders && HistoryOk(After(db, e).orders[p], e.now)
  {
    hide HistoryOk, Transition, Stamped, AssertTransition, ResolveActor;
    var o, o' := db.orders[p], After(db, e).orders[p];
    UntouchedKeepsHistory(o, db.clock, e.now);
    if o' != o {
      AssignIsForTheSystem(o, e.request.caller, e.request.to, e.request.hasReason, e.now);
      MovedKeepsHistory(o, e.request.to, db.clock, e.now);
    }
  }

  lemma DeliveryStepKeepsHistory(db: Db, e: Timed, p: OrderId)
    requires p in db.orders && HistoryOk(db.orders[p], db.clock) && db.clock <= e.now
    requires e.request.Claim? || e.request.Pick? || e.request.GoOffline? || e.request.Settle?
    requires e.request.Settle? && e.request.p == p && db.orders[p].agent == Some(e.request.agentId) ==> db.orders[p].status == Picked
    ensures p in After(db, e).orders && HistoryOk(After(db, e).orders[p], e.now)
  {
    hide HistoryOk, Transition, Stamped, InsertAllIgnore, UpsertIncrement, SettlementRows;
    var o, o' := db.orders[p], After(db, e).orders[p];
    UntouchedKeepsHistory(o, db.clock, e.now);
    if o' != o {
      match e.request {
        case Claim(_, a) => AssignedKeepsHistory(o, a, db.clock, e.now);
        case Pick(_, _) =>
          TableHas(Assigned, Picked, PickedAt);
          MovedKeepsHistory(o, Picked, db.clock, e.now);
        case GoOffline(a) => ReleasedKeepsHistory(o, a, db.clock, e.now);
        case Settle(_, _, bps, _) =>
          TableHas(Picked, Delivered, DeliveredAt);
          MovedKeepsHistory(o, Delivered, db.clock, e.now);
          CommissionIsNoHistory(Moved(o, Delivered, DeliveredAt, e.now), CommissionOf(o, bps), e.now);
      }
    }
  }

  lemma StepKeepsHistory(owners: nat -> nat, db: Db, e: Timed, p: OrderId)
    requires Inv(owners, db) && Permitted(owners, db, e) && p in After(db, e).orders
    requires p in db.orders ==> HistoryOk(db.orders[p], db.clock)
    ensures HistoryOk(After(db, e).orders[p], e.now)
  {
    hide HistoryOk, HasKey, InsertAllIgnore, UpsertIncrement, FindActive, OrdersInv, RefsInv, KeysInv, Transition, Stamped;
    if p !in db.orders {
      NewOrderHistory(e.request.placement, e.now);
    } else if e.request.FinishInit? || e.request.Deliver? {
      PaymentStepKeepsHistory(db, e, p);
    } else if e.request.UpdateStatus? {
      StatusStepKeepsHistory(db, e, p);
    } else if e.request.Place? || e.request.RecordPayout? {
      UntouchedKeepsHistory(db.orders[p], db.clock, e.now);
    } else {
      DeliveryStepKeepsHistory(db, e, p);
    }
  }

  lemma TableHas(from: Status, to: Status, stamp: Stamp)
    requires (from, to, stamp) in {(PendingPayment, Placed, NoStamp), (Assigned, Picked, PickedAt), (Picked, Delivered, DeliveredAt)}
    ensures Transition(from, to).Some? && Transition(from, to).value.stamp == stamp
  {
  }

  lemma NewOrderHistory(r: Placement, now: int)
    ensures HistoryOk(NewOrder(r, now), now)
  {
  }

  lemma UntouchedKeepsHistory(o: Order, before: int, now: int)
    requires HistoryOk(o, before) && before <= now
    ensures HistoryOk(o, now)
  {
  }

  lemma CommissionIsNoHistory(o: Order, commission: int, now: int)
    requires HistoryOk(o, now)
    ensures HistoryOk(o.(commission := commission), now)
  {
  }

  lemma VoidedKeepsHistory(o: Order, before: int, now: int)
    requires HistoryOk(o, before) && before <= now && o.status in {PendingPayment, Cancelled}
    ensures HistoryOk(Moved(o, Cancelled, CancelledAt, now), now)
  {
  }

  /** Nobody who reaches the status endpoint acts as the system. */
  lemma AssignIsForTheSystem(o: Order, c: Caller, to: Status, hasReason: bool, now: int)
    requires ResolveActor(c, o).Some?
    requires AssertTransition(o.status, to, ResolveActor(c, o).value, hasReason, o.stamps.createdAt, o.stamps.acceptedAt, now).Allowed?
    ensures to != Assigned && Transition(o.status, to).Some?
    ensures AssertTransition(o.status, to, ResolveActor(c, o).value, hasReason, o.stamps.createdAt, o.stamps.acceptedAt, now).stamp
         == Transition(o.status, to).value.stamp
  {
  }

  /** In every reachable state an order that is assigned, picked or delivered has
      an agent and any other one that is not cancelled has none, and its stamps
      are those of its status, in chronological order, even after releases and
      reassignments. */
  lemma {:induction false} HistoryIsConsistent(owners: nat -> nat, es: seq<Timed>, p: OrderId)
    requires Legal(owners, es) && p in Run(EMPTY, es).orders
    ensures HistoryOk(Run(EMPTY, es).orders[p], Run(EMPTY, es).clock)
  {
    var n := |es| - 1;
    var db := Run(EMPTY, es[..n]);
    LegalIsSound(owners, es[..n]);
    LedgerIsDetermined(owners, es[..n]);
    if p in db.orders {
      HistoryIsConsistent(owners, es[..n], p);
    }
    StepKeepsHistory(owners, db, es[n], p);
  }

  // ----- the history shown to clients ---------------------------------------

  datatype Entry = Entry(status: Status, ts: int)

  function Shown(columns: seq<(Status, Option<int>)>): seq<Entry> {
    if |columns| == 0 then []
    else (if columns[0].1.Some? then [Entry(columns[0].0, columns[0].1.value)] else []) + Shown(columns[1..])
  }

  /** The columns in the order the response lists them. */
  function Columns(o: Order): seq<(Status, Option<int>)> {
    var s := o.stamps;
    (if o.payment == Online then [(PendingPayment, Some(s.createdAt)), (Placed, Some(s.createdAt))] else [(Placed, Some(s.createdAt))])
    + [(Accepted, s.acceptedAt), (Rejected, s.rejectedAt), (Ready, s.readyAt), (Assigned, s.assignedAt),
       (Picked, s.pickedAt), (Delivered, s.deliveredAt), (Cancelled, s.cancelledAt)]
  }

  predicate Chronological(entries: seq<Entry>) {
    forall i, j | 0 <= i < j < |entries| :: entries[i].ts <= entries[j].ts
  }

  /** The last status the response can show for an order. `preparing` has no stamp,
      and an online order is shown as placed from its creation on. */
  function ShownStatus(o: Order): Status {
    match o.status
    case PendingPayment => Placed
    case Preparing => Accepted
    case s => s
  }

  /** Pushes the present stamps one by one. */
  method BuildHistory(o: Order) returns (out: seq<Entry>)
    ensures out == Shown(Columns(o))
  {
    out := [];
    var columns := [(Accepted, o.stamps.acceptedAt), (Rejected, o.stamps.rejectedAt), (Ready, o.stamps.readyAt),
                    (Assigned, o.stamps.assignedAt), (Picked, o.stamps.pickedAt), (Delivered, o.stamps.deliveredAt),
                    (Cancelled, o.stamps.cancelledAt)];
    if o.payment == Online {
      out := out + [Entry(PendingPayment, o.stamps.createdAt)];
      out := out + [Entry(Placed, o.stamps.createdAt)];
    } else {
      out := out + [Entry(Placed, o.stamps.createdAt)];
    }
    var placed := out;
    for i := 0 to |columns|
      invariant out + Shown(columns[i..]) == placed + Shown(columns)
    {
      if columns[i].1.Some? {
        out := out + [Entry(columns[i].0, columns[i].1.value)];
      }
    }
    assert columns[|columns|..] == [] && out + [] == out;
    ghost var head := if o.payment == Online then [(PendingPayment, Some(o.stamps.createdAt)), (Placed, Some(o.stamps.createdAt))]
                      else [(Placed, Some(o.stamps.createdAt))];
    ShownConcat(head, columns);
    assert Columns(o) == head + columns;
    ShownPlaced(o.stamps.createdAt);
  }

  lemma ShownPlaced(t: int)
    ensures Shown([(Placed, Some(t))]) == [Entry(Placed, t)]
    ensures Shown([(PendingPayment, Some(t)), (Placed, Some(t))]) == [Entry(PendingPayment, t), Entry(Placed, t)]
  {
    assert [(PendingPayment, Some(t)), (Placed, Some(t))][1..] == [(Placed, Some(t))];
  }

  lemma {:induction false} ShownConcat(a: seq<(Status, Option<int>)>, b: seq<(Status, Option<int>)>)
    ensures Shown(a + b) == Shown(a) + Shown(b)
  {
    if |a| == 0 {
      assert a + b == b;
    } else {
      assert (a + b)[1..] == a[1..] + b && (a + b)[0] == a[0];
      ShownConcat(a[1..], b);
      var first := if a[0].1.Some? then [Entry(a[0].0, a[0].1.value)] else [];
      assert Shown(a + b) == first + Shown(a[1..] + b) && Shown(a) == first + Shown(a[1..]);
      assert first + (Shown(a[1..]) + Shown(b)) == (first + Shown(a[1..])) + Shown(b);
    }
  }

  lemma {:induction false} ShownChronological(columns: seq<(Status, Option<int>)>)
    requires forall i, j | 0 <= i < j < |columns| :: NotAfter(columns[i].1, columns[j].1)
    ensures Chronological(Shown(columns))
    ensures forall e | e in Shown(columns) :: exists i :: 0 <= i < |columns| && columns[i] == (e.status, Some(e.ts))
  {
    if |columns| > 0 {
      ShownChronological(columns[1..]);
      var rest := Shown(columns[1..]);
      forall e | e in rest
        ensures exists i :: 1 <= i < |columns| && columns[i] == (e.status, Some(e.ts))
      {
        var i :| 0 <= i < |columns[1..]| && columns[1..][i] == (e.status, Some(e.ts));
        assert columns[i + 1] == (e.status, Some(e.ts));
      }
      assert forall k | 0 <= k < |rest| :: rest[k] in rest;
      if columns[0].1.Some? {
        assert columns[0] == (columns[0].0, Some(columns[0].1.value));
      }
    }
  }

  /** Where the time of each shown status comes from. */
  function TimeOf(o: Order, s: Status): Option<int> {
    match s
    case PendingPayment => if o.payment == Online then Some(o.stamps.createdAt) else None
    case Placed => Some(o.stamps.createdAt)
    case Accepted => o.stamps.acceptedAt
    case Rejected => o.stamps.rejectedAt
    case Preparing => None
    case Ready => o.stamps.readyAt
    case Assigned => o.stamps.assignedAt
    case Picked => o.stamps.pickedAt
    case Delivered => o.stamps.deliveredAt
    case Cancelled => o.stamps.cancelledAt
  }

  lemma {:induction false} ShownMembers(columns: seq<(Status, Option<int>)>, e: Entry)
    ensures e in Shown(columns) <==> (e.status, Some(e.ts)) in columns
  {
    if |columns| > 0 {
      ShownMembers(columns[1..], e);
      assert columns == [columns[0]] + columns[1..];
    }
  }

  /** The history shows a status, at a time, exactly when the order has that stamp. */
  lemma HistoryShowsExactlyStamps(o: Order, e: Entry)
    ensures e in Shown(Columns(o)) <==> TimeOf(o, e.status) == Some(e.ts)
  {
    ShownMembers(Columns(o), e);
    hide Shown;
    var s := o.stamps;
    var first := if o.payment == Online then [(PendingPayment, Some(s.createdAt)), (Placed, Some(s.createdAt))] else [(Placed, Some(s.createdAt))];
    var rest := [(Accepted, s.acceptedAt), (Rejected, s.rejectedAt), (Ready, s.readyAt), (Assigned, s.assignedAt),
                 (Picked, s.pickedAt), (Delivered, s.deliveredAt), (Cancelled, s.cancelledAt)];
    assert Columns(o) == first + rest;
    assert (e.status, Some(e.ts)) in rest <==> e.status !in {PendingPayment, Placed, Preparing} && TimeOf(o, e.status) == Some(e.ts);
  }

  /** The history of every reachable order is chronological. */
  lemma ShownHistoryIsChronological(owners: nat -> nat, es: seq<Timed>, p: OrderId)
    requires Legal(owners, es) && p in Run(EMPTY, es).orders
    ensures Chronological(Shown(Columns(Run(EMPTY, es).orders[p])))
  {
    HistoryIsConsistent(owners, es, p);
    ColumnsInOrder(Run(EMPTY, es).orders[p], Run(EMPTY, es).clock);
    ShownChronological(Columns(Run(EMPTY, es).orders[p]));
  }

  lemma ColumnsInOrder(o: Order, now: int)
    requires HistoryOk(o, now)
    ensures forall i, j | 0 <= i < j < |Columns(o)| :: NotAfter(Columns(o)[i].1, Columns(o)[j].1)
  {
    var s := o.stamps;
    assert s.rejectedAt.Some? ==> o.status == Rejected;
  }

  lemma {:induction false} LastShown(columns: seq<(Status, Option<int>)>, k: nat)
    requires k < |columns| && columns[k].1.Some? && forall i | k < i < |columns| :: columns[i].1.None?
    ensures var out := Shown(columns); out != [] && out[|out| - 1] == Entry(columns[k].0, columns[k].1.value)
  {
    if k > 0 {
      LastShown(columns[1..], k - 1);
    } else {
      NothingShown(columns[1..]);
    }
  }

  lemma {:induction false} NothingShown(columns: seq<(Status, Option<int>)>)
    requires forall i | 0 <= i < |columns| :: columns[i].1.None?
    ensures Shown(columns) == []
  {
    if |columns| > 0 {
      NothingShown(columns[1..]);
    }
  }

  /** The history of every reachable order ends at its status, but that `preparing`
      shows as accepted and an online order shows as placed while it still waits
      for payment. */
  lemma ShownHistoryEndsAtStatus(owners: nat -> nat, es: seq<Timed>, p: OrderId)
    requires Legal(owners, es) && p in Run(EMPTY, es).orders
    ensures var o := Run(EMPTY, es).orders[p];
            var out := Shown(Columns(o));
            out != [] && out[|out| - 1].status == ShownStatus(o)
  {
    HistoryIsConsistent(owners, es, p);
    LegalIsSound(owners, es);
    LedgerIsDetermined(owners, es);
    var o := Run(EMPTY, es).orders[p];
    assert OrderOk(owners, Run(EMPTY, es), p);
    EndColumn(o, Run(EMPTY, es).clock);
  }

  lemma EndColumn(o: Order, now: int)
    requires HistoryOk(o, now) && (o.payment == Cod ==> o.status != PendingPayment)
    ensures var out := Shown(Columns(o)); out != [] && out[|out| - 1].status == ShownStatus(o)
  {
    hide Shown;
    var placed := if o.payment == Online then 1 else 0;
    var k := match o.status
             case PendingPayment => 1
             case Placed => placed
             case Accepted => placed + 1
             case Preparing => placed + 1
             case Rejected => placed + 2
             case Ready => placed + 3
             case Assigned => placed + 4
             case Picked => placed + 5
             case Delivered => placed + 6
             case Cancelled => placed + 7;
    LastShown(Columns(o), k);
  }
}
