/** Who made each move of an order, and whom the row names, in every run. */
module Moves {
  import opened Common
  import opened OrderStatus
  import opened Tables
  import opened Lifecycle
  import opened Answers

  // ----- placements still waiting for the provider -----------------------------------

  /** Legal or not, a run leaves an order that waits for the provider alone: nobody has
      it, and it has no session that a webhook could find. */
  ghost predicate Waiting(db: Db, p: OrderId) {
    && p in db.orders && db.orders[p].agent == None && (db.orders[p].status == PendingPayment || db.orders[p].status == Cancelled)
    && forall s | s in db.sessions :: s.orderId != p
  }

  ghost predicate Calm(db: Db) {
    && (forall s | s in db.sessions :: s.orderId in db.orders)
    && (forall p | p in db.awaitingInit :: Waiting(db, p))
  }

  lemma UpdatedSessions(sessions: seq<Session>, i: nat, s: Session)
    requires i < |sessions| && s.orderId == sessions[i].orderId
    ensures forall x | x in sessions[i := s] :: exists y :: y in sessions && y.orderId == x.orderId
  {
    forall x | x in sessions[i := s]
      ensures exists y :: y in sessions && y.orderId == x.orderId
    {
      var j :| 0 <= j < |sessions| && sessions[i := s][j] == x;
      assert sessions[j] in sessions && sessions[j].orderId == x.orderId;
    }
  }

  lemma SessionsStep(db: Db, e: Timed)
    ensures forall s | s in After(db, e).sessions ::
              || (exists y :: y in db.sessions && y.orderId == s.orderId)
              || (e.request.FinishInit? && s.orderId == e.request.p && e.request.p in db.awaitingInit && e.request.p in db.orders)
  {
    hide HasKey, FindActive, InsertAllIgnore, UpsertIncrement, SettlementRows, AssertTransition, ResolveActor, OwnerOfLatest,
         DecrementIfSufficient, Moved, ChargeRow;
    match e.request {
      case Deliver(w, _) => {
        if FindActive(db.sessions, w.orderId).Some? {
          var i := FindActive(db.sessions, w.orderId).value;
          var s := db.sessions[i];
          UpdatedSessions(db.sessions, i, s.(status := if w.success then Captured else Failed, lastTxn := Some(w.txn)));
        }
      }
      case _ =>
    }
  }

  lemma AwaitingStep(db: Db, e: Timed, p: OrderId)
    requires Calm(db) && p in After(db, e).awaitingInit
    ensures (p in db.awaitingInit && !(e.request.FinishInit? && e.request.p == p))
         || (p !in db.orders && e.request.Place? && e.request.placement.orderId == p && e.request.placement.payment == Online)
  {
    hide HasKey, FindActive, InsertAllIgnore, UpsertIncrement, SettlementRows, AssertTransition, ResolveActor, OwnerOfLatest,
         DecrementIfSufficient, Moved, ChargeRow, NewOrder;
  }

  lemma WaitingAtEndpoint(db: Db, e: Timed, p: OrderId)
    requires Waiting(db, p) && e.request.UpdateStatus?
    ensures p in After(db, e).orders
    ensures var o := After(db, e).orders[p]; o.agent == None && (o.status == PendingPayment || o.status == Cancelled)
  {
    var r := e.request;
    StatusChangeDoneExactlyWhen(db, r.p, r.caller, r.to, r.hasReason, e.now);
    hide ChangeStatus;
  }

  /** A waiting order can only be cancelled, and stays waiting. */
  lemma WaitingStays(db: Db, e: Timed, p: OrderId)
    requires Waiting(db, p) && !(e.request.FinishInit? && e.request.p == p)
    ensures p in After(db, e).orders
    ensures var o := After(db, e).orders[p]; o.agent == None && (o.status == PendingPayment || o.status == Cancelled)
  {
    hide HasKey, InsertAllIgnore, UpsertIncrement, SettlementRows, OwnerOfLatest, DecrementIfSufficient, Stamped, ChargeRow, AssertTransition,
         ResolveActor;
    match e.request {
      case UpdateStatus(_, _, _, _) => WaitingAtEndpoint(db, e, p);
      case Deliver(w, _) => {
        assert forall j | 0 <= j < |db.sessions| :: db.sessions[j] in db.sessions;
        hide FindActive;
      }
      case _ =>
    }
  }

  lemma NewOrderWaits(db: Db, e: Timed, p: OrderId)
    requires Calm(db) && p !in db.orders && e.request.Place? && e.request.placement.orderId == p && e.request.placement.payment == Online
    ensures Waiting(After(db, e), p)
  {
  }

  lemma CalmStep(db: Db, e: Timed)
    requires Calm(db)
    ensures Calm(After(db, e))
  {
    var db' := After(db, e);
    SessionsStep(db, e);
    OrdersStay(db, e);
    hide After;
    forall p | p in db'.awaitingInit
      ensures Waiting(db', p)
    {
      AwaitingStep(db, e, p);
      if p in db.awaitingInit && !(e.request.FinishInit? && e.request.p == p) {
        WaitingStays(db, e, p);
      } else {
        NewOrderWaits(db, e, p);
      }
    }
  }

  lemma OrdersStay(db: Db, e: Timed)
    ensures db.orders.Keys <= After(db, e).orders.Keys
  {
    hide HasKey, FindActive, InsertAllIgnore, UpsertIncrement, SettlementRows, AssertTransition, ResolveActor, OwnerOfLatest,
         DecrementIfSufficient, Moved, ChargeRow, NewOrder;
    match e.request {
      case Deliver(_, _) =>
      case Settle(_, _, _, _) =>
      case UpdateStatus(_, _, _, _) =>
      case _ =>
    }
  }

  lemma {:induction false} RunsAreCalm(es: seq<Timed>)
    ensures Calm(Run(EMPTY, es))
  {
    hide After, Calm;
    if |es| == 0 {
      EmptyIsCalm();
    } else {
      RunsAreCalm(es[..|es| - 1]);
      CalmStep(Run(EMPTY, es[..|es| - 1]), es[|es| - 1]);
    }
  }

  lemma EmptyIsCalm()
    ensures Calm(EMPTY)
  {
  }

  // ----- who made a move ----------------------------------------------------------------

  /** Every way in which the status of an order may change, and by whom. */
  predicate MadeBy(o: Order, o': Order, p: OrderId, e: Timed) {
    match e.request
    case UpdateStatus(q, c, to, hasReason) => q == p && to == o'.status && MayMove(o, c, to, hasReason, e.now)
    case Deliver(w, _) => w.isPay && w.success && w.orderId == p && o.status == PendingPayment && o'.status == Placed
    case FinishInit(q, init) => q == p && init == ProviderFailed && o.status == PendingPayment && o'.status == Cancelled
    case Claim(q, a) => q == p && o.status == Ready && o'.status == Assigned && o'.agent == Some(a)
    case Pick(q, a) => q == p && o.status == Assigned && o'.status == Picked && o.agent == Some(a)
    case GoOffline(a) => o.status == Assigned && o.agent == Some(a) && o'.status == Ready && o'.agent == None
    case Settle(q, a, _, _) => q == p && o.agent == Some(a) && o'.status == Delivered
    case _ => false
  }

  lemma EndpointIsMadeBy(db: Db, e: Timed, p: OrderId)
    requires e.request.UpdateStatus? && p in db.orders && p in After(db, e).orders
    ensures After(db, e).orders[p].status != db.orders[p].status ==> MadeBy(db.orders[p], After(db, e).orders[p], p, e)
  {
    var r := e.request;
    StatusChangeDoneExactlyWhen(db, r.p, r.caller, r.to, r.hasReason, e.now);
    hide ChangeStatus, MayMove;
  }

  lemma StepIsMadeBy(db: Db, e: Timed, p: OrderId)
    requires Calm(db) && p in db.orders && p in After(db, e).orders
    ensures After(db, e).orders[p].status != db.orders[p].status ==> MadeBy(db.orders[p], After(db, e).orders[p], p, e)
  {
    hide HasKey, FindActive, InsertAllIgnore, UpsertIncrement, SettlementRows, OwnerOfLatest, DecrementIfSufficient, Stamped, ChargeRow,
         AssertTransition, ResolveActor, MayMove;
    match e.request {
      case UpdateStatus(_, _, _, _) => EndpointIsMadeBy(db, e, p);
      case FinishInit(q, _) => assert q in db.awaitingInit ==> Waiting(db, q);
      case Deliver(_, _) =>
      case Settle(_, _, _, _) =>
      case _ =>
    }
  }

  /** In every run, legal or not, each change of an order's status was made by a request
      and a caller that may make it. */
  lemma EveryMoveIsMadeBy(es: seq<Timed>, i: nat, p: OrderId)
    requires i < |es| && p in Run(EMPTY, es[..i]).orders
    ensures p in Run(EMPTY, es[..i + 1]).orders
    ensures var o, o' := Run(EMPTY, es[..i]).orders[p], Run(EMPTY, es[..i + 1]).orders[p];
            o'.status != o.status ==> MadeBy(o, o', p, es[i])
  {
    assert es[..i + 1][..i] == es[..i];
    RunsAreCalm(es[..i]);
    OrdersStay(Run(EMPTY, es[..i]), es[i]);
    hide After, Calm, MadeBy;
    StepIsMadeBy(Run(EMPTY, es[..i]), es[i], p);
  }

  /** In particular an order is only ever accepted by the owner of its restaurant or by a
      member who works at its branch. */
  lemma AcceptedByItsStaff(es: seq<Timed>, i: nat, p: OrderId)
    requires i < |es| && p in Run(EMPTY, es[..i]).orders && p in Run(EMPTY, es[..i + 1]).orders
    requires Run(EMPTY, es[..i]).orders[p].status == Placed && Run(EMPTY, es[..i + 1]).orders[p].status == Accepted
    ensures var o, r := Run(EMPTY, es[..i]).orders[p], es[i].request;
            && r.UpdateStatus? && r.p == p && r.to == Accepted
            && r.caller.role == RestaurantUser && r.caller.restaurantId == Some(o.restaurantId)
            && (r.caller.isOwner || o.branchId in r.caller.branchIds)
  {
    hide Run;
    EveryMoveIsMadeBy(es, i, p);
  }

  // ----- whom the row names -----------------------------------------------------------

  /** Who holds an order, and whether going offline would still give it back. */
  datatype Tenure = Nobody | Holds(agent: nat, returnable: bool)

  /** A granted claim takes the order for its agent; until a granted pick-up, status
      change or settlement, the agent's going offline gives it back. */
  function NextTenure(before: Tenure, r: Request, granted: bool, p: OrderId): Tenure {
    if !granted then before
    else
      match r
      case Claim(q, a) => if q == p then Holds(a, true) else before
      case GoOffline(a) => if before == Holds(a, true) then Nobody else before
      case Pick(q, _) => if q == p && before.Holds? then before.(returnable := false) else before
      case UpdateStatus(q, _, _, _) => if q == p && before.Holds? then before.(returnable := false) else before
      case Settle(q, _, _, _) => if q == p && before.Holds? then before.(returnable := false) else before
      case _ => before
  }

  /** Read off the requests and their answers alone. */
  function TenureAfter(es: seq<Timed>, p: OrderId): Tenure {
    if |es| == 0 then Nobody
    else
      var n := |es| - 1;
      NextTenure(TenureAfter(es[..n], p), es[n].request, Exec(Run(EMPTY, es[..n]), es[n]).outcome == Done, p)
  }

  /** The row says the same. */
  predicate RowSays(db: Db, p: OrderId, t: Tenure) {
    if p !in db.orders then t == Nobody
    else
      match t
      case Nobody => db.orders[p].agent == None && db.orders[p].status != Assigned
      case Holds(a, returnable) =>
        var s := db.orders[p].status;
        db.orders[p].agent == Some(a) && (if returnable then s.Assigned? else s.Picked? || s.Delivered? || s.Cancelled?)
  }

  lemma TenureAtEndpoint(db: Db, e: Timed, p: OrderId, t: Tenure)
    requires RowSays(db, p, t) && e.request.UpdateStatus?
    ensures RowSays(After(db, e), p, NextTenure(t, e.request, Exec(db, e).outcome == Done, p))
  {
    var r := e.request;
    StatusChangeDoneExactlyWhen(db, r.p, r.caller, r.to, r.hasReason, e.now);
    hide ChangeStatus, IsItsStaff, IsItsCustomer, IsAdmin, IsItsAgent, InTime;
  }

  lemma TenureAtPayment(db: Db, e: Timed, p: OrderId, t: Tenure)
    requires Calm(db) && RowSays(db, p, t) && (e.request.FinishInit? || e.request.Deliver? || e.request.Place?)
    ensures RowSays(After(db, e), p, NextTenure(t, e.request, Exec(db, e).outcome == Done, p))
  {
    hide HasKey, FindActive, Stamped, ChargeRow;
    assert e.request.FinishInit? && e.request.p in db.awaitingInit ==> Waiting(db, e.request.p);
  }

  lemma TenureAtAgent(db: Db, e: Timed, p: OrderId, t: Tenure)
    requires RowSays(db, p, t) && (e.request.Claim? || e.request.Pick? || e.request.GoOffline? || e.request.Settle?)
    ensures RowSays(After(db, e), p, NextTenure(t, e.request, Exec(db, e).outcome == Done, p))
  {
    hide InsertAllIgnore, UpsertIncrement, SettlementRows, Stamped;
  }

  lemma TenureStep(db: Db, e: Timed, p: OrderId, t: Tenure)
    requires Calm(db) && RowSays(db, p, t)
    ensures RowSays(After(db, e), p, NextTenure(t, e.request, Exec(db, e).outcome == Done, p))
  {
    match e.request {
      case UpdateStatus(_, _, _, _) => TenureAtEndpoint(db, e, p, t);
      case FinishInit(_, _) => TenureAtPayment(db, e, p, t);
      case Place(_) => TenureAtPayment(db, e, p, t);
      case Deliver(_, _) => TenureAtPayment(db, e, p, t);
      case RecordPayout(_, _, _, _) => {
        hide HasKey, OwnerOfLatest, DecrementIfSufficient;
      }
      case _ => TenureAtAgent(db, e, p, t);
    }
  }

  /** In every run, legal or not, the row names agent a if and only if the latest granted
      claim of the order was by a and a has not given it back by going offline since. */
  lemma {:induction false} RowNamesTheClaimer(es: seq<Timed>, p: OrderId)
    ensures RowSays(Run(EMPTY, es), p, TenureAfter(es, p))
    ensures p in Run(EMPTY, es).orders ==>
              forall a :: Run(EMPTY, es).orders[p].agent == Some(a) <==> TenureAfter(es, p).Holds? && TenureAfter(es, p).agent == a
  {
    hide After, Exec, Calm;
    if |es| > 0 {
      var n := |es| - 1;
      RowNamesTheClaimer(es[..n], p);
      RunsAreCalm(es[..n]);
      hide RowSays;
      TenureStep(Run(EMPTY, es[..n]), es[n], p, TenureAfter(es[..n], p));
    }
    SaidByRow(Run(EMPTY, es), p, TenureAfter(es, p));
  }

  lemma SaidByRow(db: Db, p: OrderId, t: Tenure)
    requires RowSays(db, p, t)
    ensures p in db.orders ==> forall a :: db.orders[p].agent == Some(a) <==> t.Holds? && t.agent == a
  {
  }
}
