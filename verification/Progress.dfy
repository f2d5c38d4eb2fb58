/** No order gets stuck: from every reachable state it can be finished. */
module Progress {
  import opened Common
  import opened OrderStatus
  import opened Tables
  import opened Lifecycle
  import opened Ledger
  import opened History
  import opened Provenance

  /** The next status on the way to the customer. */
  function Next(s: Status): Status {
    match s
    case Placed => Accepted
    case Accepted => Preparing
    case Preparing => Ready
    case Ready => Assigned
    case Assigned => Picked
    case _ => Delivered
  }

  predicate UnderWay(s: Status) {
    s.Placed? || s.Accepted? || s.Preparing? || s.Ready? || s.Assigned? || s.Picked?
  }

  function OwnerOf(o: Order): Caller {
    Caller(0, RestaurantUser, Some(o.restaurantId), true, {})
  }

  /** Who takes an order one status further, and how. */
  function Advance(o: Order, p: OrderId): Request {
    if o.status == Ready then Claim(p, 0)
    else if o.agent.Some? && o.status == Assigned then Pick(p, o.agent.value)
    else if o.agent.Some? && o.status == Picked then Settle(p, o.agent.value, None, 0)
    else UpdateStatus(p, OwnerOf(o), Next(o.status), false)
  }

  lemma AdvanceWorks(owners: nat -> nat, db: Db, p: OrderId)
    requires p in db.orders && AgentFits(db.orders[p]) && UnderWay(db.orders[p].status)
    ensures var e := Timed(db.clock, Advance(db.orders[p], p));
            && Permitted(owners, db, e)
            && p in After(db, e).orders && After(db, e).orders[p].status == Next(db.orders[p].status)
            && Unchanged(db.orders[p], After(db, e).orders[p])
  {
    hide InsertAllIgnore, UpsertIncrement, SettlementRows, Unchanged;
    StepKeepsTerms(db, Timed(db.clock, Advance(db.orders[p], p)), p);
  }

  lemma Extends(owners: nat -> nat, es: seq<Timed>, e: Timed)
    requires Legal(owners, es) && Permitted(owners, Run(EMPTY, es), e)
    ensures Legal(owners, es + [e]) && Run(EMPTY, es + [e]) == After(Run(EMPTY, es), e)
  {
    assert (es + [e])[..|es|] == es;
  }

  /** From every reachable state, an order under way can be taken on to any later
      status up to `delivered`, by requests that the assumptions permit. */
  lemma {:induction false} CanReach(owners: nat -> nat, es: seq<Timed>, p: OrderId, target: Status) returns (more: seq<Timed>)
    requires Legal(owners, es) && p in Run(EMPTY, es).orders && UnderWay(Run(EMPTY, es).orders[p].status)
    requires (UnderWay(target) || target == Delivered) && Rank(Run(EMPTY, es).orders[p].status) <= Rank(target)
    ensures Legal(owners, es + more)
    ensures p in Run(EMPTY, es + more).orders && Run(EMPTY, es + more).orders[p].status == target
    ensures Unchanged(Run(EMPTY, es).orders[p], Run(EMPTY, es + more).orders[p])
    decreases Rank(Delivered) - Rank(Run(EMPTY, es).orders[p].status)
  {
    hide After, Permitted, Legal, Run;
    var db := Run(EMPTY, es);
    if db.orders[p].status == target {
      more := [];
      assert es + more == es;
    } else {
      var e := Timed(db.clock, Advance(db.orders[p], p));
      HistoryIsConsistent(owners, es, p);
      AdvanceWorks(owners, db, p);
      Extends(owners, es, e);
      if Next(db.orders[p].status) == target {
        more := [e];
      } else {
        var rest := CanReach(owners, es + [e], p, target);
        more := [e] + rest;
        assert es + more == (es + [e]) + rest;
      }
    }
  }

  /** In particular it can still be delivered. */
  lemma EveryPlacedOrderCanBeDelivered(owners: nat -> nat, es: seq<Timed>, p: OrderId) returns (more: seq<Timed>)
    requires Legal(owners, es) && p in Run(EMPTY, es).orders && UnderWay(Run(EMPTY, es).orders[p].status)
    ensures Legal(owners, es + more)
    ensures p in Run(EMPTY, es + more).orders && Run(EMPTY, es + more).orders[p].status == Delivered
  {
    more := CanReach(owners, es, p, Delivered);
  }

  /** How a caller who may do so ends an order for good. */
  function Finish(o: Order, p: OrderId): Request {
    if o.status == PendingPayment then UpdateStatus(p, Caller(o.customerId, CustomerRole, None, false, {}), Cancelled, false)
    else if o.status == Picked && o.agent.Some? then Settle(p, o.agent.value, None, 0)
    else UpdateStatus(p, Caller(0, SystemAdmin, None, false, {}), Cancelled, true)
  }

  /** In every reachable state each order is finished or one request away from it. */
  lemma EveryOrderCanEnd(owners: nat -> nat, es: seq<Timed>, p: OrderId)
    requires Legal(owners, es) && p in Run(EMPTY, es).orders && !Terminal(Run(EMPTY, es).orders[p].status)
    ensures var db := Run(EMPTY, es);
            var more := es + [Timed(db.clock, Finish(db.orders[p], p))];
            Legal(owners, more) && p in Run(EMPTY, more).orders && Terminal(Run(EMPTY, more).orders[p].status)
  {
    var db := Run(EMPTY, es);
    var e := Timed(db.clock, Finish(db.orders[p], p));
    HistoryIsConsistent(owners, es, p);
    FinishWorks(owners, db, p);
    hide After, Permitted, Legal, Run;
    Extends(owners, es, e);
  }

  lemma FinishWorks(owners: nat -> nat, db: Db, p: OrderId)
    requires p in db.orders && AgentFits(db.orders[p]) && !Terminal(db.orders[p].status)
    ensures var e := Timed(db.clock, Finish(db.orders[p], p));
            Permitted(owners, db, e) && p in After(db, e).orders && Terminal(After(db, e).orders[p].status)
  {
    hide InsertAllIgnore, UpsertIncrement, SettlementRows;
  }
}
