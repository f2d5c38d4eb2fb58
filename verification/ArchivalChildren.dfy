/** Hot rows that name an order, and that order, while sweeps run and after them. */
module ArchivalChildren {
  import opened Common
  import opened Archival
  import opened ArchivalRuns

  /** Orders are deleted last, when no prior-year child is left hot: only a child of
      this year can lose an order of a prior year. */
  lemma DeletedOrderLeavesNoChild(s: State, p: Sweep, cutoff: int, c: Row, o: Row)
    requires p.Deleting? && SweepOk(s, p, cutoff)
    requires c in s.hot && o in p.rows && ChildOf(c, o)
    ensures o.ts < cutoff <= c.ts
  {
    assert p.k == 5;
    var j := match c.table
             case AgentEarnings => 0
             case WebhookEvents => 1
             case PaymentSessions => 2
             case Transactions => 3
             case _ => 4;
    assert c !in Prior(s.hot, TABLES[j], cutoff);
  }

  lemma StepKeepsChildren(s: State, step: Step, cutoff: int, limit: nat)
    requires Inv(s, cutoff) && ChildrenHaveOrders(s.hot) && NoneStraddles(s.hot + PlacedBy(s, step, cutoff), cutoff)
    ensures ChildrenHaveOrders(Do(s, step, cutoff, limit).hot)
  {
    var s' := Do(s, step, cutoff, limit);
    if step.Delete? && s' != s {
      var p := s.sweeps[step.w];
      assert SweepOk(s, p, cutoff);
      DeleteRemovesRows(s.hot, s.hot + s.archive, TABLES[p.k], p.rows);
      assert s.hot + {} == s.hot;
      forall c | c in s'.hot && c.table != Orders && c.order.Some?
        ensures HasOrder(s'.hot, c)
      {
        var o :| o in s.hot && ChildOf(c, o);
        if o in p.rows {
          DeletedOrderLeavesNoChild(s, p, cutoff, c, o);
        }
      }
    } else if step.Place? && CanPlace(s, step.rows, cutoff) {
      forall c | c in s'.hot && c.table != Orders && c.order.Some?
        ensures HasOrder(s'.hot, c)
      {
        if c in s.hot {
          var o :| o in s.hot && ChildOf(c, o);
          assert o in s'.hot;
        }
      }
    }
  }

  /** At every point of every run, crash and runtime cap included, every hot row that
      names an order has that order hot, for all child tables alike, as long as no
      child of this year was placed or found hot for an order of a prior year. */
  lemma {:induction false} ChildrenKeepOrders(s: State, steps: seq<Step>, cutoff: int, limit: nat)
    requires Fit(s) && limit > 0 && ChildrenHaveOrders(s.hot)
    requires NoneStraddles(s.hot + Placed(s, steps, cutoff, limit), cutoff)
    ensures ChildrenHaveOrders(Run(s, steps, cutoff, limit).hot)
  {
    hide WellKeyed, ItemsHaveOrders, ChildrenHaveOrders, CanPlace, SweepOk, Do, Inv;
    if |steps| > 0 {
      var n := |steps| - 1;
      ChildrenKeepOrders(s, steps[..n], cutoff, limit);
      SweepsLoseNothing(s, steps[..n], cutoff, limit);
      StepKeepsChildren(Run(s, steps[..n], cutoff, limit), steps[n], cutoff, limit);
    }
  }

  // ----- the condition is exact -------------------------------------------------

  /** After a completed run every hot child still has its hot order exactly when no
      child of this year belongs to an order of a prior year. */
  lemma SettledChildrenExactlyWhen(hot: set<Row>, cutoff: int)
    requires WellKeyed(hot) && ChildrenHaveOrders(hot)
    ensures ChildrenHaveOrders(SettledHot(hot, cutoff)) <==> NoneStraddles(hot, cutoff)
  {
    var left := SettledHot(hot, cutoff);
    if ChildrenHaveOrders(left) {
      forall c, o | c in hot && o in hot && ChildOf(c, o) && c.ts >= cutoff
        ensures o.ts >= cutoff
      {
        assert c in left && HasOrder(left, c);
        var x :| x in left && ChildOf(c, x);
        assert x == o;
      }
    }
    if NoneStraddles(hot, cutoff) {
      forall c | c in left && c.table != Orders && c.order.Some?
        ensures HasOrder(left, c)
      {
        assert HasOrder(hot, c);
        var o :| o in hot && ChildOf(c, o);
        assert o in left;
      }
    }
  }

  /** Nothing placed along the run is a child of this year of a prior-year order. */
  ghost predicate PlacesNoStraddler(s: State, steps: seq<Step>, cutoff: int, limit: nat) {
    var placed := Placed(s, steps, cutoff, limit);
    forall c, o | c in placed && o in s.hot + placed && ChildOf(c, o) :: o.ts >= cutoff
  }

  /** A hot child of this year whose order is of a prior year loses it as soon as some
      run completes, whatever happened before. */
  lemma StraddlerIsStranded(s: State, cutoff: int, limit: nat) returns (more: seq<Step>)
    requires Inv(s, cutoff) && limit > 0 && ChildrenHaveOrders(s.hot) && !NoneStraddles(s.hot, cutoff)
    ensures Sweeping(more) && !ChildrenHaveOrders(Run(s, more, cutoff, limit).hot)
  {
    more := CompletingRun(s, cutoff, limit);
    assert forall r | r in s.hot :: r in s.hot + s.archive;
    SettledChildrenExactlyWhen(s.hot, cutoff);
    EndsSettled(s, more, cutoff, limit);
  }

  /** No child loses its order at any point of any run that places no such child,
      exactly when none is there at the start. */
  lemma ChildrenKeepOrdersExactlyWhen(s: State, cutoff: int, limit: nat)
    requires Fit(s) && limit > 0 && ChildrenHaveOrders(s.hot)
    ensures (forall steps | PlacesNoStraddler(s, steps, cutoff, limit) :: ChildrenHaveOrders(Run(s, steps, cutoff, limit).hot))
       <==> NoneStraddles(s.hot, cutoff)
  {
    if NoneStraddles(s.hot, cutoff) {
      forall steps | PlacesNoStraddler(s, steps, cutoff, limit)
        ensures ChildrenHaveOrders(Run(s, steps, cutoff, limit).hot)
      {
        SweepsLoseNothing(s, steps, cutoff, limit);
        ChildrenKeepOrders(s, steps, cutoff, limit);
      }
    } else {
      var more := StraddlerIsStranded(s, cutoff, limit);
      SweepingPlacesNothing(s, more, cutoff, limit);
      assert PlacesNoStraddler(s, more, cutoff, limit);
    }
  }

  /** An order placed before midnight of the last day and delivered after it: the
      nightly run takes the order away from its earning. */
  lemma NewYearDeliveryIsOrphaned(cutoff: int)
    ensures var order := Row(Orders, 1, cutoff - 1, None, 7, None, 0);
            var earning := Row(AgentEarnings, 1, cutoff, Some(1), 7, Some(1), 0);
            var hot := {order, earning};
            WellKeyed(hot) && ChildrenHaveOrders(hot) && !ChildrenHaveOrders(SettledHot(hot, cutoff))
  {
    var order := Row(Orders, 1, cutoff - 1, None, 7, None, 0);
    var earning := Row(AgentEarnings, 1, cutoff, Some(1), 7, Some(1), 0);
    var hot := {order, earning};
    assert HasOrder(hot, earning) by {
      assert order in hot && ChildOf(earning, order);
    }
    SettledChildrenExactlyWhen(hot, cutoff);
    assert ChildOf(earning, order) && order.ts < cutoff <= earning.ts;
  }
}
