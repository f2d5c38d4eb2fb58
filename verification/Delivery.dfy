/**
 What a subscriber hears when each region has one drainer at a time: for every
 order, whatever fails or rolls back, its events in the order they happened.
 */
module Delivery {
  import opened Common
  import opened Tables
  import opened Outbox

  /** At most one drain transaction is open, as when one process runs the drain job
      and overlapping ticks are dropped. */
  predicate Solo(s: State) {
    forall d, e | d in s.drainers && e in s.drainers :: d == e
  }

  ghost predicate SoloRun(steps: seq<Step>) {
    |steps| > 0 ==> SoloRun(steps[..|steps| - 1]) && Solo(Run(INIT, steps))
  }

  predicate SameOrder(s: State, x: nat, y: nat) {
    x in s.events && y in s.events && s.events[x].order == s.events[y].order
  }

  /** An open batch leaves out no older undispatched event of the orders it touches. */
  ghost predicate BatchComplete(s: State) {
    forall d, x, y | d in s.drainers && x in s.drainers[d].ids && SameOrder(s, x, y) && y < x ::
      y in s.dispatched || y in s.drainers[d].ids
  }

  /** No event reaches the exchange before an older event of its order has. */
  ghost predicate StreamClosed(s: State) {
    forall x, y | x in s.stream && SameOrder(s, x, y) && y < x :: y in s.stream
  }

  ghost predicate LogOk(s: State) {
    && (forall id | id in s.events :: id in s.log)
    && (forall i, j | 0 <= i < j < |s.log| :: s.log[i] != s.log[j] && (SameOrder(s, s.log[i], s.log[j]) ==> s.log[i] < s.log[j]))
  }

  /** The committed events of one order, oldest first. */
  function OfOrder(log: seq<nat>, events: map<nat, Event>, p: OrderId): seq<nat> {
    if |log| == 0 then []
    else
      var last := log[|log| - 1];
      OfOrder(log[..|log| - 1], events, p) + if last in events && events[last].order == p then [last] else []
  }

  /** What a subscriber that drops repeated event ids keeps of one order. */
  function Kept(stream: seq<nat>, events: map<nat, Event>, p: OrderId): seq<nat> {
    if |stream| == 0 then []
    else
      var earlier, last := stream[..|stream| - 1], stream[|stream| - 1];
      Kept(earlier, events, p) + if last !in earlier && last in events && events[last].order == p then [last] else []
  }

  ghost predicate Ordered(s: State) {
    Safe(s) && BatchComplete(s) && StreamClosed(s) && LogOk(s)
  }

  // ----- the filters --------------------------------------------------------

  lemma {:induction false} OfOrderMembers(log: seq<nat>, events: map<nat, Event>, p: OrderId)
    ensures forall x :: x in OfOrder(log, events, p) <==> x in log && x in events && events[x].order == p
  {
    if |log| > 0 {
      OfOrderMembers(log[..|log| - 1], events, p);
      assert log == log[..|log| - 1] + [log[|log| - 1]];
    }
  }

  lemma {:induction false} KeptMembers(stream: seq<nat>, events: map<nat, Event>, p: OrderId)
    ensures forall x :: x in Kept(stream, events, p) <==> x in stream && x in events && events[x].order == p
  {
    if |stream| > 0 {
      KeptMembers(stream[..|stream| - 1], events, p);
      assert stream == stream[..|stream| - 1] + [stream[|stream| - 1]];
    }
  }

  lemma {:induction false} OfOrderIncreasing(s: State, n: nat, p: OrderId)
    requires LogOk(s) && n <= |s.log| && forall id | id in s.log :: id in s.events
    ensures Increasing(OfOrder(s.log[..n], s.events, p))
  {
    if n > 0 {
      OfOrderIncreasing(s, n - 1, p);
      assert s.log[..n][..n - 1] == s.log[..n - 1];
      var earlier := OfOrder(s.log[..n - 1], s.events, p);
      OfOrderMembers(s.log[..n - 1], s.events, p);
      forall i | 0 <= i < |earlier|
        ensures s.events[s.log[n - 1]].order == p ==> earlier[i] < s.log[n - 1]
      {
        assert earlier[i] in earlier;
        var k :| 0 <= k < n - 1 && s.log[k] == earlier[i];
        assert s.events[s.log[n - 1]].order == p ==> SameOrder(s, s.log[k], s.log[n - 1]);
      }
    }
  }

  lemma {:induction false} KeptIgnoresNewEvents(stream: seq<nat>, events: map<nat, Event>, id: nat, e: Event, p: OrderId)
    requires id !in events && forall x | x in stream :: x in events
    ensures Kept(stream, events[id := e], p) == Kept(stream, events, p)
  {
    if |stream| > 0 {
      KeptIgnoresNewEvents(stream[..|stream| - 1], events, id, e, p);
    }
  }

  lemma {:induction false} OfOrderIgnoresNewEvents(log: seq<nat>, events: map<nat, Event>, id: nat, e: Event, p: OrderId)
    requires id !in events && forall x | x in log :: x in events
    ensures OfOrder(log, events[id := e], p) == OfOrder(log, events, p)
  {
    if |log| > 0 {
      OfOrderIgnoresNewEvents(log[..|log| - 1], events, id, e, p);
    }
  }

  // ----- order is kept ------------------------------------------------------

  lemma AppendKeepsOrder(s: State, id: nat, e: Event)
    requires Ordered(s)
    ensures Ordered(Do(s, Append(id, e)))
  {
    AppendKeepsSafe(s, id, e);
    var s' := Do(s, Append(id, e));
    if s' != s {
      assert forall d | d in s.drainers :: BatchOk(s, d);
      assert forall x, y | SameOrder(s', x, y) && y != id && x != id :: SameOrder(s, x, y);
      assert s'.log == s.log + [id];
    }
  }

  lemma ClaimKeepsOrder(s: State, d: nat, limit: nat)
    requires Ordered(s) && Solo(Do(s, ClaimBatch(d, limit)))
    ensures Ordered(Do(s, ClaimBatch(d, limit)))
  {
    hide Safe, Lowest, Claimable, SameOrder;
    ClaimKeepsSafe(s, d, limit);
    var s' := Do(s, ClaimBatch(d, limit));
    if s' != s {
      assert forall e | e in s.drainers :: e in s'.drainers;
      assert s'.drainers.Keys == {d};
      NewBatchIsComplete(s, limit);
      SameEventsSameOrder(s, s');
    }
  }

  lemma SameEventsSameOrder(s: State, s': State)
    requires s'.events == s.events
    ensures forall x, y :: SameOrder(s', x, y) == SameOrder(s, x, y)
  {
  }

  /** With no other batch open, what a claim leaves out is newer or dispatched. */
  lemma NewBatchIsComplete(s: State, limit: nat)
    requires s.drainers == map[]
    ensures forall x, y | x in Lowest(Claimable(s), limit) && SameOrder(s, x, y) && y < x ::
              y in s.dispatched || y in Lowest(Claimable(s), limit)
  {
    assert Locked(s) == {};
    forall x, y | x in Lowest(Claimable(s), limit) && SameOrder(s, x, y) && y < x
      ensures y in s.dispatched || y in Lowest(Claimable(s), limit)
    {
      assert y !in Lowest(Claimable(s), limit) ==> y !in Claimable(s);
    }
  }

  lemma PublishKeepsOrder(s: State, step: Step)
    requires Ordered(s) && (step.PublishOk? || step.PublishFails?)
    ensures Ordered(Do(s, step))
  {
    PublishKeepsSafe(s, step);
    PublishKeepsBatches(s, step);
    PublishKeepsStream(s, step);
    assert LogOk(Do(s, step)) by {
      hide Safe, BatchComplete, StreamClosed;
    }
  }

  lemma PublishKeepsBatches(s: State, step: Step)
    requires BatchComplete(s) && (step.PublishOk? || step.PublishFails?)
    ensures BatchComplete(Do(s, step))
  {
    var s', d := Do(s, step), step.d;
    if s' != s {
      assert forall e | e in s'.drainers :: s'.drainers[e].ids == s.drainers[e].ids;
      assert forall x, y :: SameOrder(s', x, y) == SameOrder(s, x, y);
    }
  }

  lemma PublishKeepsStream(s: State, step: Step)
    requires Safe(s) && BatchComplete(s) && StreamClosed(s) && (step.PublishOk? || step.PublishFails?)
    ensures StreamClosed(Do(s, step))
  {
    var s', d := Do(s, step), step.d;
    if s' != s {
      PublishedNextIsOldest(s, d);
      hide Safe, BatchComplete;
      assert forall x, y :: SameOrder(s', x, y) == SameOrder(s, x, y);
    }
  }

  /** Every older event of the next row's order has been published already. */
  lemma PublishedNextIsOldest(s: State, d: nat)
    requires Safe(s) && BatchComplete(s) && d in s.drainers && s.drainers[d].pos < |s.drainers[d].ids|
    ensures var x := s.drainers[d].ids[s.drainers[d].pos];
            x in s.events && forall y | SameOrder(s, x, y) && y < x :: y in s.stream
  {
    var b := s.drainers[d];
    var x := b.ids[b.pos];
    assert BatchOk(s, d) && x in b.ids;
    forall y | SameOrder(s, x, y) && y < x
      ensures y in s.stream
    {
      if y !in s.dispatched {
        var k :| 0 <= k < |b.ids| && b.ids[k] == y;
        assert k < b.pos;
      }
    }
  }

  lemma EndKeepsOrder(s: State, step: Step)
    requires Ordered(s) && (step.CommitBatch? || step.RollBack?)
    ensures Ordered(Do(s, step))
  {
    EndKeepsSafe(s, step);
    var s', d := Do(s, step), step.d;
    if s' != s {
      assert BatchOk(s, d);
      if s.drainers[d].pos < |s.drainers[d].ids| {
        PublishedNextIsOldest(s, d);
      }
      assert forall x, y :: SameOrder(s', x, y) == SameOrder(s, x, y);
      assert forall e | e in s'.drainers :: s'.drainers[e] == s.drainers[e];
    }
  }

  lemma DoKeepsOrder(s: State, step: Step)
    requires Ordered(s) && Solo(Do(s, step))
    ensures Ordered(Do(s, step))
  {
    hide Do, Ordered;
    match step
    case Append(id, e) => AppendKeepsOrder(s, id, e);
    case ClaimBatch(d, limit) => ClaimKeepsOrder(s, d, limit);
    case CommitBatch(_) => EndKeepsOrder(s, step);
    case RollBack(_, _) => EndKeepsOrder(s, step);
    case _ => PublishKeepsOrder(s, step);
  }

  lemma {:induction false} SoloRunIsOrdered(steps: seq<Step>)
    requires SoloRun(steps)
    ensures Ordered(Run(INIT, steps))
  {
    if |steps| > 0 {
      SoloRunIsOrdered(steps[..|steps| - 1]);
      DoKeepsOrder(Run(INIT, steps[..|steps| - 1]), steps[|steps| - 1]);
    }
  }

  // ----- what the subscriber keeps ------------------------------------------

  lemma KeptGrows(s: State, x: nat, p: OrderId)
    requires Ordered(s) && x in s.events && forall y: nat | SameOrder(s, x, y) && y < x :: y in s.stream
    requires Kept(s.stream, s.events, p) <= OfOrder(s.log, s.events, p)
    ensures Kept(s.stream + [x], s.events, p) <= OfOrder(s.log, s.events, p)
  {
    hide Kept, OfOrder, Safe, BatchComplete, StreamClosed;
    var kept, all := Kept(s.stream, s.events, p), OfOrder(s.log, s.events, p);
    KeptAppend(s.stream, x, s.events, p);
    if x !in s.stream && s.events[x].order == p {
      KeptMembers(s.stream, s.events, p);
      OfOrderMembers(s.log, s.events, p);
      assert s.log[..|s.log|] == s.log;
      LogRefers(s);
      OfOrderIncreasing(s, |s.log|, p);
      assert x in all;
      var m :| 0 <= m < |all| && all[m] == x;
      NextInOrder(kept, all, m);
      assert |kept| < m ==> all[|kept|] in all && SameOrder(s, x, all[|kept|]);
    }
  }

  lemma KeptAppend(stream: seq<nat>, x: nat, events: map<nat, Event>, p: OrderId)
    ensures Kept(stream + [x], events, p)
         == Kept(stream, events, p) + if x !in stream && x in events && events[x].order == p then [x] else []
  {
    assert (stream + [x])[..|stream|] == stream;
  }

  lemma LogRefers(s: State)
    requires Safe(s)
    ensures forall id | id in s.log :: id in s.events
  {
  }

  /** In an increasing sequence, what follows a prefix is smaller than anything
      further on and not in the prefix. */
  lemma NextInOrder(prefix: seq<nat>, all: seq<nat>, m: nat)
    requires Increasing(all) && prefix <= all && m < |all| && all[m] !in prefix
    ensures |prefix| <= m
    ensures |prefix| < m ==> all[|prefix|] < all[m] && all[|prefix|] !in prefix
    ensures |prefix| == m ==> prefix + [all[m]] <= all
  {
    assert forall k | 0 <= k < |prefix| :: prefix[k] == all[k] && all[k] in prefix;
  }

  /** With one drainer at a time, whatever publishes fail, are reported failed
      though they arrived, or roll back: the subscriber's events of an order are
      always the first so many of that order's committed events. */
  lemma {:induction false} SubscriberKeepsPrefix(steps: seq<Step>, p: OrderId)
    requires SoloRun(steps)
    ensures var s := Run(INIT, steps); Kept(s.stream, s.events, p) <= OfOrder(s.log, s.events, p)
  {
    if |steps| > 0 {
      var s, step := Run(INIT, steps[..|steps| - 1]), steps[|steps| - 1];
      SubscriberKeepsPrefix(steps[..|steps| - 1], p);
      SoloRunIsOrdered(steps[..|steps| - 1]);
      StepKeepsPrefix(s, step, p);
    }
  }

  lemma StepKeepsPrefix(s: State, step: Step, p: OrderId)
    requires Ordered(s) && Kept(s.stream, s.events, p) <= OfOrder(s.log, s.events, p)
    ensures var s' := Do(s, step); Kept(s'.stream, s'.events, p) <= OfOrder(s'.log, s'.events, p)
  {
    var s' := Do(s, step);
    if step.Append? {
      if s' != s {
        KeptIgnoresNewEvents(s.stream, s.events, step.id, step.event, p);
        OfOrderIgnoresNewEvents(s.log, s.events, step.id, step.event, p);
        assert s'.log[..|s.log|] == s.log;
      }
    } else if s'.stream != s.stream {
      PublishedNextIsOldest(s, step.d);
      KeptGrows(s, s'.stream[|s.stream|], p);
    }
  }
}
