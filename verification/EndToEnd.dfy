/**
 From a request to the subscriber: requests that commit events with their table
 changes, one drainer that publishes them, and a subscriber that drops repeats.
 */
module EndToEnd {
  import opened Common
  import opened Tables
  import L = Lifecycle
  import O = Outbox
  import opened Delivery
  import opened EventWords
  import opened PaymentWords

  /** A request with the ids its outbox rows draw, or an operation of the drainer. */
  datatype Act = Business(e: L.Timed, ids: seq<nat>) | Drain(step: O.Step)

  function Requests(acts: seq<Act>): seq<L.Timed> {
    if |acts| == 0 then []
    else
      var last := acts[|acts| - 1];
      Requests(acts[..|acts| - 1]) + if last.Business? then [last.e] else []
  }

  /** The events a request commits. */
  function Committed(db: Db, e: L.Timed): seq<Event> {
    var after := L.After(db, e).outbox;
    if |after| >= |db.outbox| then after[|db.outbox|..] else []
  }

  function Appends(ids: seq<nat>, events: seq<Event>): seq<O.Step>
    requires |ids| == |events|
  {
    if |ids| == 0 then []
    else Appends(ids[..|ids| - 1], events[..|ids| - 1]) + [O.Append(ids[|ids| - 1], events[|ids| - 1])]
  }

  function OutboxSteps(acts: seq<Act>): seq<O.Step> {
    if |acts| == 0 then []
    else
      var earlier, last := acts[..|acts| - 1], acts[|acts| - 1];
      OutboxSteps(earlier) +
      match last
      case Drain(step) => [step]
      case Business(e, ids) =>
        var events := Committed(TablesAfter(earlier), e);
        if |ids| == |events| then Appends(ids, events) else []
  }

  function TablesAfter(acts: seq<Act>): Db {
    L.Run(L.EMPTY, Requests(acts))
  }

  function OutboxAfter(acts: seq<Act>): O.State {
    O.Run(O.INIT, OutboxSteps(acts))
  }

  /** Every append in a list finds its id fresh. */
  ghost predicate IdsFresh(s: O.State, ids: seq<nat>, events: seq<Event>)
    requires |ids| == |events|
  {
    |ids| > 0 ==>
      var n := |ids| - 1;
      IdsFresh(s, ids[..n], events[..n])
      && O.FreshId(O.Run(s, Appends(ids[..n], events[..n])), ids[n], events[n])
  }

  /** A legal run of the whole system: permitted requests, ids as the sequence
      deals them, one drainer at a time, and publishes that may fail anyhow. */
  ghost predicate LegalSystem(owners: nat -> nat, acts: seq<Act>) {
    |acts| > 0 ==>
      var earlier, last := acts[..|acts| - 1], acts[|acts| - 1];
      && LegalSystem(owners, earlier)
      && match last
         case Drain(step) => !step.Append? && Solo(O.Do(OutboxAfter(earlier), step))
         case Business(e, ids) =>
           var events := Committed(TablesAfter(earlier), e);
           && L.Permitted(owners, TablesAfter(earlier), e)
           && |ids| == |events| && IdsFresh(OutboxAfter(earlier), ids, events)
  }

  /** The order events among some rows, or the payment events, in their order. */
  function Kinds(ids: seq<nat>, events: map<nat, Event>, ofOrder: bool): seq<EventKind> {
    if |ids| == 0 then []
    else
      var last := ids[|ids| - 1];
      Kinds(ids[..|ids| - 1], events, ofOrder)
      + if last in events && IsOrderEvent(events[last].kind) == ofOrder then [events[last].kind] else []
  }

  /** What the subscriber has been told about one order. */
  function Heard(s: O.State, p: OrderId): seq<EventKind> {
    Kinds(Kept(s.stream, s.events, p), s.events, true)
  }

  /** What it has been told about the order's payments. */
  function HeardPayments(s: O.State, p: OrderId): seq<EventKind> {
    Kinds(Kept(s.stream, s.events, p), s.events, false)
  }

  // ----- the outbox table and the drainer's table are one --------------------

  ghost predicate SameRows(db: Db, s: O.State) {
    && |s.log| == |db.outbox|
    && forall i | 0 <= i < |s.log| :: s.log[i] in s.events && s.events[s.log[i]] == db.outbox[i]
  }

  lemma {:induction false} OutboxRunConcat(s: O.State, a: seq<O.Step>, b: seq<O.Step>)
    ensures O.Run(s, a + b) == O.Run(O.Run(s, a), b)
  {
    if |b| == 0 {
      assert a + b == a;
    } else {
      assert (a + b)[..|a + b| - 1] == a + b[..|b| - 1];
      OutboxRunConcat(s, a, b[..|b| - 1]);
    }
  }

  /** The table has gained exactly these rows. */
  ghost predicate Gained(s: O.State, s': O.State, ids: seq<nat>, events: seq<Event>)
    requires |ids| == |events|
  {
    && s'.log == s.log + ids
    && (forall id | id in s.events :: id in s'.events && s'.events[id] == s.events[id])
    && forall i | 0 <= i < |ids| :: ids[i] in s'.events && s'.events[ids[i]] == events[i]
  }

  lemma GainedOneMore(s: O.State, mid: O.State, ids: seq<nat>, events: seq<Event>)
    requires |ids| == |events| > 0
    requires Gained(s, mid, ids[..|ids| - 1], events[..|ids| - 1]) && O.FreshId(mid, ids[|ids| - 1], events[|ids| - 1])
    ensures Gained(s, O.Do(mid, O.Append(ids[|ids| - 1], events[|ids| - 1])), ids, events)
  {
    var n := |ids| - 1;
    var s' := O.Do(mid, O.Append(ids[n], events[n]));
    assert ids == ids[..n] + [ids[n]];
    assert forall i | 0 <= i < n :: ids[i] == ids[..n][i] && events[i] == events[..n][i];
  }

  lemma {:induction false} AppendsAddRows(steps: seq<O.Step>, ids: seq<nat>, events: seq<Event>)
    requires SoloRun(steps) && |ids| == |events| && IdsFresh(O.Run(O.INIT, steps), ids, events)
    ensures SoloRun(steps + Appends(ids, events))
    ensures Gained(O.Run(O.INIT, steps), O.Run(O.INIT, steps + Appends(ids, events)), ids, events)
  {
    hide O.Run, SoloRun, O.Do;
    if |ids| == 0 {
      assert steps + Appends(ids, events) == steps;
    } else {
      var n := |ids| - 1;
      var earlier, step := Appends(ids[..n], events[..n]), O.Append(ids[n], events[n]);
      AppendsAddRows(steps, ids[..n], events[..n]);
      OutboxRunConcat(O.INIT, steps, earlier);
      assert steps + Appends(ids, events) == (steps + earlier) + [step];
      SoloKeptByAppend(steps + earlier, step);
      GainedOneMore(O.Run(O.INIT, steps), O.Run(O.INIT, steps + earlier), ids, events);
    }
  }

  lemma SoloKeptByAppend(steps: seq<O.Step>, step: O.Step)
    requires SoloRun(steps) && step.Append?
    ensures SoloRun(steps + [step])
    ensures O.Run(O.INIT, steps + [step]) == O.Do(O.Run(O.INIT, steps), step)
  {
    assert (steps + [step])[..|steps|] == steps;
    if |steps| == 0 {
      assert O.Run(O.INIT, steps) == O.INIT;
    }
  }

  lemma SoloKeptByDrain(steps: seq<O.Step>, step: O.Step)
    requires SoloRun(steps) && Solo(O.Do(O.Run(O.INIT, steps), step))
    ensures SoloRun(steps + [step])
    ensures O.Run(O.INIT, steps + [step]) == O.Do(O.Run(O.INIT, steps), step)
  {
    assert (steps + [step])[..|steps|] == steps;
  }

  lemma CommittedExtends(db: Db, e: L.Timed)
    ensures L.After(db, e).outbox == db.outbox + Committed(db, e)
  {
    hide HasKey, InsertAllIgnore, UpsertIncrement, FindActive, L.SettlementRows, L.ChargeRow, Moved;
    match e.request {
      case Deliver(_, _) => assert db.outbox <= L.After(db, e).outbox;
      case UpdateStatus(_, _, _, _) => assert db.outbox <= L.After(db, e).outbox;
      case Settle(_, _, _, _) => assert db.outbox <= L.After(db, e).outbox;
      case _ => assert db.outbox <= L.After(db, e).outbox;
    }
  }

  lemma RequestsExtend(owners: nat -> nat, requests: seq<L.Timed>, e: L.Timed)
    requires L.Legal(owners, requests) && L.Permitted(owners, L.Run(L.EMPTY, requests), e)
    ensures L.Legal(owners, requests + [e])
    ensures L.Run(L.EMPTY, requests + [e]) == L.After(L.Run(L.EMPTY, requests), e)
  {
    assert (requests + [e])[..|requests|] == requests;
  }

  lemma GainedKeepsSameRows(db: Db, db': Db, s: O.State, s': O.State, ids: seq<nat>, events: seq<Event>)
    requires SameRows(db, s) && |ids| == |events| && Gained(s, s', ids, events) && db'.outbox == db.outbox + events
    ensures SameRows(db', s')
  {
    forall i | 0 <= i < |s'.log|
      ensures s'.log[i] in s'.events && s'.events[s'.log[i]] == db'.outbox[i]
    {
      if i >= |s.log| {
        assert s'.log[i] == ids[i - |s.log|];
      }
    }
  }

  lemma DrainKeepsRows(s: O.State, step: O.Step)
    requires !step.Append?
    ensures O.Do(s, step).log == s.log && O.Do(s, step).events == s.events
  {
    hide Lowest, SetOf, O.Claimable, O.Attempts;
  }

  /** Both machines are in step: the requests form a legal run, the outbox steps a
      run with one drainer, and the two tables hold the same rows. */
  lemma {:induction false} MachinesAgree(owners: nat -> nat, acts: seq<Act>)
    requires LegalSystem(owners, acts)
    ensures L.Legal(owners, Requests(acts)) && SoloRun(OutboxSteps(acts))
    ensures SameRows(TablesAfter(acts), OutboxAfter(acts))
  {
    hide O.Run, SoloRun, O.Do, L.Run, L.Legal, L.Permitted, L.After, Solo;
    if |acts| == 0 {
      StartAgrees(owners);
    } else {
      var earlier, last := acts[..|acts| - 1], acts[|acts| - 1];
      MachinesAgree(owners, earlier);
      var db, s := TablesAfter(earlier), OutboxAfter(earlier);
      match last {
        case Drain(step) =>
          SoloKeptByDrain(OutboxSteps(earlier), step);
          DrainKeepsRows(s, step);
          assert Requests(acts) == Requests(earlier);
        case Business(e, ids) =>
          RequestsExtend(owners, Requests(earlier), e);
          AppendsAddRows(OutboxSteps(earlier), ids, Committed(db, e));
          CommittedExtends(db, e);
          GainedKeepsSameRows(db, TablesAfter(acts), s, OutboxAfter(acts), ids, Committed(db, e));
      }
    }
  }

  lemma StartAgrees(owners: nat -> nat)
    ensures L.Legal(owners, []) && SoloRun([]) && SameRows(L.Run(L.EMPTY, []), O.Run(O.INIT, []))
  {
  }

  // ----- words --------------------------------------------------------------

  lemma KindsAppend(ids: seq<nat>, id: nat, events: map<nat, Event>, ofOrder: bool)
    ensures Kinds(ids + [id], events, ofOrder)
         == Kinds(ids, events, ofOrder) + if id in events && IsOrderEvent(events[id].kind) == ofOrder then [events[id].kind] else []
  {
    assert (ids + [id])[..|ids|] == ids;
  }

  lemma {:induction false} KindsPrefix(a: seq<nat>, b: seq<nat>, events: map<nat, Event>, ofOrder: bool)
    requires a <= b
    ensures Kinds(a, events, ofOrder) <= Kinds(b, events, ofOrder)
  {
    if |a| < |b| {
      KindsPrefix(a, b[..|b| - 1], events, ofOrder);
    } else {
      assert a == b;
    }
  }

  lemma {:induction false} WordIsLog(log: seq<nat>, events: map<nat, Event>, outbox: seq<Event>, p: OrderId)
    requires |log| == |outbox| && forall i | 0 <= i < |log| :: log[i] in events && events[log[i]] == outbox[i]
    ensures Word(outbox, p) == Kinds(OfOrder(log, events, p), events, true)
    ensures PaymentEvents(outbox, p) == Kinds(OfOrder(log, events, p), events, false)
  {
    if |log| > 0 {
      var n := |log| - 1;
      WordIsLog(log[..n], events, outbox[..n], p);
      var earlier := OfOrder(log[..n], events, p);
      if events[log[n]].order == p {
        KindsAppend(earlier, log[n], events, true);
        KindsAppend(earlier, log[n], events, false);
      } else {
        assert OfOrder(log, events, p) == earlier;
      }
    }
  }

  lemma LegalWordsArePrefixClosed(w: seq<EventKind>, v: seq<EventKind>)
    requires LegalWord(w) && v <= w
    ensures LegalWord(v)
  {
    assert v == w[..|v|];
  }

  /** End to end, with one drainer and any pattern of publish failures, lost
      confirmations and rollbacks: what a subscriber that drops repeated event ids
      has heard of an order is a beginning of the word that the order's status
      calls for, and by itself a legal word. */
  lemma SubscriberHearsLegalPrefix(owners: nat -> nat, acts: seq<Act>, p: OrderId)
    requires LegalSystem(owners, acts)
    ensures var db, s := TablesAfter(acts), OutboxAfter(acts);
            && Heard(s, p) <= Word(db.outbox, p) && LegalWord(Heard(s, p))
            && (p in db.orders ==> WordFits(db.orders[p], Word(db.outbox, p)))
  {
    hide Word, LegalWord, WordFits;
    MachinesAgree(owners, acts);
    var db, s := TablesAfter(acts), OutboxAfter(acts);
    SubscriberKeepsPrefix(OutboxSteps(acts), p);
    KindsPrefix(Kept(s.stream, s.events, p), OfOrder(s.log, s.events, p), s.events, true);
    WordIsLog(s.log, s.events, db.outbox, p);
    OutboxWordFitsStatus(owners, Requests(acts), p);
    LegalWordsArePrefixClosed(Word(db.outbox, p), Heard(s, p));
  }

  /** End to end, what the subscriber has heard of an order's payments is a beginning of
      its charges in the ledger, each told as it went. */
  lemma SubscriberHearsPayments(owners: nat -> nat, acts: seq<Act>, p: OrderId)
    requires LegalSystem(owners, acts)
    ensures HeardPayments(OutboxAfter(acts), p) <= ChargesTold(TablesAfter(acts).ledger, p)
  {
    hide Word, PaymentEvents, ChargesTold;
    MachinesAgree(owners, acts);
    var db, s := TablesAfter(acts), OutboxAfter(acts);
    SubscriberKeepsPrefix(OutboxSteps(acts), p);
    KindsPrefix(Kept(s.stream, s.events, p), OfOrder(s.log, s.events, p), s.events, false);
    WordIsLog(s.log, s.events, db.outbox, p);
    PaymentEventsTellCharges(Requests(acts), p);
  }
}
