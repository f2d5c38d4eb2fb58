/**
 The transactional outbox and its drainers, as a state machine whose steps are
 the drainer's database and broker operations. Any number of drainers may be at
 work, interleaved in any order with each other and with the transactions that
 append events.
 */
module Outbox {
  import opened Common
  import opened Tables

  /** One open drain transaction: the rows it locked, in id order; how many of them
      it has published and marked; whether a publish failed and ended the loop. */
  datatype Batch = Batch(ids: seq<nat>, pos: nat, failed: bool)

  /** `events` is the table's content and `log` its ids in the order their rows were
      committed, which need not be the order of the ids. `dispatched` holds the ids
      whose dispatched_at is committed; `stream` is what has reached the exchange,
      as event ids; `attempts` counts the recorded failures. */
  datatype State = State(
    events: map<nat, Event>, log: seq<nat>, dispatched: set<nat>, attempts: map<nat, nat>,
    drainers: map<nat, Batch>, stream: seq<nat>)

  const INIT := State(map[], [], {}, map[], map[], [])

  datatype Step =
    | Append(id: nat, event: Event)
    | ClaimBatch(d: nat, limit: nat)
    | PublishOk(d: nat)
    | PublishFails(d: nat, reached: bool)
    | CommitBatch(d: nat)
    | RollBack(d: nat, reached: bool)

  function Locked(s: State): set<nat> {
    set d, id | d in s.drainers && id in s.drainers[d].ids :: id
  }

  /** Rows a claim may return: not dispatched and not locked by another drainer. */
  function Claimable(s: State): set<nat> {
    s.events.Keys - s.dispatched - Locked(s)
  }

  /** A sequence draws ids in the order transactions ask for them, and an order's
      next transaction starts after its previous one ended; so ids grow along the
      events of one order, though not across orders. */
  predicate FreshId(s: State, id: nat, e: Event) {
    id !in s.events && forall x | x in s.events && s.events[x].order == e.order :: x < id
  }

  function Attempts(s: State, id: nat): nat {
    if id in s.attempts then s.attempts[id] else 0
  }

  /** A step that is not enabled changes nothing. */
  function Do(s: State, step: Step): State {
    match step
    case Append(id, e) =>
      if FreshId(s, id, e) then s.(events := s.events[id := e], log := s.log + [id]) else s
    case ClaimBatch(d, limit) =>
      var ids := Lowest(Claimable(s), limit);
      if d in s.drainers || ids == [] then s else s.(drainers := s.drainers[d := Batch(ids, 0, false)])
    case PublishOk(d) =>
      if d in s.drainers && !s.drainers[d].failed && s.drainers[d].pos < |s.drainers[d].ids| then
        var b := s.drainers[d];
        s.(stream := s.stream + [b.ids[b.pos]], drainers := s.drainers[d := b.(pos := b.pos + 1)])
      else s
    case PublishFails(d, reached) =>
      if d in s.drainers && !s.drainers[d].failed && s.drainers[d].pos < |s.drainers[d].ids| then
        var b := s.drainers[d];
        s.(stream := if reached then s.stream + [b.ids[b.pos]] else s.stream, drainers := s.drainers[d := b.(failed := true)])
      else s
    case CommitBatch(d) =>
      if d in s.drainers && s.drainers[d].pos <= |s.drainers[d].ids|
         && (s.drainers[d].failed || s.drainers[d].pos == |s.drainers[d].ids|) then
        var b := s.drainers[d];
        s.(dispatched := s.dispatched + SetOf(b.ids[..b.pos]),
           attempts := if b.failed && b.pos < |b.ids| then s.attempts[b.ids[b.pos] := Attempts(s, b.ids[b.pos]) + 1] else s.attempts,
           drainers := s.drainers - {d})
      else s
    case RollBack(d, reached) =>
      if d in s.drainers then
        var b := s.drainers[d];
        s.(stream := if reached && !b.failed && b.pos < |b.ids| then s.stream + [b.ids[b.pos]] else s.stream,
           drainers := s.drainers - {d})
      else s
  }

  function Run(s: State, steps: seq<Step>): State {
    if |steps| == 0 then s else Do(Run(s, steps[..|steps| - 1]), steps[|steps| - 1])
  }

  // ----- safety with any number of drainers ---------------------------------

  ghost predicate BatchOk(s: State, d: nat)
    requires d in s.drainers
  {
    var b := s.drainers[d];
    && b.pos <= |b.ids| && (b.failed ==> b.pos < |b.ids|)
    && Increasing(b.ids)
    && (forall id | id in b.ids :: id in s.events && id !in s.dispatched)
    && (forall k | 0 <= k < b.pos :: b.ids[k] in s.stream)
  }

  ghost predicate Disjoint(s: State) {
    forall d, e, id | d in s.drainers && e in s.drainers && id in s.drainers[d].ids && id in s.drainers[e].ids :: d == e
  }

  ghost predicate Safe(s: State) {
    && (forall d | d in s.drainers :: BatchOk(s, d))
    && Disjoint(s)
    && (forall id | id in s.dispatched :: id in s.events && id in s.stream)
    && (forall id | id in s.stream :: id in s.events)
    && (forall id | id in s.log :: id in s.events)
  }

  lemma AppendKeepsSafe(s: State, id: nat, e: Event)
    requires Safe(s)
    ensures Safe(Do(s, Append(id, e)))
  {
    var s' := Do(s, Append(id, e));
    assert forall d | d in s.drainers :: BatchOk(s, d) ==> BatchOk(s', d);
  }

  lemma ClaimKeepsSafe(s: State, d: nat, limit: nat)
    requires Safe(s)
    ensures Safe(Do(s, ClaimBatch(d, limit)))
  {
    hide Lowest, Locked;
    var s', ids := Do(s, ClaimBatch(d, limit)), Lowest(Claimable(s), limit);
    if s' != s {
      ClaimedAreFree(s, limit);
      forall e | e in s'.drainers
        ensures BatchOk(s', e)
      {
        assert e != d ==> BatchOk(s, e);
      }
      assert s'.drainers[d].ids == ids;
      assert forall e | e in s.drainers :: s'.drainers[e] == s.drainers[e];
    }
  }

  lemma ClaimedAreFree(s: State, limit: nat)
    ensures forall id | id in Lowest(Claimable(s), limit) :: id in s.events && id !in s.dispatched
    ensures forall e, id | e in s.drainers && id in s.drainers[e].ids :: id !in Lowest(Claimable(s), limit)
  {
    assert forall e, id | e in s.drainers && id in s.drainers[e].ids :: id in Locked(s);
  }

  /** A publish, well or badly, moves only its own drainer. */
  lemma PublishKeepsSafe(s: State, step: Step)
    requires Safe(s) && (step.PublishOk? || step.PublishFails?)
    ensures Safe(Do(s, step))
  {
    var s', d := Do(s, step), step.d;
    if s' != s {
      var b := s.drainers[d];
      assert BatchOk(s, d) && b.ids[b.pos] in b.ids;
      assert forall id | id in s.stream :: id in s'.stream;
      assert step.PublishOk? ==> s'.stream[|s.stream|] == b.ids[b.pos];
      assert forall e | e in s'.drainers :: e in s.drainers && s'.drainers[e].ids == s.drainers[e].ids;
      forall e | e in s'.drainers
        ensures BatchOk(s', e)
      {
        assert BatchOk(s, e);
      }
    }
  }

  lemma EndKeepsSafe(s: State, step: Step)
    requires Safe(s) && (step.CommitBatch? || step.RollBack?)
    ensures Safe(Do(s, step))
  {
    var s', d := Do(s, step), step.d;
    if s' != s {
      var b := s.drainers[d];
      assert BatchOk(s, d);
      assert forall id | id in b.ids[..b.pos] :: id in b.ids && id in s.stream;
      forall e | e in s'.drainers
        ensures BatchOk(s', e)
      {
        assert BatchOk(s, e);
        assert forall id | id in s.drainers[e].ids :: id !in b.ids;
      }
    }
  }

  lemma DoKeepsSafe(s: State, step: Step)
    requires Safe(s)
    ensures Safe(Do(s, step))
  {
    hide Do, Safe;
    match step
    case Append(id, e) => AppendKeepsSafe(s, id, e);
    case ClaimBatch(d, limit) => ClaimKeepsSafe(s, d, limit);
    case CommitBatch(_) => EndKeepsSafe(s, step);
    case RollBack(_, _) => EndKeepsSafe(s, step);
    case _ => PublishKeepsSafe(s, step);
  }

  /** With any number of concurrent drainers: no row is held by two of them, every
      row marked dispatched was published before, and a drainer's rows are in id
      order, undispatched, with the ones it has passed published. */
  lemma {:induction false} DrainersAreSafe(steps: seq<Step>)
    ensures Safe(Run(INIT, steps))
  {
    if |steps| > 0 {
      DrainersAreSafe(steps[..|steps| - 1]);
      DoKeepsSafe(Run(INIT, steps[..|steps| - 1]), steps[|steps| - 1]);
    }
  }

  /** A drain that rolls back, or a row whose publish failed, leaves the row
      undispatched and free to be claimed again. */
  lemma UnfinishedRowsComeBack(s: State, d: nat, reached: bool, id: nat)
    requires Safe(s) && d in s.drainers && id in s.drainers[d].ids
    ensures id in Claimable(Do(s, RollBack(d, reached)))
    ensures s.drainers[d].failed && id !in s.drainers[d].ids[..s.drainers[d].pos] ==> id in Claimable(Do(s, CommitBatch(d)))
  {
    assert BatchOk(s, d);
    assert forall e | e in s.drainers && e != d :: id !in s.drainers[e].ids;
  }

  // ----- who published what -----------------------------------------------------

  /** What a step has put on the exchange. */
  function Emitted(s: State, s': State): seq<nat> {
    if |s.stream| <= |s'.stream| then s'.stream[|s.stream|..] else []
  }

  predicate Claims(s: State, step: Step, d: nat) {
    step.ClaimBatch? && step.d == d && d !in s.drainers
  }

  predicate ByDrainer(step: Step, d: nat) {
    !step.Append? && step.d == d
  }

  /** An observer of one drainer: everything its own steps have put on the exchange
      from the claim of its latest batch on. */
  function Sent(steps: seq<Step>, d: nat): seq<nat> {
    if |steps| == 0 then []
    else
      var n := |steps| - 1;
      var s := Run(INIT, steps[..n]);
      if Claims(s, steps[n], d) then Emitted(s, Do(s, steps[n]))
      else Sent(steps[..n], d) + if ByDrainer(steps[n], d) then Emitted(s, Do(s, steps[n])) else []
  }

  /** Whether the publish on which the latest batch failed arrived all the same. */
  function Arrived(steps: seq<Step>, d: nat): bool {
    if |steps| == 0 then false
    else
      var n := |steps| - 1;
      var s := Run(INIT, steps[..n]);
      if Claims(s, steps[n], d) then false
      else if steps[n] == PublishFails(d, true) && Do(s, steps[n]) != s then true
      else Arrived(steps[..n], d)
  }

  /** The rows a batch must have sent by now: those it has passed, and the one whose
      publish failed if that arrived. */
  function Due(b: Batch, arrived: bool): seq<nat>
    requires b.pos <= |b.ids| && (b.failed ==> b.pos < |b.ids|)
  {
    b.ids[..b.pos] + if b.failed && arrived then [b.ids[b.pos]] else []
  }

  /** In every run, with any number of drainers, what an open batch has sent is exactly
      a prefix of its rows in id order, each once: the rows it has passed, and the row
      it failed on if that publish arrived. */
  lemma {:induction false} BatchesSendPrefixes(steps: seq<Step>, d: nat)
    requires d in Run(INIT, steps).drainers
    ensures var b := Run(INIT, steps).drainers[d];
            && b.pos <= |b.ids| && (b.failed ==> b.pos < |b.ids|) && Increasing(b.ids)
            && (!b.failed ==> !Arrived(steps, d))
            && Sent(steps, d) == Due(b, Arrived(steps, d))
  {
    hide Do, Emitted, Safe, Due, BatchOk;
    BatchShape(steps, d);
    if |steps| > 0 {
      var n := |steps| - 1;
      var s := Run(INIT, steps[..n]);
      if d in s.drainers {
        BatchesSendPrefixes(steps[..n], d);
        SendingStep(s, steps[n], d, Sent(steps[..n], d), Arrived(steps[..n], d));
      } else {
        ClaimSendsNothing(s, steps[n], d);
      }
    }
  }

  lemma BatchShape(steps: seq<Step>, d: nat)
    requires d in Run(INIT, steps).drainers
    ensures var b := Run(INIT, steps).drainers[d]; b.pos <= |b.ids| && (b.failed ==> b.pos < |b.ids|) && Increasing(b.ids)
    ensures |steps| > 0
  {
    hide Do;
    DrainersAreSafe(steps);
    assert BatchOk(Run(INIT, steps), d);
  }

  lemma ClaimSendsNothing(s: State, step: Step, d: nat)
    requires d !in s.drainers && d in Do(s, step).drainers
    ensures Claims(s, step, d) && Emitted(s, Do(s, step)) == []
    ensures !Do(s, step).drainers[d].failed && Due(Do(s, step).drainers[d], false) == []
  {
    hide Lowest, Claimable;
  }

  lemma SendingStep(s: State, step: Step, d: nat, sent: seq<nat>, arrived: bool)
    requires d in s.drainers && d in Do(s, step).drainers && s.drainers[d].pos <= |s.drainers[d].ids|
    requires s.drainers[d].failed ==> s.drainers[d].pos < |s.drainers[d].ids|
    requires (!s.drainers[d].failed ==> !arrived) && sent == Due(s.drainers[d], arrived)
    ensures var b' := Do(s, step).drainers[d];
            var arrived' := arrived || (step == PublishFails(d, true) && Do(s, step) != s);
            && b'.pos <= |b'.ids| && (b'.failed ==> b'.pos < |b'.ids|) && (!b'.failed ==> !arrived')
            && sent + (if ByDrainer(step, d) then Emitted(s, Do(s, step)) else []) == Due(b', arrived')
  {
    hide Lowest, Claimable;
    var b := s.drainers[d];
    if step.PublishOk? && step.d == d && Do(s, step) != s {
      assert b.ids[..b.pos] + [] + [b.ids[b.pos]] == b.ids[..b.pos + 1] + [];
    }
  }

  lemma EndingStep(s: State, step: Step, d: nat, sent: seq<nat>, arrived: bool)
    requires d in s.drainers && d !in Do(s, step).drainers && step.d == d && !step.Append?
    requires var b := s.drainers[d];
             && b.pos <= |b.ids| && (b.failed ==> b.pos < |b.ids|) && (!b.failed ==> !arrived) && sent == Due(b, arrived)
    ensures sent + Emitted(s, Do(s, step)) <= s.drainers[d].ids
  {
    hide Lowest, Claimable, Attempts;
    var b := s.drainers[d];
    if b.pos < |b.ids| {
      assert b.ids[..b.pos + 1] == b.ids[..b.pos] + [b.ids[b.pos]];
    }
    assert Emitted(s, Do(s, step)) == [] || (!b.failed && b.pos < |b.ids| && Emitted(s, Do(s, step)) == [b.ids[b.pos]]);
  }

  /** When a batch ends, by commit or by rollback, all it ever sent is a prefix of its
      rows. */
  lemma EndedBatchSentPrefix(steps: seq<Step>, d: nat, last: Step)
    requires d in Run(INIT, steps).drainers && ByDrainer(last, d) && d !in Do(Run(INIT, steps), last).drainers
    ensures Sent(steps, d) + Emitted(Run(INIT, steps), Do(Run(INIT, steps), last)) <= Run(INIT, steps).drainers[d].ids
  {
    BatchesSendPrefixes(steps, d);
    EndingStep(Run(INIT, steps), last, d, Sent(steps, d), Arrived(steps, d));
  }

  // ----- how often a row failed ------------------------------------------------------

  /** The commits in which row id was the one that failed. */
  function Failures(steps: seq<Step>, id: nat): nat {
    if |steps| == 0 then 0
    else
      var n := |steps| - 1;
      Failures(steps[..n], id) + if CountsFailure(Run(INIT, steps[..n]), steps[n], id) then 1 else 0
  }

  predicate CountsFailure(s: State, step: Step, id: nat) {
    && step.CommitBatch? && step.d in s.drainers
    && var b := s.drainers[step.d]; b.failed && b.pos < |b.ids| && b.ids[b.pos] == id
  }

  lemma AttemptsStep(s: State, step: Step, id: nat)
    ensures Attempts(Do(s, step), id) == Attempts(s, id) + if CountsFailure(s, step, id) then 1 else 0
  {
    hide Lowest, Claimable;
  }

  /** The attempts column of a row counts the committed passes that failed on it. */
  lemma {:induction false} AttemptsCountFailures(steps: seq<Step>, id: nat)
    ensures Attempts(Run(INIT, steps), id) == Failures(steps, id)
  {
    hide Do, CountsFailure;
    if |steps| == 0 {
      NoAttempts(id);
    } else {
      AttemptsCountFailures(steps[..|steps| - 1], id);
      hide Attempts;
      AttemptsStep(Run(INIT, steps[..|steps| - 1]), steps[|steps| - 1], id);
    }
  }

  lemma NoAttempts(id: nat)
    ensures Attempts(INIT, id) == 0
  {
  }
}
