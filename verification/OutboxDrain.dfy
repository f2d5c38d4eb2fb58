/** The drain job itself: one pass over the outbox as a loop with a break. */
module OutboxDrain {
  import opened Common
  import opened Tables
  import opened Outbox

  /** How the broker answers one publish. */
  datatype Publish = Confirmed | FailedUnseen | FailedButArrived

  /** How many publishes succeed before the first failure. */
  function Successes(answers: seq<Publish>): nat {
    if |answers| == 0 || answers[0] != Confirmed then 0 else 1 + Successes(answers[1..])
  }

  lemma {:induction false} SuccessesSplit(answers: seq<Publish>)
    ensures Successes(answers) <= |answers|
    ensures forall i | 0 <= i < Successes(answers) :: answers[i] == Confirmed
    ensures Successes(answers) < |answers| ==> answers[Successes(answers)] != Confirmed
  {
    if |answers| > 0 && answers[0] == Confirmed {
      SuccessesSplit(answers[1..]);
    }
  }

  function Min2(a: nat, b: nat): nat {
    if a < b then a else b
  }

  /** The tables and the exchange once a drain ended after j confirmed publishes:
      those rows are published and marked; the next one, if its publish failed, has
      its attempts raised and may have arrived; the rest is untouched. */
  function Ended(s: State, ids: seq<nat>, j: nat, failure: Option<Publish>): State
    requires j <= |ids| && (failure.Some? ==> j < |ids|)
  {
    s.(dispatched := s.dispatched + SetOf(ids[..j]),
       stream := s.stream + ids[..j] + (if failure == Some(FailedButArrived) then [ids[j]] else []),
       attempts := if failure.Some? then s.attempts[ids[j] := Attempts(s, ids[j]) + 1] else s.attempts)
  }

  /** One pass over a batch: it goes as far as the first failed publish. */
  function AfterPass(s: State, limit: nat, answers: seq<Publish>): State
    requires |answers| >= |Lowest(Claimable(s), limit)|
  {
    var ids := Lowest(Claimable(s), limit);
    var k := Min2(Successes(answers), |ids|);
    Ended(s, ids, k, if k < |ids| then Some(answers[k]) else None)
  }

  class Drainer {
    var events: map<nat, Event>
    var log: seq<nat>
    var dispatched: set<nat>
    var attempts: map<nat, nat>
    var stream: seq<nat>

    /** No other drain transaction is open while this one runs alone. */
    function View(): State
      reads this
    {
      State(events, log, dispatched, attempts, map[], stream)
    }

    constructor ()
      ensures View() == INIT
    {
      events, log, dispatched, attempts, stream := map[], [], {}, map[], [];
    }

    /** claimBatch: undispatched rows in id order, at most `limit`. */
    method ClaimBatch(limit: nat) returns (rows: seq<nat>)
      ensures rows == Lowest(Claimable(View()), limit)
    {
      assert Locked(View()) == {};
      assert Claimable(View()) == events.Keys - dispatched;
      rows := Lowest(events.Keys - dispatched, limit);
    }

    /** One pass. The marks are made inside the transaction and become visible with
        its commit; `commits` tells whether the commit succeeds. */
    method DrainOnce(limit: nat, answers: seq<Publish>, commits: bool)
      requires |answers| >= limit
      modifies this
      ensures commits ==> View() == AfterPass(old(View()), limit, answers)
      ensures !commits ==> View() == AfterPass(old(View()), limit, answers).(dispatched := old(dispatched), attempts := old(attempts))
    {
      hide Lowest, Claimable;
      var rows := ClaimBatch(limit);
      if |rows| == 0 {
        assert dispatched + SetOf(rows[..0]) == dispatched && stream + rows[..0] + [] == stream;
        return;
      }
      SuccessesSplit(answers);
      var marked, failures := dispatched, attempts;
      var i := 0;
      while i < |rows|
        invariant 0 <= i <= |rows| && i <= Successes(answers)
        invariant marked == old(dispatched) + SetOf(rows[..i])
        invariant stream == old(stream) + rows[..i]
        invariant failures == old(attempts)
        invariant events == old(events) && log == old(log) && dispatched == old(dispatched) && attempts == old(attempts)
      {
        if answers[i] != Confirmed {
          failures := failures[rows[i] := Attempts(View(), rows[i]) + 1];
          if answers[i] == FailedButArrived {
            stream := stream + [rows[i]];
          }
          break;
        }
        stream := stream + [rows[i]];
        marked := marked + {rows[i]};
        assert rows[..i + 1] == rows[..i] + [rows[i]];
        i := i + 1;
      }
      assert i == Min2(Successes(answers), |rows|);
      assert old(stream) + rows[..i] + [] == old(stream) + rows[..i];
      if commits {
        dispatched, attempts := marked, failures;
      }
    }
  }

  // ----- the pass is a run of the state machine ------------------------------

  /** Steps of drainer d from its claim to the end of its loop. */
  function PassSteps(d: nat, n: nat, limit: nat, answers: seq<Publish>): seq<Step>
    requires n <= |answers|
  {
    [Step.ClaimBatch(d, limit)] + LoopSteps(d, n, answers)
  }

  function LoopSteps(d: nat, n: nat, answers: seq<Publish>): seq<Step>
    requires n <= |answers|
  {
    if n == 0 then [Step.CommitBatch(d)]
    else if answers[0] == Confirmed then [PublishOk(d)] + LoopSteps(d, n - 1, answers[1..])
    else [PublishFails(d, answers[0] == FailedButArrived), Step.CommitBatch(d)]
  }

  lemma {:induction false} RunConcat(s: State, a: seq<Step>, b: seq<Step>)
    ensures Run(s, a + b) == Run(Run(s, a), b)
  {
    if |b| == 0 {
      assert a + b == a;
    } else {
      assert (a + b)[..|a + b| - 1] == a + b[..|b| - 1];
      RunConcat(s, a, b[..|b| - 1]);
    }
  }

  lemma RunOne(s: State, step: Step)
    ensures Run(s, [step]) == Do(s, step)
  {
    assert [step][..0] == [];
  }

  /** Where the loop of drainer d stands after i confirmed publishes. */
  function Midway(s: State, d: nat, ids: seq<nat>, i: nat): State
    requires i <= |ids|
  {
    s.(drainers := s.drainers[d := Batch(ids, i, false)], stream := s.stream + ids[..i])
  }

  lemma MidwayAdvances(s: State, d: nat, ids: seq<nat>, i: nat)
    requires d !in s.drainers && i < |ids|
    ensures Do(Midway(s, d, ids, i), PublishOk(d)) == Midway(s, d, ids, i + 1)
  {
    assert s.stream + ids[..i] + [ids[i]] == s.stream + ids[..i + 1];
  }

  lemma MidwayEnds(s: State, d: nat, ids: seq<nat>)
    requires d !in s.drainers
    ensures Do(Midway(s, d, ids, |ids|), Step.CommitBatch(d)) == Ended(s, ids, |ids|, None)
  {
    assert s.stream + ids[..|ids|] + [] == s.stream + ids[..|ids|];
    assert Midway(s, d, ids, |ids|).drainers - {d} == s.drainers;
  }

  lemma MidwayFails(s: State, d: nat, ids: seq<nat>, i: nat, answer: Publish)
    requires d !in s.drainers && i < |ids| && answer != Confirmed
    ensures Do(Do(Midway(s, d, ids, i), PublishFails(d, answer == FailedButArrived)), Step.CommitBatch(d)) == Ended(s, ids, i, Some(answer))
  {
    var failed := Do(Midway(s, d, ids, i), PublishFails(d, answer == FailedButArrived));
    assert failed.drainers - {d} == s.drainers;
    assert failed.stream == s.stream + ids[..i] + if answer == FailedButArrived then [ids[i]] else [];
  }

  lemma {:induction false} LoopReaches(s: State, d: nat, ids: seq<nat>, i: nat, answers: seq<Publish>)
    requires d !in s.drainers && i <= |ids| && |answers| >= |ids| - i
    ensures var k := Min2(Successes(answers), |ids| - i);
            Run(Midway(s, d, ids, i), LoopSteps(d, |ids| - i, answers))
            == Ended(s, ids, i + k, if i + k < |ids| then Some(answers[k]) else None)
    decreases |ids| - i
  {
    hide Run, Successes, Do, Midway, Ended;
    var mid := Midway(s, d, ids, i);
    SuccessesUnfold(answers);
    if i == |ids| {
      RunOne(mid, Step.CommitBatch(d));
      MidwayEnds(s, d, ids);
    } else if answers[0] == Confirmed {
      RunConcat(mid, [PublishOk(d)], LoopSteps(d, |ids| - i - 1, answers[1..]));
      RunOne(mid, PublishOk(d));
      MidwayAdvances(s, d, ids, i);
      LoopReaches(s, d, ids, i + 1, answers[1..]);
    } else {
      var failed := PublishFails(d, answers[0] == FailedButArrived);
      assert LoopSteps(d, |ids| - i, answers) == [failed] + [Step.CommitBatch(d)];
      RunConcat(mid, [failed], [Step.CommitBatch(d)]);
      RunOne(mid, failed);
      RunOne(Do(mid, failed), Step.CommitBatch(d));
      MidwayFails(s, d, ids, i, answers[0]);
    }
  }

  lemma SuccessesUnfold(answers: seq<Publish>)
    ensures Successes(answers) == if |answers| == 0 || answers[0] != Confirmed then 0 else 1 + Successes(answers[1..])
  {
  }

  /** A committed pass is a run of the concurrent machine: its claim, its publishes
      one by one up to the first failure, and its commit. */
  lemma PassRefinesMachine(s: State, d: nat, limit: nat, answers: seq<Publish>)
    requires s.drainers == map[] && |answers| >= |Lowest(Claimable(s), limit)|
    ensures Lowest(Claimable(s), limit) != [] ==>
              Run(s, PassSteps(d, |Lowest(Claimable(s), limit)|, limit, answers)) == AfterPass(s, limit, answers)
    ensures Lowest(Claimable(s), limit) == [] ==> Do(s, Step.ClaimBatch(d, limit)) == AfterPass(s, limit, answers) == s
  {
    hide Lowest, Claimable, Run, LoopSteps;
    var ids := Lowest(Claimable(s), limit);
    assert s.stream + ids[..0] + [] == s.stream && s.dispatched + SetOf(ids[..0]) == s.dispatched;
    if ids != [] {
      RunConcat(s, [Step.ClaimBatch(d, limit)], LoopSteps(d, |ids|, answers));
      RunOne(s, Step.ClaimBatch(d, limit));
      assert Do(s, Step.ClaimBatch(d, limit)) == Midway(s, d, ids, 0);
      LoopReaches(s, d, ids, 0, answers);
    }
  }

  // ----- progress -----------------------------------------------------------

  function AllConfirmed(n: nat): seq<Publish> {
    seq(n, _ => Confirmed)
  }

  lemma {:induction false} AllSucceed(answers: seq<Publish>)
    requires forall i | 0 <= i < |answers| :: answers[i] == Confirmed
    ensures Successes(answers) == |answers|
  {
    if |answers| > 0 {
      AllSucceed(answers[1..]);
    }
  }

  /** A pass during which every publish is confirmed. */
  function HealthyPass(s: State, limit: nat): State {
    AfterPass(s, limit, AllConfirmed(|Lowest(Claimable(s), limit)|))
  }

  /** n such passes in a row, with nothing new appended. */
  function HealthyPasses(s: State, limit: nat, n: nat): State {
    if n == 0 then s else HealthyPass(HealthyPasses(s, limit, n - 1), limit)
  }

  lemma HealthyPassDispatches(s: State, limit: nat)
    requires s.drainers == map[]
    ensures var ids := Lowest(Claimable(s), limit);
            && HealthyPass(s, limit) == s.(dispatched := s.dispatched + SetOf(ids), stream := s.stream + ids)
            && |Claimable(HealthyPass(s, limit))| == (if |Claimable(s)| < limit then 0 else |Claimable(s)| - limit)
  {
    var ids := Lowest(Claimable(s), limit);
    HealthyPassIs(s, limit);
    assert Locked(s) == {};
    assert Claimable(HealthyPass(s, limit)) == Claimable(s) - SetOf(ids) by {
      hide Lowest;
      assert Locked(HealthyPass(s, limit)) == {};
    }
    assert SetOf(ids) <= Claimable(s);
    SetOfIncreasing(ids);
  }

  lemma HealthyPassIs(s: State, limit: nat)
    ensures var ids := Lowest(Claimable(s), limit);
            HealthyPass(s, limit) == s.(dispatched := s.dispatched + SetOf(ids), stream := s.stream + ids)
  {
    hide Lowest, Claimable, Successes;
    var ids := Lowest(Claimable(s), limit);
    AllSucceed(AllConfirmed(|ids|));
    assert ids[..|ids|] == ids && s.stream + ids + [] == s.stream + ids;
  }

  /** A healthy broker drains everything: after n passes of `limit` rows at most,
      all but the first n * limit pending rows are dispatched, so every row is once
      n * limit reaches the number pending. */
  lemma {:induction false} HealthyPassesDispatchEverything(s: State, limit: nat, n: nat)
    requires s.drainers == map[]
    ensures var s' := HealthyPasses(s, limit, n);
            && s'.drainers == map[] && s'.events == s.events
            && |Claimable(s')| == (if |Claimable(s)| < n * limit then 0 else |Claimable(s)| - n * limit)
            && (n * limit >= |Claimable(s)| ==> s.events.Keys <= s'.dispatched)
  {
    hide Lowest, HealthyPass, Claimable;
    if n > 0 {
      HealthyPassesDispatchEverything(s, limit, n - 1);
      HealthyPassDispatches(HealthyPasses(s, limit, n - 1), limit);
      assert n * limit == (n - 1) * limit + limit;
    }
    NothingClaimable(HealthyPasses(s, limit, n));
  }

  lemma NothingClaimable(s: State)
    requires s.drainers == map[]
    ensures |Claimable(s)| == 0 ==> s.events.Keys <= s.dispatched
  {
    assert Locked(s) == {};
    assert |Claimable(s)| == 0 ==> Claimable(s) == {};
    assert forall id | id in s.events.Keys :: id in s.dispatched || id in Claimable(s);
  }
}
