/** Runs of the archival machine that come to an end, and where all of them end. */
module ArchivalRuns {
  import opened Common
  import opened Archival

  lemma {:induction false} RunConcat(s: State, a: seq<Step>, b: seq<Step>, cutoff: int, limit: nat)
    ensures Run(s, a + b, cutoff, limit) == Run(Run(s, a, cutoff, limit), b, cutoff, limit)
  {
    hide Do;
    if |b| == 0 {
      assert a + b == a;
    } else {
      RunConcat(s, a, b[..|b| - 1], cutoff, limit);
      assert (a + b)[..|a + b| - 1] == a + b[..|b| - 1];
    }
  }

  lemma RunOne(s: State, step: Step, cutoff: int, limit: nat)
    ensures Run(s, [step], cutoff, limit) == Do(s, step, cutoff, limit)
  {
    hide Do;
    assert [step][..0] == [];
  }

  /** The steps of one sweep that moves batches: it places nothing. */
  predicate Sweeping(steps: seq<Step>) {
    forall step | step in steps :: !step.Place?
  }

  lemma {:induction false} SweepingPlacesNothing(s: State, steps: seq<Step>, cutoff: int, limit: nat)
    requires Sweeping(steps)
    ensures Placed(s, steps, cutoff, limit) == {}
  {
    if |steps| > 0 {
      assert steps[|steps| - 1] in steps;
      SweepingPlacesNothing(s, steps[..|steps| - 1], cutoff, limit);
    }
  }

  function BatchSteps(w: nat): seq<Step> {
    [Choose(w), Copy(w)] + [Delete(w)]
  }

  lemma RunOfBatch(s: State, w: nat, cutoff: int, limit: nat)
    ensures Run(s, BatchSteps(w), cutoff, limit)
         == Do(Do(Do(s, Choose(w), cutoff, limit), Copy(w), cutoff, limit), Delete(w), cutoff, limit)
  {
    hide Do;
    assert [Choose(w), Copy(w)] == [Choose(w)] + [Copy(w)];
    RunOne(s, Choose(w), cutoff, limit);
    RunOne(Do(s, Choose(w), cutoff, limit), Copy(w), cutoff, limit);
    RunOne(Do(Do(s, Choose(w), cutoff, limit), Copy(w), cutoff, limit), Delete(w), cutoff, limit);
    RunConcat(s, [Choose(w)], [Copy(w)], cutoff, limit);
    RunConcat(s, [Choose(w), Copy(w)], [Delete(w)], cutoff, limit);
  }

  lemma CopyTurn(s: State, w: nat, k: nat, rows: set<Row>, cutoff: int, limit: nat)
    requires WellKeyed(s.archive + rows)
    ensures Do(s.(sweeps := s.sweeps[w := Copying(k, rows)]), Copy(w), cutoff, limit)
         == s.(archive := s.archive + rows, sweeps := s.sweeps[w := Deleting(k, rows)])
  {
    CopyKeepsAll(s.archive, rows);
    hide CopyInto;
    assert s.sweeps[w := Copying(k, rows)][w := Deleting(k, rows)] == s.sweeps[w := Deleting(k, rows)];
  }

  lemma DeleteTurn(s: State, w: nat, k: nat, rows: set<Row>, cutoff: int, limit: nat)
    requires WellKeyed(s.hot + s.archive) && rows <= s.hot && w in s.sweeps && s.sweeps[w] == Choosing(k) && k < |TABLES|
    requires forall r | r in rows :: r.table == TABLES[k]
    ensures Do(s.(sweeps := s.sweeps[w := Deleting(k, rows)]), Delete(w), cutoff, limit) == s.(hot := s.hot - rows)
  {
    DeleteRemovesRows(s.hot, s.hot + s.archive, TABLES[k], rows);
    hide DeleteIds;
    assert s.sweeps[w := Deleting(k, rows)][w := Choosing(k)] == s.sweeps;
  }

  /** One turn of the batch loop: the batch leaves hot and is in the archive. */
  lemma BatchIsRun(s: State, w: nat, cutoff: int, limit: nat)
    requires WellKeyed(s.hot + s.archive) && w in s.sweeps && s.sweeps[w].Choosing? && s.sweeps[w].k < |TABLES|
    requires Batch(s.hot, TABLES[s.sweeps[w].k], cutoff, limit) != {}
    ensures var rows := Batch(s.hot, TABLES[s.sweeps[w].k], cutoff, limit);
            Run(s, BatchSteps(w), cutoff, limit) == s.(hot := s.hot - rows, archive := s.archive + rows)
  {
    var k := s.sweeps[w].k;
    var rows := Batch(s.hot, TABLES[k], cutoff, limit);
    BatchIsPrior(s.hot, TABLES[k], cutoff, limit);
    hide Batch, Run;
    assert Do(s, Choose(w), cutoff, limit) == s.(sweeps := s.sweeps[w := Copying(k, rows)]);
    assert s.archive + rows <= s.hot + s.archive && s.hot + (s.archive + rows) == s.hot + s.archive;
    hide Do;
    CopyTurn(s, w, k, rows, cutoff, limit);
    DeleteTurn(s.(archive := s.archive + rows), w, k, rows, cutoff, limit);
    RunOfBatch(s, w, cutoff, limit);
  }

  /** Once every table is swept, no prior-year row is left. */
  lemma NoneLeft(hot: set<Row>, cutoff: int)
    requires forall k | 0 <= k < |TABLES| :: Prior(hot, TABLES[k], cutoff) == {}
    ensures AllPrior(hot, cutoff) == {}
  {
    forall r | r in hot
      ensures r.ts >= cutoff
    {
      var k := match r.table
               case AgentEarnings => 0
               case WebhookEvents => 1
               case PaymentSessions => 2
               case Transactions => 3
               case OrderItems => 4
               case Orders => 5;
      assert r !in Prior(hot, TABLES[k], cutoff);
    }
  }

  lemma {:induction false} RunKeepsInv(s: State, steps: seq<Step>, cutoff: int, limit: nat)
    requires Inv(s, cutoff) && limit > 0
    ensures Inv(Run(s, steps, cutoff, limit), cutoff)
  {
    hide Do, Inv;
    if |steps| > 0 {
      RunKeepsInv(s, steps[..|steps| - 1], cutoff, limit);
      DoKeeps(Run(s, steps[..|steps| - 1], cutoff, limit), steps[|steps| - 1], cutoff, limit);
    }
  }

  lemma BatchShrinksBacklog(hot: set<Row>, t: Table, cutoff: int, limit: nat)
    requires Batch(hot, t, cutoff, limit) != {}
    ensures |Prior(hot - Batch(hot, t, cutoff, limit), t, cutoff)| < |Prior(hot, t, cutoff)|
  {
    var rows := Batch(hot, t, cutoff, limit);
    BatchIsPrior(hot, t, cutoff, limit);
    hide Batch;
    assert Prior(hot - rows, t, cutoff) == Prior(hot, t, cutoff) - rows;
    assert Prior(hot, t, cutoff) - rows < Prior(hot, t, cutoff);
    Subset(Prior(hot, t, cutoff) - rows, Prior(hot, t, cutoff));
  }

  lemma Subset(a: set<Row>, b: set<Row>)
    requires a < b
    ensures |a| < |b|
  {
    assert |b| == |a| + |b - a| by {
      assert b == a + (b - a) && a !! (b - a);
    }
  }

  lemma BatchTurn(s: State, w: nat, cutoff: int, limit: nat)
    requires Inv(s, cutoff) && limit > 0 && w in s.sweeps && s.sweeps[w].Choosing?
    requires s.sweeps[w].k < |TABLES| && Batch(s.hot, TABLES[s.sweeps[w].k], cutoff, limit) != {}
    ensures var k, t := s.sweeps[w].k, Run(s, BatchSteps(w), cutoff, limit);
            && Inv(t, cutoff) && t.sweeps == s.sweeps
            && |Prior(t.hot, TABLES[k], cutoff)| < |Prior(s.hot, TABLES[k], cutoff)|
  {
    hide Batch, SweepOk, ItemsHaveOrders;
    BatchIsRun(s, w, cutoff, limit);
    RunKeepsInv(s, BatchSteps(w), cutoff, limit);
    BatchShrinksBacklog(s.hot, TABLES[s.sweeps[w].k], cutoff, limit);
  }

  lemma NextTable(s: State, w: nat, cutoff: int, limit: nat)
    requires Inv(s, cutoff) && limit > 0 && w in s.sweeps && s.sweeps[w].Choosing?
    requires s.sweeps[w].k < |TABLES| && Batch(s.hot, TABLES[s.sweeps[w].k], cutoff, limit) == {}
    ensures s.sweeps[w].k + 1 < |TABLES| ==>
              var t := Run(s, [Choose(w)], cutoff, limit);
              Inv(t, cutoff) && t == s.(sweeps := s.sweeps[w := Choosing(s.sweeps[w].k + 1)])
    ensures s.sweeps[w].k + 1 == |TABLES| ==> AllPrior(s.hot, cutoff) == {}
  {
    assert SweepOk(s, s.sweeps[w], cutoff);
    BatchIsEmptyWhenDone(s.hot, TABLES[s.sweeps[w].k], cutoff, limit);
    hide Batch, Inv;
    RunOne(s, Choose(w), cutoff, limit);
    RunKeepsInv(s, [Choose(w)], cutoff, limit);
    if s.sweeps[w].k + 1 == |TABLES| {
      NoneLeft(s.hot, cutoff);
    }
  }

  /** Left alone, a sweep clears every table. */
  lemma SweepCompletes(s: State, w: nat, cutoff: int, limit: nat) returns (steps: seq<Step>)
    requires Inv(s, cutoff) && limit > 0 && w in s.sweeps && s.sweeps[w].Choosing? && s.sweeps[w].k < |TABLES|
    ensures Sweeping(steps) && AllPrior(Run(s, steps, cutoff, limit).hot, cutoff) == {}
    decreases |TABLES| - s.sweeps[w].k, |Prior(s.hot, TABLES[s.sweeps[w].k], cutoff)|
  {
    hide Batch, Inv, WellKeyed, AllPrior, Prior, Run;
    if Batch(s.hot, TABLES[s.sweeps[w].k], cutoff, limit) != {} {
      BatchTurn(s, w, cutoff, limit);
      var rest := SweepCompletes(Run(s, BatchSteps(w), cutoff, limit), w, cutoff, limit);
      steps := BatchSteps(w) + rest;
      RunConcat(s, BatchSteps(w), rest, cutoff, limit);
    } else {
      NextTable(s, w, cutoff, limit);
      if s.sweeps[w].k + 1 < |TABLES| {
        var rest := SweepCompletes(Run(s, [Choose(w)], cutoff, limit), w, cutoff, limit);
        steps := [Choose(w)] + rest;
        RunConcat(s, [Choose(w)], rest, cutoff, limit);
      } else {
        steps := [];
        RunOfNothing(s, cutoff, limit);
      }
    }
  }

  lemma RunOfNothing(s: State, cutoff: int, limit: nat)
    ensures Run(s, [], cutoff, limit) == s
  {
  }

  /** Wherever the sweeps stand, one more run can complete. */
  lemma CompletingRun(s: State, cutoff: int, limit: nat) returns (more: seq<Step>)
    requires Inv(s, cutoff) && limit > 0
    ensures Sweeping(more) && AllPrior(Run(s, more, cutoff, limit).hot, cutoff) == {}
  {
    var first := [Stop(0)] + [Start(0)];
    RunConcat(s, [Stop(0)], [Start(0)], cutoff, limit);
    RunOne(s, Stop(0), cutoff, limit);
    RunOne(s.(sweeps := s.sweeps - {0}), Start(0), cutoff, limit);
    RunKeepsInv(s, first, cutoff, limit);
    var rest := SweepCompletes(Run(s, first, cutoff, limit), 0, cutoff, limit);
    more := first + rest;
    RunConcat(s, first, rest, cutoff, limit);
  }

  /** A sweep that places nothing keeps the state where all of them end. */
  lemma {:induction false} SweepingKeepsEnd(s: State, steps: seq<Step>, cutoff: int, limit: nat)
    requires Inv(s, cutoff) && limit > 0 && Sweeping(steps)
    ensures SettledHot(Run(s, steps, cutoff, limit).hot, cutoff) == SettledHot(s.hot, cutoff)
  {
    hide Do, Inv, SettledHot;
    if |steps| > 0 {
      var n := |steps| - 1;
      assert steps[n] in steps;
      SweepingKeepsEnd(s, steps[..n], cutoff, limit);
      RunKeepsInv(s, steps[..n], cutoff, limit);
      var mid := Run(s, steps[..n], cutoff, limit);
      DoKeeps(mid, steps[n], cutoff, limit);
      assert mid.hot + {} == mid.hot;
    }
  }

  lemma EndsSettled(s: State, more: seq<Step>, cutoff: int, limit: nat)
    requires Inv(s, cutoff) && limit > 0 && Sweeping(more) && AllPrior(Run(s, more, cutoff, limit).hot, cutoff) == {}
    ensures Run(s, more, cutoff, limit).hot == SettledHot(s.hot, cutoff)
  {
    SweepingKeepsEnd(s, more, cutoff, limit);
    assert SettledHot(Run(s, more, cutoff, limit).hot, cutoff) == Run(s, more, cutoff, limit).hot;
  }

  lemma {:induction false} PlacedConcat(s: State, a: seq<Step>, b: seq<Step>, cutoff: int, limit: nat)
    ensures Placed(s, a + b, cutoff, limit) == Placed(s, a, cutoff, limit) + Placed(Run(s, a, cutoff, limit), b, cutoff, limit)
  {
    hide Do, PlacedBy;
    if |b| == 0 {
      assert a + b == a;
    } else {
      var n := |b| - 1;
      PlacedConcat(s, a, b[..n], cutoff, limit);
      RunConcat(s, a, b[..n], cutoff, limit);
      assert (a + b)[..|a + b| - 1] == a + b[..n] && (a + b)[|a + b| - 1] == b[n];
    }
  }

  /** All runs that complete end in one state: after any sweeps, crashes, restarts and
      placements, once no prior-year row is hot, hot holds exactly the rows from the
      cutoff on and the archive its old rows plus all the others. */
  lemma CompletedRunsAgree(s: State, steps: seq<Step>, more: seq<Step>, cutoff: int, limit: nat)
    requires Fit(s) && limit > 0 && Sweeping(more)
    requires AllPrior(Run(s, steps + more, cutoff, limit).hot, cutoff) == {}
    ensures var placed := Placed(s, steps, cutoff, limit);
            var end := Run(s, steps + more, cutoff, limit);
            end.hot == SettledHot(s.hot + placed, cutoff) && end.archive == SettledArchive(s.hot + placed, s.archive, cutoff)
  {
    SweepsLoseNothing(s, steps + more, cutoff, limit);
    PlacedConcat(s, steps, more, cutoff, limit);
    SweepingPlacesNothing(Run(s, steps, cutoff, limit), more, cutoff, limit);
    var end := Run(s, steps + more, cutoff, limit);
    assert SettledHot(end.hot, cutoff) == end.hot && SettledArchive(end.hot, end.archive, cutoff) == end.archive;
  }

  /** And from wherever a run was interrupted, it can be completed to that state. */
  lemma InterruptedRunsComplete(s: State, steps: seq<Step>, cutoff: int, limit: nat) returns (more: seq<Step>)
    requires Fit(s) && limit > 0
    ensures Sweeping(more)
    ensures var placed := Placed(s, steps, cutoff, limit);
            var end := Run(s, steps + more, cutoff, limit);
            end.hot == SettledHot(s.hot + placed, cutoff) && end.archive == SettledArchive(s.hot + placed, s.archive, cutoff)
  {
    SweepsLoseNothing(s, steps, cutoff, limit);
    more := CompletingRun(Run(s, steps, cutoff, limit), cutoff, limit);
    RunConcat(s, steps, more, cutoff, limit);
    CompletedRunsAgree(s, steps, more, cutoff, limit);
  }
}
