/** The sweep itself: batches inside tables inside a runtime cap. */
module ArchivalWorker {
  import opened Common
  import opened Archival
  import opened ArchivalRuns

  function RowSet(rows: seq<Row>): (s: set<Row>)
    ensures forall r :: r in s <==> r in rows
  {
    set r | r in rows
  }

  lemma {:induction false} RowSetSize(rows: seq<Row>)
    requires forall i, j | 0 <= i < j < |rows| :: rows[i].id < rows[j].id
    ensures |RowSet(rows)| == |rows|
  {
    if |rows| > 0 {
      var n := |rows| - 1;
      RowSetSize(rows[..n]);
      assert forall r | r in rows[..n] :: r.id < rows[n].id;
      assert RowSet(rows) == RowSet(rows[..n]) + {rows[n]};
    }
  }

  function Total(moved: seq<nat>): nat {
    if |moved| == 0 then 0 else Total(moved[..|moved| - 1]) + moved[|moved| - 1]
  }

  /** How many of a table's prior-year rows one run took out of the hot database. */
  ghost function Taken(before: set<Row>, after: set<Row>, k: nat, cutoff: int): int
    requires k < |TABLES|
  {
    |Prior(before, TABLES[k], cutoff)| - |Prior(after, TABLES[k], cutoff)|
  }

  /** No sweep under way. */
  ghost function Idle(hot: set<Row>, archive: set<Row>): State {
    State(hot, archive, map[])
  }

  /** One sweep under way, at table k; past the last one it is over. */
  ghost function At(hot: set<Row>, archive: set<Row>, k: nat): State {
    State(hot, archive, if k < |TABLES| then map[0 := Choosing(k)] else map[])
  }

  lemma SweepStarts(hot: set<Row>, archive: set<Row>, cutoff: int, limit: nat)
    ensures Sweeping([Start(0)]) && Run(Idle(hot, archive), [Start(0)], cutoff, limit) == At(hot, archive, 0)
  {
    RunOne(Idle(hot, archive), Start(0), cutoff, limit);
  }

  lemma SweepStops(hot: set<Row>, archive: set<Row>, k: nat, cutoff: int, limit: nat)
    ensures Run(At(hot, archive, k), [Stop(0)], cutoff, limit) == Idle(hot, archive)
  {
    RunOne(At(hot, archive, k), Stop(0), cutoff, limit);
    assert At(hot, archive, k).sweeps - {0} == map[];
  }

  lemma NoSteps(hot: set<Row>, archive: set<Row>, k: nat, cutoff: int, limit: nat)
    ensures Sweeping([]) && Run(At(hot, archive, k), [], cutoff, limit) == At(hot, archive, k)
  {
  }

  lemma TraceGrows(start: State, hot: set<Row>, archive: set<Row>, k: nat, trace: seq<Step>, cutoff: int, limit: nat)
    requires WellKeyed(hot + archive) && k < |TABLES| && Batch(hot, TABLES[k], cutoff, limit) != {}
    requires Sweeping(trace) && Run(start, trace, cutoff, limit) == At(hot, archive, k)
    ensures var rows := Batch(hot, TABLES[k], cutoff, limit);
            Sweeping(trace + BatchSteps(0)) && Run(start, trace + BatchSteps(0), cutoff, limit) == At(hot - rows, archive + rows, k)
  {
    BatchIsRun(At(hot, archive, k), 0, cutoff, limit);
    RunConcat(start, trace, BatchSteps(0), cutoff, limit);
  }

  lemma TableIsDone(hot: set<Row>, archive: set<Row>, k: nat, cutoff: int, limit: nat)
    requires k < |TABLES| && Batch(hot, TABLES[k], cutoff, limit) == {}
    ensures Run(At(hot, archive, k), [Choose(0)], cutoff, limit) == At(hot, archive, k + 1)
  {
    RunOne(At(hot, archive, k), Choose(0), cutoff, limit);
    assert map[0 := Choosing(k)] - {0} == map[];
    assert map[0 := Choosing(k)][0 := Choosing(k + 1)] == map[0 := Choosing(k + 1)];
  }

  /** The trace with the steps of one more table, and the move to the next if it is done. */
  lemma WithTable(start: State, mid: State, hot: set<Row>, archive: set<Row>, k: nat, trace: seq<Step>, part: seq<Step>,
                  done: bool, cutoff: int, limit: nat) returns (longer: seq<Step>)
    requires k < |TABLES| && Sweeping(trace) && Sweeping(part)
    requires Run(start, trace, cutoff, limit) == mid && Run(mid, part, cutoff, limit) == At(hot, archive, k)
    requires done ==> Batch(hot, TABLES[k], cutoff, limit) == {}
    ensures Sweeping(longer) && Run(start, longer, cutoff, limit) == At(hot, archive, if done then k + 1 else k)
  {
    hide Run, Batch, At;
    RunConcat(start, trace, part, cutoff, limit);
    longer := trace + part;
    if done {
      TableIsDone(hot, archive, k, cutoff, limit);
      RunConcat(start, longer, [Choose(0)], cutoff, limit);
      longer := longer + [Choose(0)];
    }
  }

  lemma WithStop(start: State, hot: set<Row>, archive: set<Row>, k: nat, trace: seq<Step>, cutoff: int, limit: nat) returns (longer: seq<Step>)
    requires Sweeping(trace) && Run(start, trace, cutoff, limit) == At(hot, archive, k)
    ensures Sweeping(longer) && Run(start, longer, cutoff, limit) == Idle(hot, archive)
  {
    hide Run, At, Idle;
    SweepStops(hot, archive, k, cutoff, limit);
    RunConcat(start, trace, [Stop(0)], cutoff, limit);
    longer := trace + [Stop(0)];
  }

  lemma PickedIsBatch(hot: set<Row>, t: Table, cutoff: int, limit: nat, ids: seq<nat>, rows: seq<Row>)
    requires WellKeyed(hot) && ids == Lowest(Ids(Prior(hot, t, cutoff)), limit) && |rows| == |ids|
    requires forall j | 0 <= j < |ids| :: rows[j] in Prior(hot, t, cutoff) && rows[j].id == ids[j]
    ensures RowSet(rows) == Batch(hot, t, cutoff, limit) && |rows| == |Batch(hot, t, cutoff, limit)| <= limit
  {
    hide Lowest;
    forall r | r in Batch(hot, t, cutoff, limit)
      ensures r in rows
    {
      var j :| 0 <= j < |ids| && ids[j] == r.id;
      assert rows[j] == r;
    }
    assert forall j | 0 <= j < |ids| :: ids[j] in ids;
    RowSetSize(rows);
  }

  lemma PickedAreLowest(hot: set<Row>, t: Table, cutoff: int, limit: nat, ids: seq<nat>, rows: seq<Row>)
    requires ids == Lowest(Ids(Prior(hot, t, cutoff)), limit) && |rows| == |ids| && RowSet(rows) == Batch(hot, t, cutoff, limit)
    requires forall j | 0 <= j < |ids| :: rows[j] in Prior(hot, t, cutoff) && rows[j].id == ids[j]
    ensures forall r, x | r in hot && r.table == t && r.ts < cutoff && r !in rows && x in rows :: x.id < r.id
    ensures |rows| < limit ==> forall r | r in hot && r.table == t && r.ts < cutoff :: r in rows
  {
    hide Lowest;
    forall r | r in hot && r.table == t && r.ts < cutoff && r !in rows
      ensures |rows| == limit && forall x | x in rows :: x.id < r.id
    {
      assert r in Prior(hot, t, cutoff);
      assert r.id in Ids(Prior(hot, t, cutoff)) && r !in RowSet(rows);
      forall x | x in rows
        ensures x.id < r.id
      {
        assert x in RowSet(rows);
      }
    }
  }

  class Clusters {
    var hot: set<Row>
    var archive: set<Row>

    constructor (hot: set<Row>, archive: set<Row>)
      ensures this.hot == hot && this.archive == archive
    {
      this.hot, this.archive := hot, archive;
    }

    /** The batch query: prior-year rows of a table, in id order, at most `limit`, and
        those with the lowest ids. */
    method SelectBatch(t: Table, cutoff: int, limit: nat) returns (rows: seq<Row>)
      requires WellKeyed(hot)
      ensures RowSet(rows) == Batch(hot, t, cutoff, limit)
      ensures |rows| == |Batch(hot, t, cutoff, limit)| <= limit
      ensures forall r | r in rows :: r in hot && r.table == t && r.ts < cutoff
      ensures forall i, j | 0 <= i < j < |rows| :: rows[i].id < rows[j].id
      ensures forall r, x | r in hot && r.table == t && r.ts < cutoff && r !in rows && x in rows :: x.id < r.id
      ensures |rows| < limit ==> forall r | r in hot && r.table == t && r.ts < cutoff :: r in rows
    {
      var prior := Prior(hot, t, cutoff);
      var ids := Lowest(Ids(prior), limit);
      hide Lowest;
      rows := [];
      for i := 0 to |ids|
        invariant |rows| == i
        invariant forall j | 0 <= j < i :: rows[j] in prior && rows[j].id == ids[j]
      {
        assert ids[i] in ids;
        var r :| r in prior && r.id == ids[i];
        rows := rows + [r];
      }
      PickedIsBatch(hot, t, cutoff, limit, ids, rows);
      PickedAreLowest(hot, t, cutoff, limit, ids, rows);
    }

    /** A multi-row insert that skips conflicting rows one by one. */
    method InsertIgnoring(rows: seq<Row>)
      requires WellKeyed(archive + RowSet(rows))
      modifies `archive
      ensures archive == old(archive) + RowSet(rows)
    {
      for i := 0 to |rows|
        invariant archive == old(archive) + RowSet(rows[..i])
      {
        assert rows[..i + 1] == rows[..i] + [rows[i]];
        assert RowSet(rows[..i + 1]) == RowSet(rows[..i]) + {rows[i]};
        assert forall a | a in archive :: a in old(archive) + RowSet(rows);
        if !exists a | a in archive :: Conflict(a, rows[i]) {
          archive := archive + {rows[i]};
        }
      }
      assert rows[..|rows|] == rows;
    }

    method DeleteWhereIn(t: Table, ids: set<nat>)
      modifies `hot
      ensures hot == DeleteIds(old(hot), t, ids)
    {
      hot := DeleteIds(hot, t, ids);
    }

    /** The prior-year rows of one table, batch by batch, until none is left or the
        runtime cap is reached. `clock(n)` is the n-th reading of the clock, and `trace`
        the steps this is in the machine. */
    method SweepTable(k: nat, cutoff: int, batchSize: nat, maxRuntime: int, clock: nat -> int, startedAt: int, tick: nat)
      returns (moved: nat, timedOut: bool, nextTick: nat, ghost trace: seq<Step>)
      requires k < |TABLES| && WellKeyed(hot + archive)
      modifies this
      ensures hot + archive == old(hot + archive)
      ensures SettledHot(hot, cutoff) == SettledHot(old(hot), cutoff)
      ensures SettledArchive(hot, archive, cutoff) == SettledArchive(old(hot), old(archive), cutoff)
      ensures forall r | r in old(hot) && r.table != TABLES[k] :: r in hot
      ensures hot <= old(hot)
      ensures moved == Taken(old(hot), hot, k, cutoff)
      ensures !timedOut && batchSize > 0 ==> Prior(hot, TABLES[k], cutoff) == {}
      ensures batchSize == 0 ==> hot == old(hot) && archive == old(archive)
      ensures clock(tick) - startedAt >= maxRuntime ==> timedOut && hot == old(hot) && archive == old(archive)
      ensures Sweeping(trace) && Run(At(old(hot), old(archive), k), trace, cutoff, batchSize) == At(hot, archive, k)
      ensures !timedOut ==> Batch(hot, TABLES[k], cutoff, batchSize) == {}
    {
      hide Run, Batch, BatchSteps, At, Sweeping;
      NoSteps(hot, archive, k, cutoff, batchSize);
      var t := TABLES[k];
      moved, timedOut, nextTick, trace := 0, false, tick, [];
      while true
        invariant hot + archive == old(hot + archive) && hot <= old(hot)
        invariant SettledHot(hot, cutoff) == SettledHot(old(hot), cutoff)
        invariant SettledArchive(hot, archive, cutoff) == SettledArchive(old(hot), old(archive), cutoff)
        invariant forall r | r in old(hot) && r.table != t :: r in hot
        invariant moved == Taken(old(hot), hot, k, cutoff)
        invariant batchSize == 0 ==> hot == old(hot) && archive == old(archive)
        invariant !timedOut && (nextTick == tick ==> hot == old(hot) && archive == old(archive))
        invariant nextTick > tick ==> clock(tick) - startedAt < maxRuntime
        invariant nextTick >= tick
        invariant Sweeping(trace) && Run(At(old(hot), old(archive), k), trace, cutoff, batchSize) == At(hot, archive, k)
        decreases |Prior(hot, t, cutoff)|
      {
        var now := clock(nextTick);
        nextTick := nextTick + 1;
        if now - startedAt >= maxRuntime {
          timedOut := true;
          return;
        }
        assert forall r | r in hot :: r in hot + archive;
        var rows := SelectBatch(t, cutoff, batchSize);
        if |rows| == 0 {
          if batchSize > 0 {
            BatchIsEmptyWhenDone(hot, t, cutoff, batchSize);
          }
          return;
        }
        assert rows[0] in RowSet(rows);
        TraceGrows(At(old(hot), old(archive), k), hot, archive, k, trace, cutoff, batchSize);
        trace := trace + BatchSteps(0);
        MoveBatch(t, rows, cutoff, batchSize);
        moved := moved + |rows|;
      }
    }

    /** Copy, commit, then delete. */
    method MoveBatch(t: Table, rows: seq<Row>, cutoff: int, batchSize: nat)
      requires WellKeyed(hot + archive) && |rows| > 0
      requires RowSet(rows) == Batch(hot, t, cutoff, batchSize) && |rows| == |Batch(hot, t, cutoff, batchSize)|
      modifies this
      ensures hot == old(hot) - RowSet(rows) && archive == old(archive) + RowSet(rows)
      ensures hot + archive == old(hot + archive)
      ensures SettledHot(hot, cutoff) == SettledHot(old(hot), cutoff)
      ensures SettledArchive(hot, archive, cutoff) == SettledArchive(old(hot), old(archive), cutoff)
      ensures |Prior(hot, t, cutoff)| == |Prior(old(hot), t, cutoff)| - |rows|
      ensures batchSize > 0
    {
      hide Batch;
      BatchIsPrior(hot, t, cutoff, batchSize);
      assert RowSet(rows) <= hot;
      assert archive + RowSet(rows) <= hot + archive;
      InsertIgnoring(rows);
      DeleteRemovesRows(hot, old(hot + archive), t, RowSet(rows));
      DeleteWhereIn(t, Ids(RowSet(rows)));
      assert Prior(hot, t, cutoff) == Prior(old(hot), t, cutoff) - RowSet(rows);
      if batchSize == 0 {
        EmptyBatch(old(hot), t, cutoff);
      }
    }

    /** One region's run, table by table. */
    method ArchiveRegion(cutoff: int, batchSize: nat, maxRuntime: int, clock: nat -> int)
      returns (moved: seq<nat>, totalMoved: nat, timedOut: bool, ghost trace: seq<Step>)
      requires WellKeyed(hot + archive)
      modifies this
      ensures hot + archive == old(hot + archive)
      ensures SettledHot(hot, cutoff) == SettledHot(old(hot), cutoff)
      ensures SettledArchive(hot, archive, cutoff) == SettledArchive(old(hot), old(archive), cutoff)
      ensures |moved| <= |TABLES| && totalMoved == Total(moved)
      ensures forall k | 0 <= k < |moved| :: moved[k] == Taken(old(hot), hot, k, cutoff)
      ensures !timedOut ==> |moved| == |TABLES|
      ensures !timedOut && batchSize > 0 ==> hot == SettledHot(old(hot), cutoff) && archive == SettledArchive(old(hot), old(archive), cutoff)
      ensures batchSize > 0 ==> forall k | 0 <= k < |moved| - 1 :: Prior(hot, TABLES[k], cutoff) == {}
      ensures forall r | r in old(hot) && r !in hot :: r.table in TABLES[..|moved|] && r.ts < cutoff
      ensures batchSize == 0 ==> hot == old(hot) && archive == old(archive)
      ensures maxRuntime <= 0 && clock(1) >= clock(0) ==> timedOut && hot == old(hot) && archive == old(archive)
      ensures Sweeping(trace) && Run(Idle(old(hot), old(archive)), trace, cutoff, batchSize) == Idle(hot, archive)
    {
      hide Prior, SettledHot, SettledArchive, WellKeyed, AllPrior, Run, Batch, At, Idle, Sweeping;
      var startedAt := clock(0);
      var tick := 1;
      moved, totalMoved, timedOut, trace := [], 0, false, [Start(0)];
      SweepStarts(hot, archive, cutoff, batchSize);
      var k := 0;
      while k < |TABLES| && !timedOut
        invariant 0 <= k <= |TABLES| && |moved| == k && totalMoved == Total(moved)
        invariant hot + archive == old(hot + archive) && hot <= old(hot)
        invariant SettledHot(hot, cutoff) == SettledHot(old(hot), cutoff)
        invariant SettledArchive(hot, archive, cutoff) == SettledArchive(old(hot), old(archive), cutoff)
        invariant forall j | 0 <= j < k :: moved[j] == Taken(old(hot), hot, j, cutoff)
        invariant batchSize > 0 ==> forall j | 0 <= j < (if timedOut then k - 1 else k) :: Prior(hot, TABLES[j], cutoff) == {}
        invariant forall r | r in old(hot) && r !in hot :: r.table in TABLES[..k]
        invariant batchSize == 0 ==> hot == old(hot) && archive == old(archive)
        invariant k == 0 ==> tick == 1 && hot == old(hot) && archive == old(archive) && !timedOut
        invariant k > 0 && maxRuntime <= 0 && clock(1) >= clock(0) ==> timedOut && hot == old(hot) && archive == old(archive)
        invariant Sweeping(trace) && Run(Idle(old(hot), old(archive)), trace, cutoff, batchSize) == At(hot, archive, if timedOut then k - 1 else k)
        decreases |TABLES| - k
      {
        ghost var before, files := hot, archive;
        var n;
        ghost var part;
        n, timedOut, tick, part := SweepTable(k, cutoff, batchSize, maxRuntime, clock, startedAt, tick);
        trace := WithTable(Idle(old(hot), old(archive)), At(before, files, k), hot, archive, k, trace, part, !timedOut, cutoff, batchSize);
        OtherTables(before, hot, k, cutoff);
        UntouchedTable(old(hot), before, k, cutoff);
        LostRows(old(hot), before, hot, k);
        moved := moved + [n];
        totalMoved := totalMoved + n;
        k := k + 1;
      }
      trace := WithStop(Idle(old(hot), old(archive)), hot, archive, if timedOut then k - 1 else k, trace, cutoff, batchSize);
      SettledKeepsCurrent(old(hot), hot, cutoff);
      if !timedOut && batchSize > 0 {
        NoneLeft(hot, cutoff);
        NothingToSettle(hot, archive, cutoff);
      }
    }
  }

  /** Sweeping one table leaves the backlog of the others alone. */
  lemma OtherTables(before: set<Row>, after: set<Row>, k: nat, cutoff: int)
    requires k < |TABLES| && after <= before && forall r | r in before && r.table != TABLES[k] :: r in after
    ensures forall j | 0 <= j < |TABLES| && j != k :: Prior(after, TABLES[j], cutoff) == Prior(before, TABLES[j], cutoff)
  {
    forall j | 0 <= j < |TABLES| && j != k
      ensures Prior(after, TABLES[j], cutoff) == Prior(before, TABLES[j], cutoff)
    {
      assert TABLES[j] != TABLES[k];
    }
  }

  /** A table is as it was until its turn comes. */
  lemma UntouchedTable(start: set<Row>, before: set<Row>, k: nat, cutoff: int)
    requires k < |TABLES| && before <= start && forall r | r in start && r !in before :: r.table in TABLES[..k]
    ensures Prior(before, TABLES[k], cutoff) == Prior(start, TABLES[k], cutoff)
  {
    assert TABLES[k] !in TABLES[..k];
  }

  lemma LostRows(start: set<Row>, before: set<Row>, after: set<Row>, k: nat)
    requires k < |TABLES| && forall r | r in start && r !in before :: r.table in TABLES[..k]
    requires forall r | r in before && r.table != TABLES[k] :: r in after
    ensures forall r | r in start && r !in after :: r.table in TABLES[..k + 1]
  {
    assert TABLES[..k + 1] == TABLES[..k] + [TABLES[k]];
  }

  lemma SettledKeepsCurrent(start: set<Row>, hot: set<Row>, cutoff: int)
    requires SettledHot(hot, cutoff) == SettledHot(start, cutoff)
    ensures forall r | r in start && r !in hot :: r.ts < cutoff
  {
    assert forall r | r in start && r.ts >= cutoff :: r in SettledHot(start, cutoff);
  }

  lemma NothingToSettle(hot: set<Row>, archive: set<Row>, cutoff: int)
    requires AllPrior(hot, cutoff) == {}
    ensures SettledHot(hot, cutoff) == hot && SettledArchive(hot, archive, cutoff) == archive
  {
  }

  lemma EmptyBatch(hot: set<Row>, t: Table, cutoff: int)
    ensures Batch(hot, t, cutoff, 0) == {}
  {
  }
}
