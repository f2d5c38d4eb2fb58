/**
 Cold archival between two databases that share no transaction. Any number of
 sweeps run, interleave, crash between copy and delete, and start again; no step
 relies on the lock.
 */
module Archival {
  import opened Common

  datatype Table = AgentEarnings | WebhookEvents | PaymentSessions | Transactions | OrderItems | Orders

  /** Children before parents. */
  const TABLES: seq<Table> := [AgentEarnings, WebhookEvents, PaymentSessions, Transactions, OrderItems, Orders]

  /** A row: its table, id and creation timestamp, the order it names (a webhook event
      or a payout names none), the value of the table's other unique column if it has
      one, and the rest. */
  datatype Row = Row(table: Table, id: nat, ts: int, order: Option<nat>, customer: nat, unique: Option<nat>, body: nat)

  /** `orders` has the primary key (id, created_at), every other table (id). */
  predicate Conflict(a: Row, b: Row) {
    && a.table == b.table
    && ((a.id == b.id && (a.table == Orders ==> a.ts == b.ts)) || (a.unique.Some? && a.unique == b.unique))
  }

  /** Ids are unique per table and unique columns per row, over both databases. */
  ghost predicate WellKeyed(rows: set<Row>) {
    forall a, b | a in rows && b in rows && a.table == b.table && (a.id == b.id || (a.unique.Some? && a.unique == b.unique)) :: a == b
  }

  function Prior(hot: set<Row>, t: Table, cutoff: int): set<Row> {
    set r | r in hot && r.table == t && r.ts < cutoff
  }

  function AllPrior(hot: set<Row>, cutoff: int): set<Row> {
    set r | r in hot && r.ts < cutoff
  }

  function Ids(rows: set<Row>): set<nat> {
    set r | r in rows :: r.id
  }

  /** SELECT ... WHERE ts < cutoff ORDER BY id LIMIT limit. */
  function Batch(hot: set<Row>, t: Table, cutoff: int, limit: nat): set<Row> {
    set r | r in Prior(hot, t, cutoff) && r.id in Lowest(Ids(Prior(hot, t, cutoff)), limit)
  }

  /** INSERT ... ON CONFLICT DO NOTHING: whatever the conflict, the row is skipped. */
  function CopyInto(archive: set<Row>, rows: set<Row>): set<Row> {
    archive + set r | r in rows && !exists a | a in archive :: Conflict(a, r)
  }

  /** DELETE ... WHERE id IN (...). */
  function DeleteIds(hot: set<Row>, t: Table, ids: set<nat>): set<Row> {
    set r | r in hot && !(r.table == t && r.id in ids)
  }

  // ----- the machine --------------------------------------------------------

  /** Where a sweep stands: at a table, before its select, its copy or its delete. */
  datatype Sweep = Choosing(k: nat) | Copying(k: nat, rows: set<Row>) | Deleting(k: nat, rows: set<Row>)

  datatype State = State(hot: set<Row>, archive: set<Row>, sweeps: map<nat, Sweep>)

  /** `Stop` is a crash or the runtime cap; `Place` commits new rows of the year. */
  datatype Step = Start(w: nat) | Choose(w: nat) | Copy(w: nat) | Delete(w: nat) | Stop(w: nat) | Place(rows: set<Row>)

  /** New rows of this year: the items of an order come with it, any other child with
      it or while it is hot. The order may be of a prior year. */
  ghost predicate CanPlace(s: State, rows: set<Row>, cutoff: int) {
    && (forall r | r in rows :: r.ts >= cutoff)
    && WellKeyed(s.hot + s.archive + rows)
    && ItemsHaveOrders(rows)
    && (forall c | c in rows && c.table != Orders && c.order.Some? :: HasOrder(s.hot + rows, c))
  }

  predicate ChildOf(c: Row, o: Row) {
    c.table != Orders && o.table == Orders && c.order == Some(o.id)
  }

  ghost predicate HasOrder(rows: set<Row>, c: Row) {
    exists o :: o in rows && ChildOf(c, o)
  }

  /** Every row that names an order has it beside it. */
  ghost predicate ChildrenHaveOrders(rows: set<Row>) {
    forall c | c in rows && c.table != Orders && c.order.Some? :: HasOrder(rows, c)
  }

  /** Every item has its order, stamped by the same transaction. */
  ghost predicate ItemsHaveOrders(hot: set<Row>) {
    forall i | i in hot && i.table == OrderItems :: exists o :: o in hot && ChildOf(i, o) && o.ts == i.ts
  }

  /** No child of this year belongs to an order of a prior year. */
  ghost predicate NoneStraddles(rows: set<Row>, cutoff: int) {
    forall c, o | c in rows && o in rows && ChildOf(c, o) && o.ts < cutoff :: c.ts < cutoff
  }

  ghost function Do(s: State, step: Step, cutoff: int, limit: nat): State {
    match step
    case Start(w) => if w in s.sweeps then s else s.(sweeps := s.sweeps[w := Choosing(0)])
    case Choose(w) =>
      if w in s.sweeps && s.sweeps[w].Choosing? && s.sweeps[w].k < |TABLES| then
        var k := s.sweeps[w].k;
        var rows := Batch(s.hot, TABLES[k], cutoff, limit);
        if rows != {} then s.(sweeps := s.sweeps[w := Copying(k, rows)])
        else if k + 1 < |TABLES| then s.(sweeps := s.sweeps[w := Choosing(k + 1)])
        else s.(sweeps := s.sweeps - {w})
      else s
    case Copy(w) =>
      if w in s.sweeps && s.sweeps[w].Copying? then
        s.(archive := CopyInto(s.archive, s.sweeps[w].rows), sweeps := s.sweeps[w := Deleting(s.sweeps[w].k, s.sweeps[w].rows)])
      else s
    case Delete(w) =>
      if w in s.sweeps && s.sweeps[w].Deleting? && s.sweeps[w].k < |TABLES| then
        s.(hot := DeleteIds(s.hot, TABLES[s.sweeps[w].k], Ids(s.sweeps[w].rows)), sweeps := s.sweeps[w := Choosing(s.sweeps[w].k)])
      else s
    case Stop(w) => s.(sweeps := s.sweeps - {w})
    case Place(rows) => if CanPlace(s, rows, cutoff) then s.(hot := s.hot + rows) else s
  }

  ghost function Run(s: State, steps: seq<Step>, cutoff: int, limit: nat): State {
    if |steps| == 0 then s else Do(Run(s, steps[..|steps| - 1], cutoff, limit), steps[|steps| - 1], cutoff, limit)
  }

  ghost predicate SweepOk(s: State, p: Sweep, cutoff: int) {
    && p.k < |TABLES|
    && (forall j | 0 <= j < p.k :: Prior(s.hot, TABLES[j], cutoff) == {})
    && (!p.Choosing? ==> forall r | r in p.rows :: r.table == TABLES[p.k] && r.ts < cutoff && r in s.hot + s.archive)
    && (p.Deleting? ==> p.rows <= s.archive)
  }

  ghost predicate Inv(s: State, cutoff: int) {
    && WellKeyed(s.hot + s.archive)
    && ItemsHaveOrders(s.hot)
    && forall w | w in s.sweeps :: SweepOk(s, s.sweeps[w], cutoff)
  }

  /** Where an uninterrupted sweep of the two databases ends. */
  function SettledHot(hot: set<Row>, cutoff: int): set<Row> {
    hot - AllPrior(hot, cutoff)
  }

  function SettledArchive(hot: set<Row>, archive: set<Row>, cutoff: int): set<Row> {
    archive + AllPrior(hot, cutoff)
  }

  // ----- single steps -------------------------------------------------------

  /** With well-keyed rows nothing is skipped that is not already there. */
  lemma CopyKeepsAll(archive: set<Row>, rows: set<Row>)
    requires WellKeyed(archive + rows)
    ensures CopyInto(archive, rows) == archive + rows
  {
    forall r | r in rows && r !in archive
      ensures r in CopyInto(archive, rows)
    {
      assert forall a | a in archive :: a in archive + rows;
      assert r in archive + rows;
    }
  }

  /** What moving rows would lose without well-keyed databases: exactly the rows that are
      not archived and meet an archived row with their id (and their creation time, for
      an order) or with their unique value. */
  lemma MoveLosesExactlyWhen(hot: set<Row>, archive: set<Row>, t: Table, rows: set<Row>)
    requires forall r | r in rows :: r.table == t
    ensures forall r | r in rows ::
              r !in DeleteIds(hot, t, Ids(rows)) + CopyInto(archive, rows)
              <==> r !in archive
                   && exists a :: && a in archive && a.table == t
                                  && (if a.id == r.id && t != Orders then true
                                      else if a.id == r.id && a.ts == r.ts then true
                                      else a.unique.Some? && a.unique == r.unique)
  {
    forall r | r in rows
      ensures r !in DeleteIds(hot, t, Ids(rows)) && (r in CopyInto(archive, rows) <==> r in archive || !exists a | a in archive :: Conflict(a, r))
    {
      assert r.id in Ids(rows);
    }
  }

  lemma DeleteRemovesRows(hot: set<Row>, all: set<Row>, t: Table, rows: set<Row>)
    requires WellKeyed(all) && hot <= all && rows <= all && forall r | r in rows :: r.table == t
    ensures DeleteIds(hot, t, Ids(rows)) == hot - rows
  {
    forall r | r in hot && r.table == t && r.id in Ids(rows)
      ensures r in rows
    {
      var x :| x in rows && x.id == r.id;
      assert x in all && r in all;
    }
  }

  /** A non-empty backlog yields a non-empty batch. */
  lemma BatchIsEmptyWhenDone(hot: set<Row>, t: Table, cutoff: int, limit: nat)
    requires limit > 0
    ensures Batch(hot, t, cutoff, limit) == {} <==> Prior(hot, t, cutoff) == {}
  {
    var ids := Ids(Prior(hot, t, cutoff));
    var chosen := Lowest(ids, limit);
    if Prior(hot, t, cutoff) != {} {
      var r :| r in Prior(hot, t, cutoff);
      assert r.id in ids;
      assert |ids| > 0;
      assert chosen[0] in chosen;
      var x :| x in Prior(hot, t, cutoff) && x.id == chosen[0];
      assert x in Batch(hot, t, cutoff, limit);
    }
  }

  /** What a step does to the two databases taken together: new rows may come,
      nothing goes, and the place where everything is heading stays the same. */
  ghost predicate NothingLost(s: State, s': State, placed: set<Row>, cutoff: int) {
    && s'.hot + s'.archive == s.hot + s.archive + placed
    && s.archive <= s'.archive
    && s'.archive <= s.archive + AllPrior(s.hot, cutoff)
    && s'.hot <= s.hot + placed
    && SettledHot(s'.hot, cutoff) == SettledHot(s.hot + placed, cutoff)
    && SettledArchive(s'.hot, s'.archive, cutoff) == SettledArchive(s.hot + placed, s.archive, cutoff)
  }

  lemma CopyStep(s: State, w: nat, cutoff: int, limit: nat)
    requires Inv(s, cutoff)
    ensures NothingLost(s, Do(s, Copy(w), cutoff, limit), {}, cutoff) && Inv(Do(s, Copy(w), cutoff, limit), cutoff)
  {
    var s' := Do(s, Copy(w), cutoff, limit);
    if s' != s {
      var p := s.sweeps[w];
      assert SweepOk(s, p, cutoff);
      assert s.archive + p.rows <= s.hot + s.archive;
      CopyKeepsAll(s.archive, p.rows);
      assert s'.hot + s'.archive == s.hot + s.archive;
      assert forall v | v in s.sweeps :: SweepOk(s, s.sweeps[v], cutoff) ==> SweepOk(s', s.sweeps[v], cutoff);
    }
  }

  lemma DeleteStep(s: State, w: nat, cutoff: int, limit: nat)
    requires Inv(s, cutoff)
    ensures NothingLost(s, Do(s, Delete(w), cutoff, limit), {}, cutoff) && Inv(Do(s, Delete(w), cutoff, limit), cutoff)
  {
    var s' := Do(s, Delete(w), cutoff, limit);
    if s' != s {
      var p := s.sweeps[w];
      assert SweepOk(s, p, cutoff);
      DeleteRemovesRows(s.hot, s.hot + s.archive, TABLES[p.k], p.rows);
      assert s'.hot == s.hot - p.rows;
      assert s'.hot + s'.archive == s.hot + s.archive;
      forall v | v in s'.sweeps
        ensures SweepOk(s', s'.sweeps[v], cutoff)
      {
        assert SweepOk(s, s.sweeps[v], cutoff);
        assert forall j | 0 <= j < |TABLES| :: Prior(s'.hot, TABLES[j], cutoff) <= Prior(s.hot, TABLES[j], cutoff);
      }
      ItemsKeepOrders(s, p, cutoff);
    }
  }

  /** A sweep deletes orders only once no item of a prior year is left hot. */
  lemma ItemsKeepOrders(s: State, p: Sweep, cutoff: int)
    requires ItemsHaveOrders(s.hot) && p.Deleting? && SweepOk(s, p, cutoff)
    ensures ItemsHaveOrders(s.hot - p.rows)
  {
    forall i | i in s.hot - p.rows && i.table == OrderItems
      ensures exists o :: o in s.hot - p.rows && ChildOf(i, o) && o.ts == i.ts
    {
      var o :| o in s.hot && ChildOf(i, o) && o.ts == i.ts;
      assert o in p.rows ==> p.k == 5 && i.ts < cutoff;
      assert p.k == 5 ==> i !in Prior(s.hot, TABLES[4], cutoff);
    }
  }

  lemma BatchIsPrior(hot: set<Row>, t: Table, cutoff: int, limit: nat)
    ensures Batch(hot, t, cutoff, limit) <= Prior(hot, t, cutoff)
  {
  }

  lemma ChooseStep(s: State, w: nat, cutoff: int, limit: nat)
    requires Inv(s, cutoff) && limit > 0
    ensures NothingLost(s, Do(s, Choose(w), cutoff, limit), {}, cutoff) && Inv(Do(s, Choose(w), cutoff, limit), cutoff)
  {
    hide Batch, WellKeyed, ItemsHaveOrders;
    var s' := Do(s, Choose(w), cutoff, limit);
    if s' != s {
      var p := s.sweeps[w];
      assert SweepOk(s, p, cutoff);
      BatchIsEmptyWhenDone(s.hot, TABLES[p.k], cutoff, limit);
      BatchIsPrior(s.hot, TABLES[p.k], cutoff, limit);
      assert forall v | v in s.sweeps :: SweepOk(s, s.sweeps[v], cutoff) ==> SweepOk(s', s.sweeps[v], cutoff);
    }
  }

  lemma PlaceStep(s: State, rows: set<Row>, cutoff: int, limit: nat)
    requires Inv(s, cutoff)
    ensures NothingLost(s, Do(s, Place(rows), cutoff, limit), if CanPlace(s, rows, cutoff) then rows else {}, cutoff)
    ensures Inv(Do(s, Place(rows), cutoff, limit), cutoff)
  {
    var s' := Do(s, Place(rows), cutoff, limit);
    if CanPlace(s, rows, cutoff) {
      assert s'.hot + s'.archive == s.hot + s.archive + rows;
      forall j | 0 <= j < |TABLES|
        ensures Prior(s'.hot, TABLES[j], cutoff) == Prior(s.hot, TABLES[j], cutoff)
      {
      }
      assert forall v | v in s.sweeps :: SweepOk(s, s.sweeps[v], cutoff) ==> SweepOk(s', s.sweeps[v], cutoff);
    }
  }

  lemma DoKeeps(s: State, step: Step, cutoff: int, limit: nat)
    requires Inv(s, cutoff) && limit > 0
    ensures Inv(Do(s, step, cutoff, limit), cutoff)
    ensures NothingLost(s, Do(s, step, cutoff, limit), PlacedBy(s, step, cutoff), cutoff)
  {
    match step
    case Choose(w) => ChooseStep(s, w, cutoff, limit);
    case Copy(w) => CopyStep(s, w, cutoff, limit);
    case Delete(w) => DeleteStep(s, w, cutoff, limit);
    case Place(rows) => PlaceStep(s, rows, cutoff, limit);
    case _ =>
      var s' := Do(s, step, cutoff, limit);
      assert forall v | v in s.sweeps :: SweepOk(s, s.sweeps[v], cutoff) ==> SweepOk(s', s.sweeps[v], cutoff);
  }

  ghost function PlacedBy(s: State, step: Step, cutoff: int): set<Row> {
    if step.Place? && CanPlace(s, step.rows, cutoff) then step.rows else {}
  }

  /** Everything placed along a run. */
  ghost function Placed(s: State, steps: seq<Step>, cutoff: int, limit: nat): set<Row> {
    if |steps| == 0 then {}
    else
      var n := |steps| - 1;
      Placed(s, steps[..n], cutoff, limit) + PlacedBy(Run(s, steps[..n], cutoff, limit), steps[n], cutoff)
  }

  // ----- every run ----------------------------------------------------------

  /** Two databases before any sweep. */
  ghost predicate Fit(s: State) {
    s.sweeps == map[] && WellKeyed(s.hot + s.archive) && ItemsHaveOrders(s.hot)
  }

  /** Whatever sweeps run, crash and resume: every row that ever was in hot or in
      the archive is in at least one of them, unchanged; the archive only grows,
      by rows of prior years, and never holds two rows with one id; no hot item has
      lost its hot order; and an uninterrupted sweep from here would end where
      one from the start would have, plus what was placed meanwhile. */
  lemma {:induction false} SweepsLoseNothing(s: State, steps: seq<Step>, cutoff: int, limit: nat)
    requires Fit(s) && limit > 0
    ensures var s' := Run(s, steps, cutoff, limit);
            var placed := Placed(s, steps, cutoff, limit);
            && Inv(s', cutoff) && NothingLost(s, s', placed, cutoff)
            && (forall r | r in placed :: r.ts >= cutoff && r in s'.hot)
            && (forall a, b | a in s'.archive && b in s'.archive && a.table == b.table && a.id == b.id :: a == b)
            && ItemsHaveOrders(s'.hot)
  {
    hide WellKeyed, ItemsHaveOrders, NothingLost, CanPlace, SweepOk, Do;
    if |steps| == 0 {
      NothingLostAtStart(s, cutoff);
    } else {
      var n := |steps| - 1;
      SweepsLoseNothing(s, steps[..n], cutoff, limit);
      var mid := Run(s, steps[..n], cutoff, limit);
      DoKeeps(mid, steps[n], cutoff, limit);
      PlacedStaysHot(mid, steps[n], cutoff, limit);
      PlacedIsCurrent(mid, steps[n], cutoff);
      NothingLostComposes(s, mid, Run(s, steps, cutoff, limit), Placed(s, steps[..n], cutoff, limit), PlacedBy(mid, steps[n], cutoff), cutoff);
    }
    ArchiveIdsUnique(Run(s, steps, cutoff, limit));
  }

  lemma ArchiveIdsUnique(s: State)
    requires WellKeyed(s.hot + s.archive)
    ensures forall a, b | a in s.archive && b in s.archive && a.table == b.table && a.id == b.id :: a == b
  {
    assert forall a | a in s.archive :: a in s.hot + s.archive;
  }

  lemma NothingLostAtStart(s: State, cutoff: int)
    ensures NothingLost(s, s, {}, cutoff)
  {
    assert s.hot + {} == s.hot;
  }

  lemma PlacedIsCurrent(s: State, step: Step, cutoff: int)
    ensures forall r | r in PlacedBy(s, step, cutoff) :: r.ts >= cutoff
  {
  }

  lemma NothingLostComposes(s: State, mid: State, s': State, p: set<Row>, q: set<Row>, cutoff: int)
    requires NothingLost(s, mid, p, cutoff) && NothingLost(mid, s', q, cutoff)
    requires forall r | r in p + q :: r.ts >= cutoff
    ensures NothingLost(s, s', p + q, cutoff)
  {
    assert forall r | r in SettledHot(s.hot + (p + q), cutoff) :: r in SettledHot(s.hot + p, cutoff) || r in q;
    assert SettledHot(mid.hot + q, cutoff) == SettledHot(mid.hot, cutoff) + q;
    assert SettledHot(s.hot + (p + q), cutoff) == SettledHot(s.hot + p, cutoff) + q;
    assert AllPrior(s.hot + (p + q), cutoff) == AllPrior(s.hot, cutoff) == AllPrior(s.hot + p, cutoff);
    assert AllPrior(mid.hot + q, cutoff) == AllPrior(mid.hot, cutoff);
    assert SettledArchive(mid.hot, mid.archive, cutoff) == SettledArchive(s.hot, s.archive, cutoff);
    assert AllPrior(mid.hot, cutoff) <= SettledArchive(mid.hot, mid.archive, cutoff);
  }

  lemma PlacedStaysHot(s: State, step: Step, cutoff: int, limit: nat)
    requires Inv(s, cutoff)
    ensures forall r | r in s.hot && r.ts >= cutoff :: r in Do(s, step, cutoff, limit).hot
    ensures PlacedBy(s, step, cutoff) <= Do(s, step, cutoff, limit).hot
  {
    if step.Delete? && step.w in s.sweeps && s.sweeps[step.w].Deleting? {
      var p := s.sweeps[step.w];
      assert SweepOk(s, p, cutoff);
      DeleteRemovesRows(s.hot, s.hot + s.archive, TABLES[p.k], p.rows);
    }
  }
}
