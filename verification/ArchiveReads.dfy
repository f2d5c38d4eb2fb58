/** What readers find after archival: order lists by year, and children's parents. */
module ArchiveReads {
  import opened Common
  import opened Archival

  /** A calendar: the instants at which years begin. */
  ghost predicate Calendar(yearStart: int -> int) {
    forall y, z | y <= z :: yearStart(y) <= yearStart(z)
  }

  /** A customer's orders created in a year. */
  function OrdersOf(rows: set<Row>, customer: nat, from: int, to: int): set<Row> {
    set r | r in rows && r.table == Orders && r.customer == customer && from <= r.ts < to
  }

  function ItemsOf(rows: set<Row>, order: nat): set<Row> {
    set r | r in rows && r.table == OrderItems && r.order == Some(order)
  }

  /** listCustomerOrders: prior years are read from the archive, others from hot. */
  function RoutedRows(hot: set<Row>, archive: set<Row>, year: int, currentYear: int): set<Row> {
    if year < currentYear then archive else hot
  }

  ghost predicate RoutedReadIsComplete(hot: set<Row>, archive: set<Row>, yearStart: int -> int, currentYear: int, customer: nat, year: int) {
    OrdersOf(RoutedRows(hot, archive, year, currentYear), customer, yearStart(year), yearStart(year + 1))
    == OrdersOf(hot + archive, customer, yearStart(year), yearStart(year + 1))
  }

  /** The routed read returns, for every customer and year, what the two databases
      together hold, exactly when no prior-year order is hot only and no order of
      the current or a later year is archived only. */
  lemma RoutedReadsCompleteExactlyWhen(hot: set<Row>, archive: set<Row>, yearStart: int -> int, currentYear: int)
    requires Calendar(yearStart)
    requires forall r | r in hot + archive :: exists y :: yearStart(y) <= r.ts < yearStart(y + 1)
    ensures (forall customer, year :: RoutedReadIsComplete(hot, archive, yearStart, currentYear, customer, year))
       <==> (forall r | r in hot + archive && r.table == Orders :: if r.ts < yearStart(currentYear) then r in archive else r in hot)
  {
    var cutoff := yearStart(currentYear);
    if forall r | r in hot + archive && r.table == Orders :: if r.ts < cutoff then r in archive else r in hot {
      forall customer, year
        ensures RoutedReadIsComplete(hot, archive, yearStart, currentYear, customer, year)
      {
        assert year < currentYear ==> yearStart(year + 1) <= cutoff;
        assert year >= currentYear ==> cutoff <= yearStart(year);
      }
    }
    if forall customer, year :: RoutedReadIsComplete(hot, archive, yearStart, currentYear, customer, year) {
      forall r | r in hot + archive && r.table == Orders
        ensures if r.ts < cutoff then r in archive else r in hot
      {
        var y :| yearStart(y) <= r.ts < yearStart(y + 1);
        assert RoutedReadIsComplete(hot, archive, yearStart, currentYear, r.customer, y);
        assert r in OrdersOf(hot + archive, r.customer, yearStart(y), yearStart(y + 1));
        assert r in OrdersOf(RoutedRows(hot, archive, y, currentYear), r.customer, yearStart(y), yearStart(y + 1));
        assert y < currentYear ==> yearStart(y + 1) <= cutoff;
        assert y >= currentYear ==> cutoff <= yearStart(y);
      }
    }
  }

  /** After a completed run for the current year, with nothing archived too early,
      both the routed orders and the item count of each of them are complete. */
  lemma CompletedRunMakesReadsComplete(hot: set<Row>, archive: set<Row>, yearStart: int -> int, currentYear: int, customer: nat, year: int)
    requires Calendar(yearStart)
    requires forall r | r in archive :: r.ts < yearStart(currentYear)
    requires forall i, o | i in hot + archive && o in hot + archive && i.table == OrderItems && ChildOf(i, o) :: i.ts == o.ts
    ensures var cutoff := yearStart(currentYear);
            var hot', archive' := SettledHot(hot, cutoff), SettledArchive(hot, archive, cutoff);
            var read := RoutedRows(hot', archive', year, currentYear);
            && OrdersOf(read, customer, yearStart(year), yearStart(year + 1)) == OrdersOf(hot + archive, customer, yearStart(year), yearStart(year + 1))
            && forall o | o in OrdersOf(read, customer, yearStart(year), yearStart(year + 1)) ::
                 ItemsOf(read, o.id) == ItemsOf(hot + archive, o.id)
  {
    var cutoff := yearStart(currentYear);
    assert year < currentYear ==> yearStart(year + 1) <= cutoff;
    assert year >= currentYear ==> cutoff <= yearStart(year);
  }
}
