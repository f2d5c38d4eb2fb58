/**
 The cached copy of one product of one branch: filled by read-through, kept fresh by
 the events of the core service. Core events arrive in the order they were published,
 each handled in one piece; any of them may be delivered again later.
 */
module ProductCache {
  import opened Common

  /** The product as core answers it over HTTP. */
  datatype Row = Row(name: string, price: int, stock: int, available: bool)

  /** A cache entry; one that only events have written holds no name. */
  datatype Entry = Entry(name: Option<string>, price: Option<int>, stock: Option<int>, available: Option<bool>)

  datatype Change = PriceChanged(newPrice: int) | StockChanged(newStock: Option<int>, isAvailable: Option<bool>)

  const EMPTY := Entry(None, None, None, None)

  function Full(r: Row): Entry {
    Entry(Some(r.name), Some(r.price), Some(r.stock), Some(r.available))
  }

  /** upsertProductStock and upsertProductPrice. */
  function Merge(e: Entry, c: Change): Entry {
    match c
    case PriceChanged(price) => e.(price := Some(price))
    case StockChanged(stock, available) =>
      e.(stock := if stock.Some? then stock else e.stock, available := if available.Some? then available else e.available)
  }

  function MergeAll(e: Entry, changes: seq<Change>): Entry {
    if |changes| == 0 then e else Merge(MergeAll(e, changes[..|changes| - 1]), changes[|changes| - 1])
  }

  /** A change as core makes it; the event reports every field it changed. */
  function Changed(r: Row, c: Change): Row {
    match c
    case PriceChanged(price) => r.(price := price)
    case StockChanged(stock, available) =>
      r.(stock := if stock.Some? then stock.value else r.stock, available := if available.Some? then available.value else r.available)
  }

  function RowAfter(r: Row, changes: seq<Change>): Row {
    if |changes| == 0 then r else Changed(RowAfter(r, changes[..|changes| - 1]), changes[|changes| - 1])
  }

  // ----- the net effect of a list of changes ---------------------------------------

  /** The last value each field is given. */
  function Net(changes: seq<Change>): Entry {
    MergeAll(EMPTY, changes)
  }

  function OneOver<T>(earlier: Option<T>, newer: Option<T>): Option<T> {
    if newer.Some? then newer else earlier
  }

  function Over(e: Entry, net: Entry): Entry {
    Entry(OneOver(e.name, net.name), OneOver(e.price, net.price), OneOver(e.stock, net.stock), OneOver(e.available, net.available))
  }

  lemma {:induction false} MergeAllIsNet(e: Entry, changes: seq<Change>)
    ensures MergeAll(e, changes) == Over(e, Net(changes)) && Net(changes).name == None
  {
    if |changes| > 0 {
      MergeAllIsNet(e, changes[..|changes| - 1]);
    }
  }

  lemma {:induction false} RowAfterIsNet(r: Row, changes: seq<Change>)
    ensures Full(RowAfter(r, changes)) == Over(Full(r), Net(changes))
  {
    if |changes| > 0 {
      RowAfterIsNet(r, changes[..|changes| - 1]);
    }
  }

  lemma {:induction false} NetConcat(a: seq<Change>, b: seq<Change>)
    ensures Net(a + b) == Over(Net(a), Net(b))
  {
    if |b| == 0 {
      assert a + b == a;
    } else {
      var n := |b| - 1;
      NetConcat(a, b[..n]);
      assert (a + b)[..|a + b| - 1] == a + b[..n];
    }
  }

  // ----- the machine ------------------------------------------------------------------

  /** A read that missed: core's answer, taken when `at` events had been published. */
  datatype Fetch = Fetch(row: Row, at: nat)

  /** Events 0 .. next - 1 have been handled, and `seen` holds their dedupe keys. */
  datatype State = State(
    core: Row, published: seq<Change>, next: nat, seen: set<nat>, cache: Option<Entry>, asked: map<nat, Fetch>)

  function Init(row: Row): State {
    State(row, [], 0, {}, None, map[])
  }

  datatype Step = CoreChanges(change: Change) | Deliver(i: nat) | Ask(r: nat) | Fill(r: nat) | FillFails(r: nat) | Expires

  function Queued(s: State): seq<Change> {
    if s.next <= |s.published| then s.published[s.next..] else []
  }

  /** What a read takes from the cache without asking core. */
  function Hit(s: State): Option<Entry> {
    if s.cache.Some? && s.cache.value.name.Some? then s.cache else None
  }

  function Upserted(cache: Option<Entry>, c: Change): Option<Entry> {
    Some(Merge(if cache.Some? then cache.value else EMPTY, c))
  }

  /** Deliver(i) is the next event of the queue or one delivered before; Ask is the
      request a read makes to core when it missed. */
  function Do(s: State, step: Step): State {
    match step
    case CoreChanges(c) => s.(core := Changed(s.core, c), published := s.published + [c])
    case Deliver(i) =>
      if i > s.next || i >= |s.published| || i in s.seen then s
      else s.(cache := Upserted(s.cache, s.published[i]), seen := s.seen + {i}, next := if i == s.next then i + 1 else s.next)
    case Ask(r) => if r in s.asked || Hit(s).Some? then s else s.(asked := s.asked[r := Fetch(s.core, |s.published|)])
    case Fill(r) => if r in s.asked then s.(cache := Some(Full(s.asked[r].row)), asked := s.asked - {r}) else s
    case FillFails(r) => s.(asked := s.asked - {r})
    case Expires => s.(cache := None)
  }

  function Run(s: State, steps: seq<Step>): State {
    if |steps| == 0 then s else Do(Run(s, steps[..|steps| - 1]), steps[|steps| - 1])
  }

  // ----- coherence --------------------------------------------------------------------

  predicate OneAgrees<T(==)>(held: Option<T>, current: T) {
    held.Some? ==> held.value == current
  }

  /** Every field the entry holds has core's current value. */
  predicate Agrees(e: Entry, r: Row) {
    OneAgrees(e.name, r.name) && OneAgrees(e.price, r.price) && OneAgrees(e.stock, r.stock) && OneAgrees(e.available, r.available)
  }

  /** The events still queued bring the entry to core's current values. */
  ghost predicate Coherent(s: State) {
    s.cache.Some? ==> Agrees(MergeAll(s.cache.value, Queued(s)), s.core)
  }

  /** A field that events have set and that no queued event sets again was set to
      this value. */
  predicate OneStands<T(==)>(given: Option<T>, queued: Option<T>, value: T) {
    given.Some? && queued == None ==> given.value == value
  }

  /** The events published after a fetch and consumed before its fill gave no field a
      lasting value other than the fetched one. */
  predicate Harmless(s: State, f: Fetch) {
    f.at < s.next <= |s.published| ==>
      var missed, queued := Net(s.published[f.at..s.next]), Net(Queued(s));
      && OneStands(missed.price, queued.price, f.row.price)
      && OneStands(missed.stock, queued.stock, f.row.stock)
      && OneStands(missed.available, queued.available, f.row.available)
  }

  /** Runs in which no read fills the cache with a value that events have overtaken. */
  ghost predicate Legal(s: State, steps: seq<Step>) {
    |steps| > 0 ==>
      var last := steps[|steps| - 1];
      var before := Run(s, steps[..|steps| - 1]);
      Legal(s, steps[..|steps| - 1]) && (last.Fill? && last.r in before.asked ==> Harmless(before, before.asked[last.r]))
  }

  /** Holds of every run, harmless or not. */
  ghost predicate Sound(s: State, initial: Row) {
    && s.next <= |s.published|
    && (forall i: nat :: i in s.seen <==> i < s.next)
    && s.core == RowAfter(initial, s.published)
    && s.core.name == initial.name
    && (forall r | r in s.asked :: FetchOk(s, initial, s.asked[r]))
    && (s.cache.Some? && s.cache.value.name.Some? ==>
          var e := s.cache.value; e.name.value == initial.name && e.price.Some? && e.stock.Some? && e.available.Some?)
  }

  ghost predicate FetchOk(s: State, initial: Row, f: Fetch) {
    f.at <= |s.published| && f.row == RowAfter(initial, s.published[..f.at]) && f.row.name == initial.name
  }

  lemma DoKeepsSound(s: State, initial: Row, step: Step)
    requires Sound(s, initial)
    ensures Sound(Do(s, step), initial)
  {
    var s' := Do(s, step);
    match step
    case CoreChanges(c) => {
      assert s'.published[..|s.published|] == s.published;
      forall r | r in s.asked
        ensures FetchOk(s', initial, s'.asked[r])
      {
        assert FetchOk(s, initial, s.asked[r]);
        assert s'.published[..s.asked[r].at] == s.published[..s.asked[r].at];
      }
    }
    case Ask(r) => {
      assert s.published[..|s.published|] == s.published;
      assert forall q | q in s.asked :: FetchOk(s, initial, s.asked[q]) ==> FetchOk(s', initial, s.asked[q]);
    }
    case _ => {
      assert forall q | q in s'.asked :: q in s.asked && s'.asked[q] == s.asked[q];
      assert forall q | q in s.asked :: FetchOk(s, initial, s.asked[q]) ==> FetchOk(s', initial, s.asked[q]);
    }
  }

  /** A row later in the history is the earlier one under the net effect between. */
  lemma CoreIsNet(s: State, initial: Row, k: nat)
    requires Sound(s, initial) && k <= |s.published|
    ensures Full(s.core) == Over(Full(RowAfter(initial, s.published[..k])), Net(s.published[k..]))
  {
    RowAfterIsNet(initial, s.published);
    RowAfterIsNet(initial, s.published[..k]);
    NetConcat(s.published[..k], s.published[k..]);
    assert s.published == s.published[..k] + s.published[k..];
  }

  /** The one step that can break coherence is a fill, and it does so exactly when an
      event published after the fetch and consumed before the fill gave a field a value
      the fetch had not seen, and no queued event sets that field again. */
  lemma FillIsCoherentExactlyWhen(s: State, initial: Row, r: nat)
    requires Sound(s, initial) && r in s.asked
    ensures Coherent(Do(s, Fill(r))) <==> Harmless(s, s.asked[r])
  {
    hide RowAfter, MergeAll;
    var f := s.asked[r];
    assert FetchOk(s, initial, f);
    CoreIsNet(s, initial, f.at);
    CoreIsNet(s, initial, s.next);
    MergeAllIsNet(Full(f.row), Queued(s));
    MergeAllIsNet(EMPTY, Queued(s));
    if f.at < s.next {
      NetConcat(s.published[f.at..s.next], s.published[s.next..]);
      assert s.published[f.at..] == s.published[f.at..s.next] + s.published[s.next..];
    } else {
      NetConcat(s.published[s.next..f.at], s.published[f.at..]);
      assert s.published[s.next..] == s.published[s.next..f.at] + s.published[f.at..];
      RowAfterIsNet(RowAfter(initial, s.published[..s.next]), s.published[s.next..f.at]);
      NetConcat(s.published[..s.next], s.published[s.next..f.at]);
      assert s.published[..f.at] == s.published[..s.next] + s.published[s.next..f.at];
      RowAfterIsNet(initial, s.published[..f.at]);
      RowAfterIsNet(initial, s.published[..s.next]);
    }
  }

  lemma DeliveryKeepsCoherence(s: State, initial: Row, i: nat)
    requires Sound(s, initial) && Coherent(s)
    ensures Coherent(Do(s, Deliver(i)))
  {
    hide RowAfter, MergeAll;
    var s' := Do(s, Deliver(i));
    if s' != s {
      var e := if s.cache.Some? then s.cache.value else EMPTY;
      var c, rest := s.published[i], s.published[i + 1..];
      assert i == s.next && Queued(s) == [c] + rest && Queued(s') == rest;
      CoreIsNet(s, initial, i);
      assert s.published[i..] == Queued(s);
      hide Queued, Sound;
      NetConcat([c], rest);
      NetOfOne(c);
      MergeAllIsNet(e, Queued(s));
      MergeAllIsNet(Merge(e, c), rest);
    }
  }

  lemma NetOfOne(c: Change)
    ensures Net([c]) == Merge(EMPTY, c)
  {
    assert [c][..|[c]| - 1] == [];
    assert MergeAll(EMPTY, []) == EMPTY;
  }

  lemma ChangeKeepsCoherence(s: State, initial: Row, c: Change)
    requires Sound(s, initial) && Coherent(s)
    ensures Coherent(Do(s, CoreChanges(c)))
  {
    var queue := Queued(Do(s, CoreChanges(c)));
    assert queue == Queued(s) + [c] && queue[..|queue| - 1] == Queued(s);
  }

  lemma {:induction false} LegalRuns(row: Row, steps: seq<Step>)
    requires Legal(Init(row), steps)
    ensures Sound(Run(Init(row), steps), row) && Coherent(Run(Init(row), steps))
  {
    if |steps| > 0 {
      LegalRuns(row, steps[..|steps| - 1]);
      var s, step := Run(Init(row), steps[..|steps| - 1]), steps[|steps| - 1];
      DoKeepsSound(s, row, step);
      match step {
        case CoreChanges(c) => ChangeKeepsCoherence(s, row, c);
        case Deliver(i) => DeliveryKeepsCoherence(s, row, i);
        case Fill(r) => {
          if r in s.asked {
            FillIsCoherentExactlyWhen(s, row, r);
          }
        }
        case _ =>
      }
    }
  }

  /** In every run without an overtaken fill: each field of the cached entry has core's
      current value, unless an event still queued sets it. With the queue empty a read
      that hits returns exactly core's row; it never returns one without a name. */
  lemma CacheFollowsCore(row: Row, steps: seq<Step>)
    requires Legal(Init(row), steps)
    ensures var s := Run(Init(row), steps);
            var queued := Net(Queued(s));
            && (s.cache.Some? ==>
                  var e := s.cache.value;
                  && (queued.price == None ==> OneAgrees(e.price, s.core.price))
                  && (queued.stock == None ==> OneAgrees(e.stock, s.core.stock))
                  && (queued.available == None ==> OneAgrees(e.available, s.core.available)))
            && (Hit(s).Some? ==> Hit(s).value.name == Some(s.core.name))
            && (Queued(s) == [] && Hit(s).Some? ==> Hit(s).value == Full(s.core))
  {
    LegalRuns(row, steps);
    var s := Run(Init(row), steps);
    if s.cache.Some? {
      MergeAllIsNet(s.cache.value, Queued(s));
    }
  }

  /** An overtaken fill: the read asks core, the price changes and its event is
      handled, and only then the answer is stored. Nothing is left to correct it. */
  lemma StaleFill(row: Row, price: int)
    requires price != row.price
    ensures var s := Run(Init(row), [Ask(0), CoreChanges(PriceChanged(price)), Deliver(0), Fill(0)]);
            Queued(s) == [] && Hit(s) == Some(Full(row)) && s.core.price == price
  {
    var a, b, c, d := Ask(0), CoreChanges(PriceChanged(price)), Deliver(0), Fill(0);
    var s := Init(row);
    assert [a][..0] == [] && [a, b][..1] == [a] && [a, b, c][..2] == [a, b] && [a, b, c, d][..3] == [a, b, c];
    assert Run(s, [a]) == Do(Run(s, []), a);
    assert Run(s, [a, b]) == Do(Run(s, [a]), b);
    assert Run(s, [a, b, c]) == Do(Run(s, [a, b]), c);
  }

  /** A delivery whose event is remembered changes nothing. */
  lemma RedeliveriesChangeNothing(row: Row, steps: seq<Step>, i: nat)
    requires Legal(Init(row), steps) && i < Run(Init(row), steps).next
    ensures Do(Run(Init(row), steps), Deliver(i)) == Run(Init(row), steps)
  {
    LegalRuns(row, steps);
  }

  /** Once the dedupe key of event i has expired, a late redelivery merges it again. The
      entry stays right exactly when each field of the event has its current value or is
      set again by a queued event: the handlers are not invalidations. */
  lemma LateRedeliveryIsHarmlessExactlyWhen(s: State, initial: Row, i: nat)
    requires Sound(s, initial) && Coherent(s) && i < s.next
    ensures var late := s.(cache := Upserted(s.cache, s.published[i]));
            var event, queued := Net([s.published[i]]), Net(Queued(s));
            Coherent(late) <==>
            && OneStands(event.price, queued.price, s.core.price)
            && OneStands(event.stock, queued.stock, s.core.stock)
            && OneStands(event.available, queued.available, s.core.available)
  {
    hide RowAfter, MergeAll;
    var c := s.published[i];
    var e := if s.cache.Some? then s.cache.value else EMPTY;
    NetOfOne(c);
    MergeAllIsNet(e, Queued(s));
    MergeAllIsNet(Merge(e, c), Queued(s));
    CoreIsNet(s, initial, s.next);
  }

  /** Two price changes are handled in order and the queue is empty; then the first is
      delivered once more, its dedupe key having expired, and stays. */
  lemma LateRedeliveryRestoresOldPrice(row: Row, first: int, second: int)
    requires first != second
    ensures var s := Run(Init(row), [CoreChanges(PriceChanged(first)), Deliver(0)] + [CoreChanges(PriceChanged(second)), Deliver(1)]);
            var late := s.(cache := Upserted(s.cache, PriceChanged(first)));
            s.published == [PriceChanged(first), PriceChanged(second)] && Coherent(s) && Queued(s) == [] && s.core.price == second && late.cache.value.price == Some(first) && !Coherent(late)
  {
    var a, b := CoreChanges(PriceChanged(first)), Deliver(0);
    var c, d := CoreChanges(PriceChanged(second)), Deliver(1);
    var s := Init(row);
    var steps := [a, b] + [c, d];
    assert steps == [a, b, c, d] && [a][..0] == [] && [a, b][..1] == [a] && [a, b, c][..2] == [a, b] && [a, b, c, d][..3] == [a, b, c];
    assert Run(s, [a]) == Do(Run(s, []), a);
    assert Run(s, [a, b]) == Do(Run(s, [a]), b);
    assert Run(s, [a, b, c]) == Do(Run(s, [a, b]), c);
    assert Run(s, [a, b, c, d]) == Do(Run(s, [a, b, c]), d);
  }
}
