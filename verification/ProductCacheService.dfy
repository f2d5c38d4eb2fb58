/** The consumer of core events and the read-through, over the shared cache keys. */
module ProductCacheService {
  import opened Common
  import opened ProductCache

  datatype Key = Key(branch: nat, product: nat)

  /** A message body that parses carries an event id and a type; `Unregistered` is a
      type no handler is registered for. */
  datatype Payload = Product(branch: nat, product: nat, change: Change) | Unregistered

  datatype Message = Malformed | Envelope(eventId: string, payload: Payload)

  datatype Answer = Ack | Nack

  /** A payload without branch or product id (0 counts as missing) is ignored. */
  predicate Names(p: Payload) {
    p.Product? && p.branch != 0 && p.product != 0
  }

  /** An event not seen before, with a handler. */
  predicate Dispatched(msg: Message, seen: set<string>) {
    msg.Envelope? && msg.eventId !in seen && msg.payload.Product?
  }

  function Lookup(entries: map<Key, Entry>, k: Key): Option<Entry> {
    if k in entries then Some(entries[k]) else None
  }

  predicate Usable(entries: map<Key, Entry>, k: Key) {
    k in entries && entries[k].name.Some?
  }

  /** One id of each that occurs, in order of first occurrence. */
  function Unique(ids: seq<nat>): (u: seq<nat>)
    ensures forall x :: x in u <==> x in ids
    ensures forall i, j | 0 <= i < j < |u| :: u[i] != u[j]
  {
    if ids == [] then []
    else
      var n := |ids| - 1;
      assert ids == ids[..n] + [ids[n]];
      var u := Unique(ids[..n]);
      if ids[n] in u then u else u + [ids[n]]
  }

  class Projection {
    var entries: map<Key, Entry>
    var seen: set<string>

    constructor ()
      ensures entries == map[] && seen == {}
    {
      entries, seen := map[], {};
    }

    /** handleMessage: dedupe, dispatch, acknowledge. A handler that throws before it
        writes is refused for good, with its dedupe key already set. */
    method HandleMessage(msg: Message, handlerThrows: bool) returns (answer: Answer)
      modifies this
      ensures answer == if msg.Malformed? || (handlerThrows && Dispatched(msg, old(seen))) then Nack else Ack
      ensures seen == old(seen) + if msg.Malformed? then {} else {msg.eventId}
      ensures Dispatched(msg, old(seen)) && !handlerThrows && Names(msg.payload) ==>
                var k := Key(msg.payload.branch, msg.payload.product);
                && Lookup(entries, k) == Upserted(Lookup(old(entries), k), msg.payload.change)
                && entries - {k} == old(entries) - {k}
      ensures !Dispatched(msg, old(seen)) || handlerThrows || !Names(msg.payload) ==> entries == old(entries)
    {
      if msg.Malformed? {
        return Nack;
      }
      if msg.eventId in seen {
        return Ack;
      }
      seen := seen + {msg.eventId};
      if msg.payload.Product? {
        if handlerThrows {
          return Nack;
        }
        Upsert(msg.payload);
      }
      return Ack;
    }

    /** The two product handlers: read the entry, merge, write it back. */
    method Upsert(p: Payload)
      requires p.Product?
      modifies this`entries
      ensures var k := Key(p.branch, p.product);
              if Names(p) then
                && Lookup(entries, k) == Upserted(Lookup(old(entries), k), p.change)
                && entries - {k} == old(entries) - {k}
              else entries == old(entries)
    {
      if p.branch == 0 || p.product == 0 {
        return;
      }
      var k := Key(p.branch, p.product);
      var merged := if k in entries then entries[k] else EMPTY;
      match p.change {
        case PriceChanged(price) => {
          merged := merged.(price := Some(price));
        }
        case StockChanged(stock, available) => {
          if stock.Some? {
            merged := merged.(stock := stock);
          }
          if available.Some? {
            merged := merged.(available := available);
          }
        }
      }
      entries := entries[k := merged];
    }

    /** getBranchProducts: entries that hold a name are hits; the rest, among them the
        entries that only events have written, is asked from core in one request, and
        what core knows of it is cached. `core` is core's table at that request. */
    method GetBranchProducts(branch: nat, ids: seq<nat>, core: map<nat, Row>) returns (found: map<nat, Entry>)
      modifies this`entries
      ensures forall id | id in ids && Usable(old(entries), Key(branch, id)) :: id in found && found[id] == old(entries)[Key(branch, id)]
      ensures forall id | id in ids && !Usable(old(entries), Key(branch, id)) && id in core :: id in found && found[id] == Full(core[id])
      ensures forall id | id in found :: id in ids && found[id].name.Some? && (Usable(old(entries), Key(branch, id)) || id in core)
      ensures forall k :: Lookup(entries, k) ==
                          if k.branch == branch && k.product in ids && !Usable(old(entries), k) && k.product in core
                          then Some(Full(core[k.product])) else Lookup(old(entries), k)
    {
      found := map[];
      var unique := Unique(ids);
      var misses: seq<nat> := [];
      var i := 0;
      while i < |unique|
        invariant i <= |unique|
        invariant forall id :: id in found <==> id in unique[..i] && Usable(entries, Key(branch, id))
        invariant forall id | id in found :: found[id] == entries[Key(branch, id)]
        invariant forall id :: id in misses <==> id in unique[..i] && !Usable(entries, Key(branch, id))
        invariant entries == old(entries)
      {
        var id := unique[i];
        assert unique[..i + 1] == unique[..i] + [id];
        if Usable(entries, Key(branch, id)) {
          found := found[id := entries[Key(branch, id)]];
        } else {
          misses := misses + [id];
        }
        i := i + 1;
      }
      assert unique[..i] == unique;
      ghost var hits := found;
      i := 0;
      while i < |misses|
        invariant i <= |misses|
        invariant forall id :: id in found <==> id in hits || (id in misses[..i] && id in core)
        invariant forall id | id in hits :: found[id] == hits[id]
        invariant forall id | id in misses[..i] && id in core :: found[id] == Full(core[id])
        invariant forall k :: Lookup(entries, k) ==
                              if k.branch == branch && k.product in misses[..i] && k.product in core
                              then Some(Full(core[k.product])) else Lookup(old(entries), k)
      {
        var id := misses[i];
        assert misses[..i + 1] == misses[..i] + [id];
        if id in core {
          entries := entries[Key(branch, id) := Full(core[id])];
          found := found[id := Full(core[id])];
        }
        i := i + 1;
      }
      assert misses[..i] == misses;
    }
  }
}
