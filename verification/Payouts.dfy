/** Balances and payouts over whole runs. */
module Payouts {
  import opened Common
  import opened OrderStatus
  import opened Tables
  import opened Lifecycle
  import opened Ledger

  /** One row per restaurant and currency, and none below zero. */
  ghost predicate BalancesOk(rows: seq<BalanceRow>) {
    && (forall b | b in rows :: b.balance >= 0)
    && (forall i, j | 0 <= i < j < |rows| :: (rows[i].restaurantId, rows[i].currency) != (rows[j].restaurantId, rows[j].currency))
  }

  lemma UpsertKeepsBalances(rows: seq<BalanceRow>, restaurantId: nat, currency: string, delta: int)
    requires BalancesOk(rows) && delta >= 0
    ensures BalancesOk(UpsertIncrement(rows, restaurantId, currency, delta))
  {
    var r := FindBalance(rows, restaurantId, currency);
    if r.None? {
      assert forall i | 0 <= i < |rows| :: rows[i] in rows;
    }
  }

  lemma DecrementKeepsBalances(rows: seq<BalanceRow>, r: nat, c: string, amount: int)
    requires BalancesOk(rows) && DecrementIfSufficient(rows, r, c, amount).Some?
    ensures BalancesOk(DecrementIfSufficient(rows, r, c, amount).value)
  {
    var i := FindBalance(rows, r, c).value;
    var after := DecrementIfSufficient(rows, r, c, amount).value;
    assert forall j | 0 <= j < |rows| :: rows[j] in rows;
    assert forall b | b in after :: b == after[i] || b in rows;
  }

  lemma StepKeepsBalances(owners: nat -> nat, db: Db, e: Timed)
    requires Inv(owners, db) && BalancesOk(db.balances) && Sound(owners, db, e)
    ensures BalancesOk(After(db, e).balances)
  {
    hide Inv, AssertTransition, ResolveActor, FindActive, Moved, SettlementRows, InsertAllIgnore, HasKey, OwnerOfLatest,
         BalancesOk, UpsertIncrement, DecrementIfSufficient;
    match e.request {
      case Settle(p, a, bps, share) =>
        if p in db.orders && db.orders[p].agent == Some(a) {
          NetIsNotNegative(owners, db, p, bps);
          var o := db.orders[p];
          UpsertKeepsBalances(db.balances, o.restaurantId, o.currency, o.subtotal - CommissionOf(o, bps));
        }
      case RecordPayout(r, c, amount, _) =>
        if DecrementIfSufficient(db.balances, r, c, amount).Some? {
          DecrementKeepsBalances(db.balances, r, c, amount);
        }
      case _ =>
    }
  }

  lemma NetIsNotNegative(owners: nat -> nat, db: Db, p: OrderId, bps: Option<int>)
    requires Inv(owners, db) && p in db.orders && (bps.Some? ==> 0 <= bps.value <= BPS)
    ensures db.orders[p].subtotal - CommissionOf(db.orders[p], bps) >= 0
  {
    assert OrderOk(owners, db, p);
    CommissionWithin(owners, db.orders[p], bps);
  }

  /** No run of settlements and payouts takes a balance below zero. */
  lemma {:induction false} BalancesNeverNegative(owners: nat -> nat, es: seq<Timed>)
    requires SoundRun(owners, es)
    ensures BalancesOk(Run(EMPTY, es).balances)
  {
    if |es| > 0 {
      BalancesNeverNegative(owners, es[..|es| - 1]);
      LedgerIsDetermined(owners, es[..|es| - 1]);
      StepKeepsBalances(owners, Run(EMPTY, es[..|es| - 1]), es[|es| - 1]);
    }
  }

  // ----- the ledger is append-only ------------------------------------------

  lemma {:induction false} InsertAllGrows(ledger: seq<Txn>, rows: seq<Txn>)
    ensures ledger <= InsertAllIgnore(ledger, rows)
    decreases |rows|
  {
    if |rows| > 0 {
      InsertAllGrows(InsertIgnore(ledger, rows[0]), rows[1..]);
    }
  }

  lemma StepGrows(db: Db, e: Timed)
    ensures db.ledger <= After(db, e).ledger
  {
    if e.request.Settle? && e.request.p in db.orders {
      InsertAllGrows(db.ledger, SettlementRows(e.request.p, db.orders[e.request.p], CommissionOf(db.orders[e.request.p], e.request.branchBps)));
    }
  }

  /** Nothing ever rewrites or removes a ledger row, legal run or not. */
  lemma {:induction false} LedgerOnlyGrows(db: Db, es: seq<Timed>, i: nat, j: nat)
    requires i <= j <= |es|
    ensures Run(db, es[..i]).ledger <= Run(db, es[..j]).ledger
    decreases j
  {
    if i < j {
      LedgerOnlyGrows(db, es, i, j - 1);
      assert es[..j][..j - 1] == es[..j - 1];
      StepGrows(Run(db, es[..j - 1]), es[j - 1]);
    }
  }

  /** A payout key takes effect at most once: when two payouts of a run carry one
      key and the first succeeded, the second is refused and, although it may have
      decremented before failing on the unique key, changes nothing. */
  lemma PayoutKeyTakesEffectOnce(db: Db, es: seq<Timed>, i: nat, j: nat)
    requires i < j < |es| && es[i].request.RecordPayout? && es[j].request.RecordPayout?
    requires es[i].request.keyText == es[j].request.keyText
    requires Exec(Run(db, es[..i]), es[i]).outcome == Done
    ensures Exec(Run(db, es[..j]), es[j]).outcome != Done
    ensures Exec(Run(db, es[..j]), es[j]).db == Run(db, es[..j])
  {
    var before, key := Run(db, es[..i]), SuppliedKey(es[i].request.keyText);
    assert es[..i + 1][..i] == es[..i];
    var after := Run(db, es[..i + 1]);
    assert after.ledger[|before.ledger|].key == key;
    LedgerOnlyGrows(db, es, i + 1, j);
    assert Run(db, es[..j]).ledger[|before.ledger|].key == key;
    assert HasKey(Run(db, es[..j]).ledger, key);
  }
}
