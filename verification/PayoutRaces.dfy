/**
 Payouts and settlements of one region racing at the grain of single statements:
 each statement sees the latest committed rows, and waits while another open
 transaction holds the balance row it writes or the unique key it inserts. This is
 PostgreSQL at its default isolation level, READ COMMITTED.
 */
module PayoutRaces {
  import opened Common
  import opened Tables
  import opened Lifecycle
  import opened Ledger
  import opened Payouts
  import opened Answers

  /** What a transaction is to do to the balance of a restaurant in one currency. */
  datatype Op =
    | PayOf(restaurantId: nat, currency: string, ownerId: nat, amount: int, keyText: string)
    | CreditOf(restaurantId: nat, currency: string, delta: int)

  datatype Stage = Begun | RowWritten | KeyWritten

  datatype Trx = Trx(op: Op, stage: Stage)

  datatype Money = Money(balances: seq<BalanceRow>, ledger: seq<Txn>)

  /** Committed rows, open transactions, and, as an observer, the committed ones in
      the order of their commits. */
  datatype State = State(money: Money, open: map<nat, Trx>, committed: seq<Op>)

  const START := State(Money([], []), map[], [])

  datatype Step = Begin(t: nat, op: Op) | WriteRow(t: nat) | WriteKey(t: nat) | Commit(t: nat) | Abort(t: nat)

  predicate SameRow(a: Op, b: Op) {
    a.restaurantId == b.restaurantId && a.currency == b.currency
  }

  /** Another open transaction has written the row, or the key, that `op` wants. */
  predicate RowHeld(s: State, t: nat, op: Op) {
    exists u | u in s.open :: u != t && s.open[u].stage != Begun && SameRow(s.open[u].op, op)
  }

  predicate KeyHeld(s: State, t: nat, op: Op) {
    exists u | u in s.open :: u != t && s.open[u].stage == KeyWritten && op.PayOf? && s.open[u].op.PayOf? && s.open[u].op.keyText == op.keyText
  }

  function Decremented(m: Money, op: Op): Option<seq<BalanceRow>>
    requires op.PayOf?
  {
    DecrementIfSufficient(m.balances, op.restaurantId, op.currency, op.amount)
  }

  /** The whole transaction at once; None when it is refused. */
  function Atomic(m: Money, op: Op): Option<Money> {
    match op
    case CreditOf(r, c, delta) => Some(Money(UpsertIncrement(m.balances, r, c, delta), m.ledger))
    case PayOf(r, c, owner, amount, key) =>
      match Decremented(m, op)
      case None => None
      case Some(balances) =>
        if HasKey(m.ledger, SuppliedKey(key)) then None
        else Some(Money(balances, m.ledger + [PayoutRow(owner, c, amount, key)]))
  }

  function Staged(s: State, t: nat, stage: Stage): State
    requires t in s.open
  {
    s.(open := s.open[t := s.open[t].(stage := stage)])
  }

  /** A commit publishes what the transaction wrote: the balance row as its UPDATE
      left it and, for a payout, the ledger row. A decrement that finds too little
      and an insert that meets a committed key end in a rollback. */
  function Do(s: State, step: Step): State {
    match step
    case Begin(t, op) => if t in s.open then s else s.(open := s.open[t := Trx(op, Begun)])
    case Abort(t) => s.(open := s.open - {t})
    case WriteRow(t) =>
      if t !in s.open || s.open[t].stage != Begun || RowHeld(s, t, s.open[t].op) then s
      else if s.open[t].op.PayOf? && Decremented(s.money, s.open[t].op) == None then s.(open := s.open - {t})
      else Staged(s, t, RowWritten)
    case WriteKey(t) =>
      if t !in s.open || s.open[t].stage != RowWritten || s.open[t].op.CreditOf? || KeyHeld(s, t, s.open[t].op) then s
      else if HasKey(s.money.ledger, SuppliedKey(s.open[t].op.keyText)) then s.(open := s.open - {t})
      else Staged(s, t, KeyWritten)
    case Commit(t) =>
      if t !in s.open || s.open[t].stage != (if s.open[t].op.PayOf? then KeyWritten else RowWritten) then s
      else State(Published(s.money, s.open[t].op), s.open - {t}, s.committed + [s.open[t].op])
  }

  /** The rows a committing transaction publishes, its checks being past. */
  function Published(m: Money, op: Op): Money {
    match op
    case CreditOf(r, c, delta) => Money(UpsertIncrement(m.balances, r, c, delta), m.ledger)
    case PayOf(r, c, owner, amount, key) =>
      Money(UpsertIncrement(m.balances, r, c, -amount), m.ledger + [PayoutRow(owner, c, amount, key)])
  }

  function Run(s: State, steps: seq<Step>): State {
    if |steps| == 0 then s else Do(Run(s, steps[..|steps| - 1]), steps[|steps| - 1])
  }

  /** The transactions one after the other, each at once; None when one is refused. */
  function Serial(ops: seq<Op>): Option<Money> {
    if |ops| == 0 then Some(Money([], []))
    else
      match Serial(ops[..|ops| - 1])
      case None => None
      case Some(m) => Atomic(m, ops[|ops| - 1])
  }

  // ----- locks keep what the statements checked ------------------------------------------

  ghost predicate TrxOk(s: State, t: nat)
    requires t in s.open
  {
    var op, stage := s.open[t].op, s.open[t].stage;
    && (stage != Begun ==> !RowHeld(s, t, op) && (op.PayOf? ==> Decremented(s.money, op).Some?))
    && (stage == KeyWritten ==> op.PayOf? && !KeyHeld(s, t, op) && !HasKey(s.money.ledger, SuppliedKey(op.keyText)))
  }

  ghost predicate RaceInv(s: State) {
    && (forall t | t in s.open :: TrxOk(s, t))
    && Serial(s.committed) == Some(s.money)
  }

  /** A row keeps its balance while other rows change. */
  lemma OtherRowStays(rows: seq<BalanceRow>, r: nat, c: string, delta: int, r': nat, c': string, amount: int)
    requires (r, c) != (r', c')
    ensures DecrementIfSufficient(UpsertIncrement(rows, r, c, delta), r', c', amount).Some?
        <==> DecrementIfSufficient(rows, r', c', amount).Some?
  {
    match FindBalance(rows, r, c)
    case None => {
      var row := BalanceRow(r, c, delta);
      assert (rows + [row])[..|rows|] == rows;
    }
    case Some(i) => FindIgnoresOthers(rows, i, rows[i].balance + delta, r', c');
  }

  lemma {:induction false} FindIgnoresOthers(rows: seq<BalanceRow>, i: nat, balance: int, r: nat, c: string)
    requires i < |rows| && (rows[i].restaurantId, rows[i].currency) != (r, c)
    ensures FindBalance(rows[i := rows[i].(balance := balance)], r, c) == FindBalance(rows, r, c)
  {
    var n := |rows| - 1;
    var updated := rows[i := rows[i].(balance := balance)];
    if i < n {
      FindIgnoresOthers(rows[..n], i, balance, r, c);
      assert updated[..n] == rows[..n][i := rows[i].(balance := balance)];
    } else {
      assert updated[..n] == rows[..n];
    }
  }

  /** What a decrement that finds enough does is what the increment by -amount does. */
  lemma DecrementIsIncrement(rows: seq<BalanceRow>, r: nat, c: string, amount: int)
    requires DecrementIfSufficient(rows, r, c, amount).Some?
    ensures DecrementIfSufficient(rows, r, c, amount).value == UpsertIncrement(rows, r, c, -amount)
  {
  }

  lemma CommitIsAtomic(s: State, t: nat)
    requires RaceInv(s) && t in s.open && s.open[t].stage == (if s.open[t].op.PayOf? then KeyWritten else RowWritten)
    ensures Atomic(s.money, s.open[t].op) == Some(Published(s.money, s.open[t].op))
    ensures Serial(s.committed + [s.open[t].op]) == Some(Published(s.money, s.open[t].op))
  {
    var op := s.open[t].op;
    assert TrxOk(s, t);
    if op.PayOf? {
      DecrementIsIncrement(s.money.balances, op.restaurantId, op.currency, op.amount);
    }
    assert (s.committed + [op])[..|s.committed|] == s.committed;
  }

  lemma CommitKeepsOthers(s: State, t: nat, u: nat)
    requires RaceInv(s) && t in s.open && s.open[t].stage == (if s.open[t].op.PayOf? then KeyWritten else RowWritten)
    requires u in s.open && u != t
    ensures TrxOk(Do(s, Commit(t)), u)
  {
    var op, other := s.open[t].op, s.open[u].op;
    var s' := Do(s, Commit(t));
    assert TrxOk(s, t) && TrxOk(s, u);
    if s.open[u].stage != Begun {
      assert !SameRow(op, other);
      var delta := if op.PayOf? then -op.amount else op.delta;
      if other.PayOf? {
        OtherRowStays(s.money.balances, op.restaurantId, op.currency, delta, other.restaurantId, other.currency, other.amount);
      }
      if s.open[u].stage == KeyWritten && op.PayOf? {
        assert op.keyText != other.keyText;
        KeyInAppended(s.money.ledger, PayoutRow(op.ownerId, op.currency, op.amount, op.keyText), SuppliedKey(other.keyText));
      }
    }
    assert forall v | v in s'.open :: v in s.open && s'.open[v] == s.open[v];
  }

  lemma DoKeepsInv(s: State, step: Step)
    requires RaceInv(s)
    ensures RaceInv(Do(s, step))
  {
    var s', t := Do(s, step), step.t;
    if step.Commit? && s' != s {
      CommitIsAtomic(s, t);
      forall u | u in s'.open
        ensures TrxOk(s', u)
      {
        CommitKeepsOthers(s, t, u);
      }
    } else {
      assert s'.money == s.money;
      forall u | u in s'.open
        ensures TrxOk(s', u)
      {
        assert u in s.open ==> TrxOk(s, u);
        assert forall v | v in s'.open && v != t :: v in s.open && s'.open[v] == s.open[v];
      }
    }
  }

  /** However payouts and settlements interleave, block, fail and roll back, the
      committed balances and ledger are those of the committed transactions run one
      at a time in the order of their commits, with every check repeated there. */
  lemma {:induction false} RacesAreSerial(steps: seq<Step>)
    ensures Serial(Run(START, steps).committed) == Some(Run(START, steps).money)
    ensures RaceInv(Run(START, steps))
  {
    if |steps| > 0 {
      RacesAreSerial(steps[..|steps| - 1]);
      DoKeepsInv(Run(START, steps[..|steps| - 1]), steps[|steps| - 1]);
    }
  }

  // ----- what follows ---------------------------------------------------------------------

  predicate CreditsOnly(ops: seq<Op>) {
    forall i | 0 <= i < |ops| && ops[i].CreditOf? :: ops[i].delta >= 0
  }

  lemma {:induction false} SerialKeepsBalances(ops: seq<Op>)
    requires Serial(ops).Some? && CreditsOnly(ops)
    ensures BalancesOk(Serial(ops).value.balances)
  {
    hide BalancesOk, UpsertIncrement, DecrementIfSufficient, HasKey;
    if |ops| == 0 {
      NoBalances();
    } else {
      SerialKeepsBalances(ops[..|ops| - 1]);
      var m := Serial(ops[..|ops| - 1]).value;
      match ops[|ops| - 1] {
        case CreditOf(r, c, delta) => UpsertKeepsBalances(m.balances, r, c, delta);
        case PayOf(r, c, owner, amount, key) => DecrementKeepsBalances(m.balances, r, c, amount);
      }
    }
  }

  lemma NoBalances()
    ensures BalancesOk([])
  {
  }

  lemma {:induction false} SerialKeysOnce(ops: seq<Op>)
    requires Serial(ops).Some?
    ensures forall i | 0 <= i < |ops| && ops[i].PayOf? :: HasKey(Serial(ops).value.ledger, SuppliedKey(ops[i].keyText))
    ensures forall i, j | 0 <= i < j < |ops| && ops[i].PayOf? && ops[j].PayOf? :: ops[i].keyText != ops[j].keyText
  {
    hide UpsertIncrement, DecrementIfSufficient, HasKey;
    if |ops| > 0 {
      var n := |ops| - 1;
      SerialKeysOnce(ops[..n]);
      assert forall i | 0 <= i < n :: ops[..n][i] == ops[i];
      var m := Serial(ops[..n]).value;
      if ops[n].PayOf? {
        var row := PayoutRow(ops[n].ownerId, ops[n].currency, ops[n].amount, ops[n].keyText);
        forall i | 0 <= i < |ops| && ops[i].PayOf?
          ensures HasKey(m.ledger + [row], SuppliedKey(ops[i].keyText))
        {
          KeyInAppended(m.ledger, row, SuppliedKey(ops[i].keyText));
        }
      }
    }
  }

  /** Under any interleaving no balance goes below zero, and of all the payouts that
      carry one key at most one commits. */
  lemma RacesNeverOverdraw(steps: seq<Step>)
    requires CreditsOnly(Run(START, steps).committed)
    ensures BalancesOk(Run(START, steps).money.balances)
    ensures var ops := Run(START, steps).committed;
            forall i, j | 0 <= i < j < |ops| && ops[i].PayOf? && ops[j].PayOf? :: ops[i].keyText != ops[j].keyText
  {
    RacesAreSerial(steps);
    SerialKeepsBalances(Run(START, steps).committed);
    SerialKeysOnce(Run(START, steps).committed);
  }

  /** The atomic payout is the one of the lifecycle. */
  lemma PayoutIsAtomic(db: Db, restaurantId: nat, currency: string, amount: int, keyText: string)
    requires OwnerOfLatest(db.created, db.orders, restaurantId).Some? && OwnerOfLatest(db.created, db.orders, restaurantId).value != 0
    ensures var owner := OwnerOfLatest(db.created, db.orders, restaurantId).value;
            var reply := PayOut(db, restaurantId, currency, amount, keyText);
            var after := Atomic(Money(db.balances, db.ledger), PayOf(restaurantId, currency, owner, amount, keyText));
            && (reply.outcome == Done <==> after.Some?)
            && Money(reply.db.balances, reply.db.ledger) == if after.Some? then after.value else Money(db.balances, db.ledger)
  {
  }

  function LonePayout(t: nat, op: Op): seq<Step> {
    [Begin(t, op)] + [WriteRow(t)] + [WriteKey(t)] + [Commit(t)]
  }

  lemma RunOfPayout(s: State, t: nat, op: Op)
    ensures Run(s, LonePayout(t, op)) == Do(Do(Do(Do(s, Begin(t, op)), WriteRow(t)), WriteKey(t)), Commit(t))
  {
    hide Do;
    var a, b, c, d := Begin(t, op), WriteRow(t), WriteKey(t), Commit(t);
    assert [a] + [b] + [c] + [d] == [a, b, c, d] && [a][..0] == [] && [a, b][..1] == [a] && [a, b, c][..2] == [a, b] && [a, b, c, d][..3] == [a, b, c];
    assert Run(s, [a]) == Do(Run(s, []), a);
    assert Run(s, [a, b]) == Do(Run(s, [a]), b);
    assert Run(s, [a, b, c]) == Do(Run(s, [a, b]), c);
  }

  /** One transaction open and no other. */
  function Alone(s: State, t: nat, op: Op, stage: Stage): State {
    s.(open := map[t := Trx(op, stage)])
  }

  lemma AloneStages(s: State, t: nat, op: Op, stage: Stage, next: Stage)
    requires s.open == map[]
    ensures Staged(Alone(s, t, op, stage), t, next) == Alone(s, t, op, next)
    ensures Alone(s, t, op, stage).(open := Alone(s, t, op, stage).open - {t}) == s
    ensures !RowHeld(Alone(s, t, op, stage), t, op) && !KeyHeld(Alone(s, t, op, stage), t, op)
  {
    assert map[t := Trx(op, stage)] - {t} == map[];
    assert map[t := Trx(op, stage)][t := Trx(op, next)] == map[t := Trx(op, next)];
  }

  lemma AloneWrites(s: State, t: nat, op: Op)
    requires s.open == map[] && op.PayOf?
    ensures Do(Alone(s, t, op, Begun), WriteRow(t)) == if Decremented(s.money, op).Some? then Alone(s, t, op, RowWritten) else s
    ensures Do(Alone(s, t, op, RowWritten), WriteKey(t)) == if HasKey(s.money.ledger, SuppliedKey(op.keyText)) then s else Alone(s, t, op, KeyWritten)
  {
    AloneStages(s, t, op, Begun, RowWritten);
    AloneStages(s, t, op, RowWritten, KeyWritten);
    hide RowHeld, KeyHeld, Staged, Decremented, HasKey;
  }

  lemma AloneCommits(s: State, t: nat, op: Op)
    requires s.open == map[] && op.PayOf? && Decremented(s.money, op).Some? && !HasKey(s.money.ledger, SuppliedKey(op.keyText))
    ensures Do(Alone(s, t, op, KeyWritten), Commit(t)) == State(Atomic(s.money, op).value, map[], s.committed + [op])
  {
    AloneStages(s, t, op, KeyWritten, KeyWritten);
    DecrementIsIncrement(s.money.balances, op.restaurantId, op.currency, op.amount);
    hide DecrementIfSufficient, UpsertIncrement, HasKey, RowHeld, KeyHeld;
  }

  /** With no other transaction open, the four statements of a payout do the whole at once
      or nothing. */
  lemma LonePayoutIsAtomic(s: State, t: nat, op: Op)
    requires s.open == map[] && op.PayOf?
    ensures var after := Atomic(s.money, op);
            Run(s, LonePayout(t, op)) == if after.Some? then State(after.value, map[], s.committed + [op]) else s
  {
    RunOfPayout(s, t, op);
    assert s.open[t := Trx(op, Begun)] == map[t := Trx(op, Begun)];
    assert Do(s, Begin(t, op)) == Alone(s, t, op, Begun);
    assert Do(s, WriteKey(t)) == s && Do(s, Commit(t)) == s;
    AloneWrites(s, t, op);
    if Decremented(s.money, op).Some? && !HasKey(s.money.ledger, SuppliedKey(op.keyText)) {
      AloneCommits(s, t, op);
    }
    hide Do, Run, Decremented, HasKey, LonePayout, Alone;
  }

  /** A payout with no other transaction open commits exactly when the balance covers
      the amount and the key is new; then that balance falls by the amount and the row
      is booked, else nothing has changed. */
  lemma LonePayoutCommitsExactlyWhen(s: State, t: nat, restaurantId: nat, currency: string, ownerId: nat, amount: int, keyText: string)
    requires s.open == map[] && OneRowEach(s.money.balances)
    ensures var op := PayOf(restaurantId, currency, ownerId, amount, keyText);
            var s' := Run(s, LonePayout(t, op));
            var covered := Covers(s.money.balances, restaurantId, currency, amount);
            var free := forall x | x in s.money.ledger :: x.key != SuppliedKey(keyText);
            && s'.open == map[]
            && (covered && free ==>
                  && s'.committed == s.committed + [op]
                  && FallsBy(s.money.balances, s'.money.balances, restaurantId, currency, amount)
                  && s'.money.ledger == s.money.ledger + [Txn(None, Payout, TxnSucceeded, amount, currency, None, Some(ownerId), SuppliedKey(keyText))])
            && (!(covered && free) ==> s' == s)
  {
    LonePayoutIsAtomic(s, t, PayOf(restaurantId, currency, ownerId, amount, keyText));
    DecrementExactlyWhen(s.money.balances, restaurantId, currency, amount);
    KeyIsFree(s.money.ledger, SuppliedKey(keyText));
    hide Covers, FallsBy, OneRowEach, DecrementIfSufficient, HasKey, Run;
  }
}
