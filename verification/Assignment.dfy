/**
 The assignment of one order to an agent, as a state machine whose steps are the
 single Redis commands and SQL statements of the code. Any number of requests
 (agents who accept or reject, admins who override) and of worker processes are at
 work at once; every Redis key may expire at any moment; any process may crash
 between two steps.
 */
module Assignment {
  import opened Common
  import opened OrderStatus

  /** What the requests share: the committed row of the order, and its three keys.
      A missing attempts counter reads as 0, which is how the code reads it. */
  datatype Slot = Slot(status: Status, agent: Option<nat>, offer: Option<seq<nat>>, claim: Option<nat>, attempts: nat)

  /** Where one request stands. `viaOffer` tells an accept from an override. */
  datatype Pc =
    | Entering(agent: nat, viaOffer: bool)
    | Holding(agent: nat, viaOffer: bool)
    | Updated(agent: nat, viaOffer: bool)
    | Won(agent: nat, viaOffer: bool)
    | Failing(deletes: nat)
    | Rejecting(agent: nat, seen: seq<nat>)

  /** Where one worker process stands with this order. */
  datatype WorkerPc = Resting | Selected | SawNoOffer | BelowCap | NoneFound | Found(candidates: seq<nat>) | Offered

  datatype Entry = Claimed(agent: nat, viaOffer: bool) | Released(agent: nat)

  /** `lock` is the request whose open transaction holds the row. The last three
      fields only observe: the committed claims and releases, every agent ever put
      in an offer, and the offers counted since the attempts key last expired. */
  datatype State = State(
    slot: Slot, lock: Option<nat>, requests: map<nat, Pc>, workers: seq<WorkerPc>,
    log: seq<Entry>, offered: set<nat>, broadcasts: nat)

  function Init(workers: nat): State {
    State(Slot(PendingPayment, None, None, None, 0), None, map[], seq(workers, _ => Resting), [], {}, 0)
  }

  datatype RequestOp =
    | ReadOffer(agent: nat)
    | Override(agent: nat)
    | TrySetClaim
    | UpdateRow
    | Commit(acknowledged: bool)
    | CommitFails
    | DeleteClaim
    | DeleteOffer
    | ReadForReject(agent: nat)
    | WriteRejection
    | Crash

  datatype WorkerOp = SelectOrder | CheckOffer | ReadAttempts | Search(found: seq<nat>) | TrySetOffer | Count | CrashWorker

  datatype WorldOp = ClaimExpires | OfferExpires | AttemptsExpire | GoesOffline(agent: nat) | Move(to: Status)

  datatype Step = Request(p: nat, request: RequestOp) | Worker(w: nat, worker: WorkerOp) | World(world: WorldOp)

  function Without(agents: seq<nat>, agent: nat): (rest: seq<nat>)
    ensures forall a :: a in rest <==> a in agents && a != agent
  {
    if agents == [] then []
    else if agents[0] == agent then Without(agents[1..], agent)
    else [agents[0]] + Without(agents[1..], agent)
  }

  /** The others stay in their order. */
  lemma {:induction false} WithoutKeepsOrder(a: seq<nat>, b: seq<nat>, agent: nat)
    ensures Without(a + b, agent) == Without(a, agent) + Without(b, agent)
  {
    if a == [] {
      assert a + b == b;
    } else {
      assert (a + b)[1..] == a[1..] + b;
      WithoutKeepsOrder(a[1..], b, agent);
    }
  }

  /** The offer once `agent` is taken out of the list that was read. */
  function Remaining(seen: seq<nat>, agent: nat): Option<seq<nat>> {
    var rest := Without(seen, agent);
    if rest == [] then None else Some(rest)
  }

  /** The condition of the claiming UPDATE. */
  predicate Claimable(slot: Slot) {
    slot.status == Ready && slot.agent == None
  }

  function Ends(s: State, p: nat): State {
    s.(requests := s.requests - {p}, lock := if s.lock == Some(p) then None else s.lock)
  }

  function At(s: State, p: nat, pc: Pc): State {
    s.(requests := s.requests[p := pc])
  }

  function CommitClaim(s: State, p: nat, agent: nat, viaOffer: bool, next: Pc): State {
    At(s, p, next).(slot := s.slot.(status := Assigned, agent := Some(agent)), lock := None, log := s.log + [Claimed(agent, viaOffer)])
  }

  /** One step of a request that is not under way yet. */
  function DoFirst(s: State, p: nat, op: RequestOp): State {
    match op
    case ReadOffer(agent) =>
      if s.slot.offer.Some? && agent in s.slot.offer.value then At(s, p, Entering(agent, true)) else s
    case Override(agent) => At(s, p, Entering(agent, false))
    case ReadForReject(agent) =>
      if s.slot.offer.Some? && agent in s.slot.offer.value then At(s, p, Rejecting(agent, s.slot.offer.value)) else s
    case _ => s
  }

  /** The next step of a request under way; one out of place changes nothing. The
      UPDATE waits while another transaction holds the row. A request whose UPDATE
      finds nothing deletes the claim key twice, on the spot and in its catch. */
  function DoNext(s: State, p: nat, op: RequestOp): State
    requires p in s.requests
  {
    match (s.requests[p], op)
    case (_, Crash) => Ends(s, p)
    case (Entering(agent, via), TrySetClaim) =>
      if s.slot.claim == None then At(s, p, Holding(agent, via)).(slot := s.slot.(claim := Some(agent))) else Ends(s, p)
    case (Holding(agent, via), UpdateRow) =>
      if s.lock != None then s
      else if Claimable(s.slot) then At(s, p, Updated(agent, via)).(lock := Some(p))
      else At(s, p, Failing(2))
    case (Updated(agent, via), Commit(acknowledged)) =>
      CommitClaim(s, p, agent, via, if acknowledged then Won(agent, via) else Failing(1))
    case (Updated(agent, via), CommitFails) => At(s, p, Failing(1)).(lock := None)
    case (Failing(deletes), DeleteClaim) =>
      var cleared := s.(slot := s.slot.(claim := None));
      if deletes <= 1 then Ends(cleared, p) else At(cleared, p, Failing(deletes - 1))
    case (Won(_, _), DeleteOffer) => Ends(s.(slot := s.slot.(offer := None)), p)
    case (Rejecting(agent, seen), WriteRejection) => Ends(s.(slot := s.slot.(offer := Remaining(seen, agent))), p)
    case _ => s
  }

  /** One step of worker w on this order. The order is picked from a query result,
      so it may have left `ready` by the time the later steps run. */
  function DoWorker(cap: nat, s: State, w: nat, op: WorkerOp): State {
    if w >= |s.workers| then s
    else
      match (s.workers[w], op)
      case (_, CrashWorker) => s.(workers := s.workers[w := Resting])
      case (Resting, SelectOrder) => if Claimable(s.slot) then s.(workers := s.workers[w := Selected]) else s
      case (Selected, CheckOffer) => s.(workers := s.workers[w := if s.slot.offer == None then SawNoOffer else Resting])
      case (SawNoOffer, ReadAttempts) => s.(workers := s.workers[w := if s.slot.attempts < cap then BelowCap else Resting])
      case (BelowCap, Search(found)) => s.(workers := s.workers[w := if found == [] then NoneFound else Found(found)])
      case (Found(candidates), TrySetOffer) =>
        if s.slot.offer == None then
          s.(workers := s.workers[w := Offered], slot := s.slot.(offer := Some(candidates)),
             offered := s.offered + (set a | a in candidates))
        else s.(workers := s.workers[w := Resting])
      case (NoneFound, Count) => s.(workers := s.workers[w := Resting], slot := s.slot.(attempts := s.slot.attempts + 1))
      case (Offered, Count) =>
        s.(workers := s.workers[w := Resting], slot := s.slot.(attempts := s.slot.attempts + 1), broadcasts := s.broadcasts + 1)
      case _ => s
  }

  /** What happens around them: keys expire (a settlement deletes the claim key, which
      looks the same), the agent goes offline, and the order makes any other move of
      the status table. An UPDATE of the row waits for the transaction that holds it. */
  function DoWorld(s: State, op: WorldOp): State {
    match op
    case ClaimExpires => s.(slot := s.slot.(claim := None))
    case OfferExpires => s.(slot := s.slot.(offer := None))
    case AttemptsExpire => s.(slot := s.slot.(attempts := 0), broadcasts := 0)
    case GoesOffline(agent) =>
      if s.lock == None && s.slot.status == Assigned && s.slot.agent == Some(agent) then
        s.(slot := s.slot.(status := Ready, agent := None), log := s.log + [Released(agent)])
      else s
    case Move(to) =>
      if s.lock == None && to != Assigned && Transition(s.slot.status, to).Some? then s.(slot := s.slot.(status := to)) else s
  }

  function Do(cap: nat, s: State, step: Step): State {
    match step
    case Request(p, op) => if p in s.requests then DoNext(s, p, op) else DoFirst(s, p, op)
    case Worker(w, op) => DoWorker(cap, s, w, op)
    case World(op) => DoWorld(s, op)
  }

  function Run(cap: nat, s: State, steps: seq<Step>): State {
    if |steps| == 0 then s else Do(cap, Run(cap, s, steps[..|steps| - 1]), steps[|steps| - 1])
  }

  // ----- one winner per ready period -------------------------------------------

  /** Claims and releases alternate, starting with a claim, and a release names the
      agent of the claim before it. */
  ghost predicate Alternates(log: seq<Entry>) {
    && (forall i | 0 <= i < |log| :: log[i].Claimed? <==> i % 2 == 0)
    && (forall i | 0 < i < |log| && log[i].Released? :: log[i].agent == log[i - 1].agent)
  }

  /** Whom the log leaves with the order. */
  function Holder(log: seq<Entry>): Option<nat> {
    if log == [] || log[|log| - 1].Released? then None else Some(log[|log| - 1].agent)
  }

  predicate Taken(status: Status) {
    status.Assigned? || status.Picked? || status.Delivered?
  }

  ghost predicate RowOk(s: State) {
    && Alternates(s.log)
    && s.slot.agent == Holder(s.log)
    && (Taken(s.slot.status) ==> s.slot.agent.Some?)
    && (!Taken(s.slot.status) && s.slot.status != Cancelled ==> s.slot.agent == None)
  }

  /** The row lock is held by the one request between its UPDATE and its commit,
      and the row it holds is still the one it checked. */
  ghost predicate LockOk(s: State) {
    && (s.lock.Some? ==> s.lock.value in s.requests && s.requests[s.lock.value].Updated? && Claimable(s.slot))
    && (forall p | p in s.requests && s.requests[p].Updated? :: s.lock == Some(p))
    && (forall p | p in s.requests && s.requests[p].Won? :: Claimed(s.requests[p].agent, s.requests[p].viaOffer) in s.log)
  }

  lemma RequestKeepsRow(s: State, p: nat, op: RequestOp)
    requires RowOk(s) && LockOk(s) && p in s.requests
    ensures RowOk(DoNext(s, p, op))
  {
  }

  lemma RequestKeepsLock(s: State, p: nat, op: RequestOp)
    requires LockOk(s) && p in s.requests
    ensures LockOk(DoNext(s, p, op))
  {
  }

  lemma WorldKeepsRow(s: State, op: WorldOp)
    requires RowOk(s) && LockOk(s)
    ensures RowOk(DoWorld(s, op)) && LockOk(DoWorld(s, op))
  {
  }

  lemma FirstKeepsRow(s: State, p: nat, op: RequestOp)
    requires RowOk(s) && LockOk(s) && p !in s.requests
    ensures RowOk(DoFirst(s, p, op)) && LockOk(DoFirst(s, p, op))
  {
  }

  lemma DoKeepsRow(cap: nat, s: State, step: Step)
    requires RowOk(s) && LockOk(s)
    ensures RowOk(Do(cap, s, step)) && LockOk(Do(cap, s, step))
  {
    hide DoNext, DoFirst, DoWorld;
    match step
    case Request(p, op) =>
      if p in s.requests {
        RequestKeepsRow(s, p, op);
        RequestKeepsLock(s, p, op);
      } else {
        FirstKeepsRow(s, p, op);
      }
    case Worker(_, _) =>
    case World(op) => WorldKeepsRow(s, op);
  }

  /** Whatever races: committed claims and releases strictly alternate, beginning
      with a claim, so each ready period has at most one winner; the row names that
      winner until its release; and a request that was told it won did commit. */
  lemma {:induction false} OneWinnerPerReadyPeriod(cap: nat, workers: nat, steps: seq<Step>)
    ensures RowOk(Run(cap, Init(workers), steps)) && LockOk(Run(cap, Init(workers), steps))
  {
    if |steps| > 0 {
      OneWinnerPerReadyPeriod(cap, workers, steps[..|steps| - 1]);
      DoKeepsRow(cap, Run(cap, Init(workers), steps[..|steps| - 1]), steps[|steps| - 1]);
    }
  }

  // ----- winners were offered the order -----------------------------------------

  ghost predicate OffersOk(s: State) {
    && (s.slot.offer.Some? ==> forall a | a in s.slot.offer.value :: a in s.offered)
    && (forall p | p in s.requests :: PcOk(s.requests[p], s.offered))
    && (forall i | 0 <= i < |s.log| && s.log[i].Claimed? && s.log[i].viaOffer :: s.log[i].agent in s.offered)
  }

  ghost predicate PcOk(pc: Pc, offered: set<nat>) {
    match pc
    case Failing(_) => true
    case Rejecting(_, seen) => forall a | a in seen :: a in offered
    case _ => pc.viaOffer ==> pc.agent in offered
  }

  lemma RequestKeepsOffers(s: State, p: nat, op: RequestOp)
    requires OffersOk(s) && p in s.requests
    ensures OffersOk(DoNext(s, p, op))
  {
    var s' := DoNext(s, p, op);
    assert PcOk(s.requests[p], s.offered);
    assert forall q | q in s'.requests && q != p :: q in s.requests && s'.requests[q] == s.requests[q];
    assert forall i | 0 <= i < |s.log| :: s'.log[i] == s.log[i];
  }

  lemma FirstKeepsOffers(s: State, p: nat, op: RequestOp)
    requires OffersOk(s) && p !in s.requests
    ensures OffersOk(DoFirst(s, p, op))
  {
    assert forall q | q in s.requests :: DoFirst(s, p, op).requests[q] == s.requests[q];
  }

  lemma WorkerKeepsOffers(cap: nat, s: State, w: nat, op: WorkerOp)
    requires OffersOk(s)
    ensures OffersOk(DoWorker(cap, s, w, op))
  {
    var s' := DoWorker(cap, s, w, op);
    assert forall p | p in s.requests :: PcOk(s.requests[p], s.offered) ==> PcOk(s.requests[p], s'.offered);
  }

  lemma DoKeepsOffers(cap: nat, s: State, step: Step)
    requires OffersOk(s)
    ensures OffersOk(Do(cap, s, step))
  {
    hide DoNext, DoFirst, DoWorker;
    match step
    case Request(p, op) =>
      if p in s.requests {
        RequestKeepsOffers(s, p, op);
      } else {
        FirstKeepsOffers(s, p, op);
      }
    case Worker(w, op) => WorkerKeepsOffers(cap, s, w, op);
    case World(_) =>
  }

  /** An agent who wins through an accept was in a candidate list for this order,
      even though keys expire, lists are rewritten by rejections and claim keys are
      deleted by requests that never owned them. */
  lemma {:induction false} WinnersWereOffered(cap: nat, workers: nat, steps: seq<Step>)
    ensures OffersOk(Run(cap, Init(workers), steps))
  {
    if |steps| > 0 {
      WinnersWereOffered(cap, workers, steps[..|steps| - 1]);
      DoKeepsOffers(cap, Run(cap, Init(workers), steps[..|steps| - 1]), steps[|steps| - 1]);
    }
  }

  // ----- the cap on attempts ----------------------------------------------------

  /** 1 for a worker that has passed the cap check and not yet counted. */
  function Pending(pc: WorkerPc): nat {
    if pc in {Resting, Selected, SawNoOffer} then 0 else 1
  }

  function InFlight(workers: seq<WorkerPc>): (n: nat)
    ensures n <= |workers|
  {
    if workers == [] then 0 else InFlight(workers[..|workers| - 1]) + Pending(workers[|workers| - 1])
  }

  lemma {:induction false} InFlightUpdate(workers: seq<WorkerPc>, w: nat, pc: WorkerPc)
    requires w < |workers|
    ensures InFlight(workers[w := pc]) == InFlight(workers) - Pending(workers[w]) + Pending(pc)
  {
    var n := |workers| - 1;
    if w == n {
      assert workers[w := pc][..n] == workers[..n];
    } else {
      InFlightUpdate(workers[..n], w, pc);
      assert workers[w := pc][..n] == workers[..n][w := pc];
    }
  }

  ghost predicate CapOk(cap: nat, s: State) {
    && |s.workers| > 0
    && s.slot.attempts + InFlight(s.workers) < cap + |s.workers|
    && s.broadcasts <= s.slot.attempts
  }

  lemma WorkerKeepsCap(cap: nat, s: State, w: nat, op: WorkerOp)
    requires CapOk(cap, s)
    ensures CapOk(cap, DoWorker(cap, s, w, op)) && |DoWorker(cap, s, w, op).workers| == |s.workers|
  {
    hide InFlight;
    if w < |s.workers| {
      var s' := DoWorker(cap, s, w, op);
      InFlightUpdate(s.workers, w, s'.workers[w]);
      assert s'.workers == s.workers[w := s'.workers[w]];
    }
  }

  lemma DoKeepsCap(cap: nat, s: State, step: Step)
    requires CapOk(cap, s)
    ensures CapOk(cap, Do(cap, s, step)) && |Do(cap, s, step).workers| == |s.workers|
  {
    hide DoWorker, InFlight;
    if step.Worker? {
      WorkerKeepsCap(cap, s, step.w, step.worker);
    }
  }

  lemma {:induction false} NoneInFlight(workers: nat)
    ensures InFlight(seq(workers, _ => Resting)) == 0
  {
    if workers > 0 {
      NoneInFlight(workers - 1);
      assert seq(workers, _ => Resting)[..workers - 1] == seq(workers - 1, _ => Resting);
    }
  }

  lemma {:induction false} CapHolds(cap: nat, workers: nat, steps: seq<Step>)
    requires workers > 0
    ensures CapOk(cap, Run(cap, Init(workers), steps)) && |Run(cap, Init(workers), steps).workers| == workers
  {
    if |steps| == 0 {
      NoneInFlight(workers);
    } else {
      CapHolds(cap, workers, steps[..|steps| - 1]);
      DoKeepsCap(cap, Run(cap, Init(workers), steps[..|steps| - 1]), steps[|steps| - 1]);
    }
  }

  /** With W worker processes the attempts counter, and with it the offers counted
      in one lifetime of its key, never exceed the cap plus W - 1. */
  lemma AttemptsAreCapped(cap: nat, workers: nat, steps: seq<Step>)
    requires workers > 0
    ensures var s := Run(cap, Init(workers), steps); s.broadcasts <= s.slot.attempts <= cap + workers - 1
  {
    CapHolds(cap, workers, steps);
  }

  // The bound is reached: all but the last attempt are made one after the other,
  // then every worker passes the cap check before any of them counts.

  lemma {:induction false} RunConcat(cap: nat, s: State, a: seq<Step>, b: seq<Step>)
    ensures Run(cap, s, a + b) == Run(cap, Run(cap, s, a), b)
  {
    if |b| == 0 {
      assert a + b == a;
    } else {
      RunConcat(cap, s, a, b[..|b| - 1]);
      assert (a + b)[..|a + b| - 1] == a + b[..|b| - 1];
    }
  }

  /** The order is ready and on offer to nobody; workers from `lo` up to `hi` are past the
      cap check and the others rest. */
  ghost predicate Poised(s: State, lo: nat, hi: nat, attempts: nat) {
    && lo <= hi <= |s.workers|
    && Claimable(s.slot) && s.slot.offer == None && s.slot.attempts == attempts
    && (forall w | 0 <= w < |s.workers| :: s.workers[w] == if lo <= w < hi then BelowCap else Resting)
  }

  lemma RunOf2(cap: nat, s: State, a: Step, b: Step)
    ensures Run(cap, s, [a, b]) == Do(cap, Do(cap, s, a), b)
  {
    hide Do;
    assert [a, b][..1] == [a] && [a][..0] == [];
    assert Run(cap, s, [a]) == Do(cap, Run(cap, s, []), a);
  }

  lemma RunOf3(cap: nat, s: State, a: Step, b: Step, c: Step)
    ensures Run(cap, s, [a, b, c]) == Do(cap, Do(cap, Do(cap, s, a), b), c)
  {
    hide Do;
    assert [a, b, c][..2] == [a, b];
    RunOf2(cap, s, a, b);
  }

  function ReadySteps(): seq<Step> {
    [World(Move(Placed)), World(Move(Accepted)), World(Move(Preparing)), World(Move(Ready))]
  }

  lemma BecomesReady(cap: nat, workers: nat)
    ensures Poised(Run(cap, Init(workers), ReadySteps()), 0, 0, 0)
    ensures |Run(cap, Init(workers), ReadySteps()).workers| == workers
  {
    var s, steps := Init(workers), ReadySteps();
    RunOf3(cap, s, steps[0], steps[1], steps[2]);
    assert steps[..3] == [steps[0], steps[1], steps[2]];
  }

  /** Worker `hi` goes as far as the cap check. */
  lemma Approach(cap: nat, s: State, hi: nat, attempts: nat) returns (steps: seq<Step>)
    requires Poised(s, 0, hi, attempts) && hi < |s.workers| && attempts < cap
    ensures Poised(Run(cap, s, steps), 0, hi + 1, attempts) && |Run(cap, s, steps).workers| == |s.workers|
  {
    steps := [Worker(hi, SelectOrder), Worker(hi, CheckOffer), Worker(hi, ReadAttempts)];
    RunOf3(cap, s, steps[0], steps[1], steps[2]);
  }

  /** Worker `lo` finds nobody near and counts the attempt. */
  lemma CountEmpty(cap: nat, s: State, lo: nat, hi: nat, attempts: nat) returns (steps: seq<Step>)
    requires Poised(s, lo, hi, attempts) && lo < hi
    ensures Poised(Run(cap, s, steps), lo + 1, hi, attempts + 1) && |Run(cap, s, steps).workers| == |s.workers|
  {
    steps := [Worker(lo, Search([])), Worker(lo, Count)];
    RunOf2(cap, s, steps[0], steps[1]);
  }

  /** One worker alone makes n attempts. */
  lemma {:induction false} AttemptsAlone(cap: nat, s: State, n: nat) returns (steps: seq<Step>)
    requires Poised(s, 0, 0, 0) && n <= cap && |s.workers| > 0
    ensures Poised(Run(cap, s, steps), 0, 0, n) && |Run(cap, s, steps).workers| == |s.workers|
  {
    hide Do;
    if n == 0 {
      steps := [];
    } else {
      var before := AttemptsAlone(cap, s, n - 1);
      var t := Run(cap, s, before);
      var a := Approach(cap, t, 0, n - 1);
      var b := CountEmpty(cap, Run(cap, t, a), 0, 1, n - 1);
      steps := before + (a + b);
      RunConcat(cap, t, a, b);
      RunConcat(cap, s, before, a + b);
    }
  }

  lemma {:induction false} AllApproach(cap: nat, s: State, n: nat, attempts: nat) returns (steps: seq<Step>)
    requires Poised(s, 0, 0, attempts) && n <= |s.workers| && attempts < cap
    ensures Poised(Run(cap, s, steps), 0, n, attempts) && |Run(cap, s, steps).workers| == |s.workers|
  {
    hide Do;
    if n == 0 {
      steps := [];
    } else {
      var before := AllApproach(cap, s, n - 1, attempts);
      var next := Approach(cap, Run(cap, s, before), n - 1, attempts);
      steps := before + next;
      RunConcat(cap, s, before, next);
    }
  }

  lemma {:induction false} AllCount(cap: nat, s: State, hi: nat, n: nat, attempts: nat) returns (steps: seq<Step>)
    requires Poised(s, 0, hi, attempts) && n <= hi
    ensures Poised(Run(cap, s, steps), n, hi, attempts + n)
  {
    hide Do;
    if n == 0 {
      steps := [];
    } else {
      var before := AllCount(cap, s, hi, n - 1, attempts);
      var next := CountEmpty(cap, Run(cap, s, before), n - 1, hi, attempts + n - 1);
      steps := before + next;
      RunConcat(cap, s, before, next);
    }
  }

  /** The cap is overshot by exactly W - 1: for every cap and every number of workers
      some run ends with that many attempts. */
  lemma CapIsExact(cap: nat, workers: nat)
    requires cap > 0 && workers > 0
    ensures exists steps :: Run(cap, Init(workers), steps).slot.attempts == cap + workers - 1
  {
    hide Do;
    BecomesReady(cap, workers);
    var ready := Run(cap, Init(workers), ReadySteps());
    var alone := AttemptsAlone(cap, ready, cap - 1);
    var last := Run(cap, ready, alone);
    var together := AllApproach(cap, last, workers, cap - 1);
    var counts := AllCount(cap, Run(cap, last, together), workers, workers, cap - 1);
    RunConcat(cap, last, together, counts);
    RunConcat(cap, ready, alone, together + counts);
    RunConcat(cap, Init(workers), ReadySteps(), alone + (together + counts));
  }

  // ----- what the Redis keys alone do not give ------------------------------------

  ghost predicate Holds(s: State, p: nat) {
    p in s.requests && (s.requests[p].Holding? || s.requests[p].Updated?)
  }

  /** The claim key works as a lock: one request holds it, and while it does the key
      is there and names its agent. */
  ghost predicate Exclusive(s: State) {
    forall p | Holds(s, p) :: s.slot.claim == Some(s.requests[p].agent) && forall q | Holds(s, q) :: p == q
  }

  /** The two steps that take a key away under its holder: expiry, and the delete of
      a request that failed. */
  ghost predicate TakesKeyAway(s: State, step: Step) {
    && (exists p :: Holds(s, p))
    && (step == World(ClaimExpires)
        || (step.Request? && step.request == DeleteClaim && step.p in s.requests && s.requests[step.p].Failing?))
  }

  /** A step after which the holders are those before, and the key is as it was if
      there is one. */
  lemma SameHolders(s: State, s': State)
    requires Exclusive(s)
    requires forall q | Holds(s', q) :: Holds(s, q) && s'.requests[q].agent == s.requests[q].agent
    requires (exists q :: Holds(s', q)) ==> s'.slot.claim == s.slot.claim
    ensures Exclusive(s')
  {
  }

  /** Only the step that sets the key makes a new holder. */
  lemma NextKeepsHolders(s: State, p: nat, op: RequestOp)
    requires p in s.requests && op != TrySetClaim
    ensures var s' := DoNext(s, p, op);
            && (forall q | Holds(s', q) :: Holds(s, q) && s'.requests[q].agent == s.requests[q].agent)
            && (s'.slot.claim == s.slot.claim || (op == DeleteClaim && s.requests[p].Failing? && s'.slot.claim == None))
            && (s.requests[p].Failing? ==> forall q | Holds(s, q) :: Holds(s', q))
  {
  }

  lemma TrySetKeepsExclusive(s: State, p: nat)
    requires Exclusive(s) && p in s.requests
    ensures Exclusive(DoNext(s, p, TrySetClaim))
  {
  }

  lemma RequestKeepsExclusive(s: State, p: nat, op: RequestOp)
    requires Exclusive(s) && p in s.requests
    ensures Exclusive(DoNext(s, p, op)) <==> !((exists q :: Holds(s, q)) && op == DeleteClaim && s.requests[p].Failing?)
  {
    if op == TrySetClaim {
      TrySetKeepsExclusive(s, p);
    } else {
      var s' := DoNext(s, p, op);
      NextKeepsHolders(s, p, op);
      if op == DeleteClaim && s.requests[p].Failing? && exists q :: Holds(s, q) {
        var q :| Holds(s, q);
        assert Holds(s', q) && s'.slot.claim == None;
      } else {
        hide DoNext;
        SameHolders(s, s');
      }
    }
  }

  lemma KeyIsExclusiveExactlyWhen(cap: nat, s: State, step: Step)
    requires Exclusive(s)
    ensures Exclusive(Do(cap, s, step)) <==> !TakesKeyAway(s, step)
  {
    match step
    case Request(p, op) =>
      if p in s.requests {
        RequestKeepsExclusive(s, p, op);
        hide DoNext, Exclusive;
      } else {
        assert forall q | Holds(DoFirst(s, p, op), q) :: q != p && Holds(s, q);
        SameHolders(s, DoFirst(s, p, op));
        hide DoFirst, Exclusive;
      }
    case Worker(w, op) =>
      SameHolders(s, DoWorker(cap, s, w, op));
    case World(op) =>
      assert forall q :: Holds(DoWorld(s, op), q) <==> Holds(s, q);
      if TakesKeyAway(s, step) {
        var q :| Holds(s, q);
        assert Holds(DoWorld(s, op), q) && DoWorld(s, op).slot.claim == None;
      } else {
        SameHolders(s, DoWorld(s, op));
      }
  }

  /** An override for agent 7, made while the order is still being prepared, fails at
      its UPDATE with its claim key set. */
  function EarlyOverride(): seq<Step> {
    [Request(1, Override(7)), Request(1, TrySetClaim), Request(1, UpdateRow)]
  }

  /** The order becomes ready and is offered to agents 8 and 9. */
  function OfferSteps(): seq<Step> {
    [World(Move(Ready)), Worker(0, SelectOrder), Worker(0, CheckOffer)]
    + [Worker(0, ReadAttempts), Worker(0, Search([8, 9])), Worker(0, TrySetOffer)]
  }

  /** Both accept, around the two deletes of the failed override. */
  function AcceptSteps(): seq<Step> {
    [Request(2, ReadOffer(8)), Request(3, ReadOffer(9)), Request(1, DeleteClaim)]
    + [Request(2, TrySetClaim), Request(1, DeleteClaim), Request(3, TrySetClaim)]
  }

  lemma OfferAppears(cap: nat, s: State)
    requires s.lock == None && s.slot.status == Preparing && s.slot.agent == None && s.slot.offer == None
    requires |s.workers| > 0 && s.workers[0] == Resting && s.slot.attempts < cap
    ensures var t := Run(cap, s, OfferSteps()); t.requests == s.requests && t.slot.claim == s.slot.claim && t.slot.offer == Some([8, 9])
  {
    var e := OfferSteps();
    RunConcat(cap, s, e[..3], e[3..]);
    assert e == e[..3] + e[3..] && e[..3] == [e[0], e[1], e[2]] && e[3..] == [e[3], e[4], e[5]];
    RunOf3(cap, s, e[0], e[1], e[2]);
    RunOf3(cap, Run(cap, s, e[..3]), e[3], e[4], e[5]);
  }

  lemma BothHold(cap: nat, s: State)
    requires s.requests == map[1 := Failing(2)] && s.slot.offer == Some([8, 9])
    ensures var t := Run(cap, s, AcceptSteps()); Holds(t, 2) && Holds(t, 3)
  {
    var e := AcceptSteps();
    RunConcat(cap, s, e[..3], e[3..]);
    assert e == e[..3] + e[3..] && e[..3] == [e[0], e[1], e[2]] && e[3..] == [e[3], e[4], e[5]];
    RunOf3(cap, s, e[0], e[1], e[2]);
    RunOf3(cap, Run(cap, s, e[..3]), e[3], e[4], e[5]);
  }

  /** Without any expiry or crash two requests can hold the claim key at once: the
      second delete of a failed request takes the key of the agent who accepted
      after its first. */
  lemma ClaimKeyIsNotALock(cap: nat, s: State)
    requires s.requests == map[] && s.lock == None && s.slot.status == Preparing && s.slot.claim == None && s.slot.offer == None
    requires |s.workers| > 0 && s.workers[0] == Resting && s.slot.attempts < cap && s.slot.agent == None
    ensures var t := Run(cap, s, EarlyOverride() + (OfferSteps() + AcceptSteps())); Holds(t, 2) && Holds(t, 3)
  {
    var e := EarlyOverride();
    RunOf3(cap, s, e[0], e[1], e[2]);
    var s1 := Run(cap, s, e);
    assert s1.requests == map[1 := Failing(2)];
    hide Do;
    OfferAppears(cap, s1);
    BothHold(cap, Run(cap, s1, OfferSteps()));
    RunConcat(cap, s1, OfferSteps(), AcceptSteps());
    RunConcat(cap, s, e, OfferSteps() + AcceptSteps());
  }

  lemma RejectionsInTurn(cap: nat, s: State, p: nat, q: nat, a: nat, b: nat, seen: seq<nat>)
    requires p != q && p !in s.requests && q !in s.requests
    requires s.slot.offer == Some(seen) && a in seen && b in seen && a != b
    ensures var t := Run(cap, s, [Request(p, ReadForReject(a)), Request(p, WriteRejection), Request(q, ReadForReject(b)), Request(q, WriteRejection)]);
            t.slot.offer == Remaining(Without(seen, a), b)
  {
    var readP, writeP := Request(p, ReadForReject(a)), Request(p, WriteRejection);
    var readQ, writeQ := Request(q, ReadForReject(b)), Request(q, WriteRejection);
    assert [readP, writeP, readQ, writeQ][..3] == [readP, writeP, readQ];
    RunOf3(cap, s, readP, writeP, readQ);
    hide Without;
    assert b in Without(seen, a);
  }

  lemma RejectionsAtOnce(cap: nat, s: State, p: nat, q: nat, a: nat, b: nat, seen: seq<nat>)
    requires p != q && p !in s.requests && q !in s.requests
    requires s.slot.offer == Some(seen) && a in seen && b in seen && a != b
    ensures var t := Run(cap, s, [Request(p, ReadForReject(a)), Request(q, ReadForReject(b)), Request(p, WriteRejection), Request(q, WriteRejection)]);
            t.slot.offer.Some? && a in t.slot.offer.value
  {
    var readP, writeP := Request(p, ReadForReject(a)), Request(p, WriteRejection);
    var readQ, writeQ := Request(q, ReadForReject(b)), Request(q, WriteRejection);
    assert [readP, readQ, writeP, writeQ][..3] == [readP, readQ, writeP];
    RunOf3(cap, s, readP, readQ, writeP);
    hide Without;
  }

  /** Two agents who reject the same offer both leave it if one rejection ends before
      the other begins. If both read before either writes, the first one's write is
      lost and that agent is back in the offer. */
  lemma TwoRejections(cap: nat, s: State, p: nat, q: nat, a: nat, b: nat, seen: seq<nat>)
    requires p != q && p !in s.requests && q !in s.requests
    requires s.slot.offer == Some(seen) && a in seen && b in seen && a != b
    ensures var t := Run(cap, s, [Request(p, ReadForReject(a)), Request(p, WriteRejection), Request(q, ReadForReject(b)), Request(q, WriteRejection)]);
            t.slot.offer == Remaining(Without(seen, a), b)
    ensures var t := Run(cap, s, [Request(p, ReadForReject(a)), Request(q, ReadForReject(b)), Request(p, WriteRejection), Request(q, WriteRejection)]);
            t.slot.offer.Some? && a in t.slot.offer.value
  {
    RejectionsInTurn(cap, s, p, q, a, b, seen);
    RejectionsAtOnce(cap, s, p, q, a, b, seen);
  }
}
