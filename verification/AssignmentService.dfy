/** The assignment service of one region, with its Redis keys and the columns of
    `orders` it reads and writes. */
module AssignmentService {
  import opened Common
  import opened OrderStatus
  import opened Assignment

  datatype Row = Row(status: Status, agent: Option<nat>)

  /** Replies to accept and override; the errors in the order they are checked. */
  datatype Outcome = Granted | OfferNotFoundOrExpired | NotInCandidateList | OrderAlreadyClaimed | OrderNotInReadyState | CommitFailed

  datatype Attempt = OfferedTo(candidates: seq<nat>) | Skipped | Exhausted | NoCandidates

  // ----- what each request does when no other is under way -----------------------

  /** The part accept and override share, once the claim key is free. */
  function ForceClaim(slot: Slot, agent: nat, commits: bool): (Slot, Outcome) {
    if slot.claim != None then (slot, OrderAlreadyClaimed)
    else if !Claimable(slot) then (slot, OrderNotInReadyState)
    else if !commits then (slot, CommitFailed)
    else (slot.(status := Assigned, agent := Some(agent), claim := Some(agent), offer := None), Granted)
  }

  function Accept(slot: Slot, agent: nat, commits: bool): (Slot, Outcome) {
    if slot.offer == None then (slot, OfferNotFoundOrExpired)
    else if agent !in slot.offer.value then (slot, NotInCandidateList)
    else ForceClaim(slot, agent, commits)
  }

  function Reject(slot: Slot, agent: nat): (Slot, Option<Outcome>) {
    if slot.offer == None then (slot, Some(OfferNotFoundOrExpired))
    else if agent !in slot.offer.value then (slot, Some(NotInCandidateList))
    else (slot.(offer := Remaining(slot.offer.value, agent)), None)
  }

  function TryOffer(cap: nat, slot: Slot, candidates: seq<nat>): (Slot, Attempt) {
    if slot.offer != None then (slot, Skipped)
    else if slot.attempts >= cap then (slot, Exhausted)
    else if candidates == [] then (slot.(attempts := slot.attempts + 1), NoCandidates)
    else (slot.(offer := Some(candidates), attempts := slot.attempts + 1), OfferedTo(candidates))
  }

  predicate Offers(cap: nat, slot: Slot, candidates: seq<nat>) {
    TryOffer(cap, slot, candidates).1.OfferedTo?
  }

  /** An accept is granted exactly to an agent on the offer, with the claim key free, the
      row ready and without an agent, and the commit done; it leaves the row and the key
      with that agent and no offer. A refusal leaves everything as it was. */
  lemma AcceptGrantedExactlyWhen(slot: Slot, agent: nat, commits: bool)
    ensures var (slot', outcome) := Accept(slot, agent, commits);
            && (outcome == Granted <==>
                  && slot.offer.Some? && agent in slot.offer.value && slot.claim == None
                  && slot.status == Ready && slot.agent == None && commits)
            && (outcome != Granted ==> slot' == slot)
            && (outcome == Granted ==> slot' == Slot(Assigned, Some(agent), None, Some(agent), slot.attempts))
            && (outcome == OrderAlreadyClaimed <==> slot.offer.Some? && agent in slot.offer.value && slot.claim.Some?)
  {
  }

  /** A rejection is taken exactly from an agent on the offer. It leaves the others on it,
      and no offer when there are none; nothing else changes. */
  lemma RejectDoneExactlyWhen(slot: Slot, agent: nat)
    ensures var (slot', error) := Reject(slot, agent);
            && (error == None <==> slot.offer.Some? && agent in slot.offer.value)
            && (error == Some(OfferNotFoundOrExpired) <==> slot.offer == None)
            && (error != None ==> slot' == slot)
            && (error == None ==>
                  && slot' == slot.(offer := slot'.offer)
                  && (slot'.offer == None <==> forall a | a in slot.offer.value :: a == agent)
                  && (slot'.offer.Some? ==> forall a :: a in slot'.offer.value <==> a in slot.offer.value && a != agent))
  {
    if slot.offer.Some? {
      var rest := Without(slot.offer.value, agent);
      hide Without;
      assert rest != [] ==> rest[0] in rest;
    }
  }

  /** A worker offers exactly an order that has no offer, attempts left and someone near;
      every attempt that gets as far as the search counts once. */
  lemma OfferedExactlyWhen(cap: nat, slot: Slot, candidates: seq<nat>)
    ensures var (slot', attempt) := TryOffer(cap, slot, candidates);
            && (attempt == OfferedTo(candidates) <==> slot.offer == None && slot.attempts < cap && candidates != [])
            && slot' == Slot(slot.status, slot.agent, if attempt.OfferedTo? then Some(candidates) else slot.offer, slot.claim,
                             if slot.offer == None && slot.attempts < cap then slot.attempts + 1 else slot.attempts)
  {
  }

  // ----- these are the runs of the machine without interleaving ---------------------

  /** Every step a request may take, in program order; the machine skips the ones that
      its outcome leaves out. */
  function ClaimSteps(p: nat, first: RequestOp, commits: bool): seq<Step> {
    [Request(p, first), Request(p, TrySetClaim), Request(p, UpdateRow)]
    + [Request(p, if commits then Commit(true) else CommitFails), Request(p, DeleteOffer)]
    + [Request(p, DeleteClaim), Request(p, DeleteClaim)]
  }

  lemma {:induction false} RunOfClaim(cap: nat, s: State, p: nat, first: RequestOp, commits: bool)
    ensures var e := ClaimSteps(p, first, commits);
            var held := Do(cap, Do(cap, Do(cap, s, e[0]), e[1]), e[2]);
            Run(cap, s, e) == Do(cap, Do(cap, Do(cap, Do(cap, held, e[3]), e[4]), e[5]), e[6])
  {
    hide Do;
    var e := ClaimSteps(p, first, commits);
    var a, b, c := e[..3], e[3..5], e[5..];
    assert a == [e[0], e[1], e[2]] && b == [e[3], e[4]] && c == [e[5], e[6]] && e == a + b + c;
    RunOf3(cap, s, e[0], e[1], e[2]);
    RunOf2(cap, Run(cap, s, a), e[3], e[4]);
    RunConcat(cap, s, a, b);
    RunConcat(cap, s, a + b, c);
    RunOf2(cap, Run(cap, s, a + b), e[5], e[6]);
  }

  /** The state in which one request came and went. */
  function Settled(s: State, slot: Slot, won: bool, entry: Entry): State {
    s.(slot := slot, log := if won then s.log + [entry] else s.log)
  }

  lemma Leaves(s: State, p: nat, pc: Pc)
    requires p !in s.requests && s.lock == None
    ensures Ends(At(s, p, pc), p) == s && Ends(At(s, p, pc).(lock := Some(p)), p) == s
  {
    assert s.requests[p := pc] - {p} == s.requests;
  }

  /** The steps after the UPDATE. */
  function Tail(cap: nat, s: State, p: nat, commits: bool): State {
    var e := ClaimSteps(p, DeleteOffer, commits);
    Do(cap, Do(cap, Do(cap, Do(cap, s, e[3]), e[4]), e[5]), e[6])
  }

  /** A failed request deletes the claim key it had set, and is gone. */
  lemma TailOfRefused(cap: nat, s: State, p: nat, agent: nat, commits: bool)
    requires p !in s.requests && s.lock == None && s.slot.claim == None
    ensures Tail(cap, At(s.(slot := s.slot.(claim := Some(agent))), p, Failing(2)), p, commits) == s
  {
    Leaves(s, p, Failing(1));
  }

  lemma TailOfWinner(cap: nat, s: State, p: nat, agent: nat, via: bool)
    requires p !in s.requests && s.lock == None && s.slot.claim == None && Claimable(s.slot)
    ensures var locked := At(s.(slot := s.slot.(claim := Some(agent))), p, Updated(agent, via)).(lock := Some(p));
            Tail(cap, locked, p, true) == Settled(s, ForceClaim(s.slot, agent, true).0, true, Claimed(agent, via))
  {
    Leaves(Settled(s, ForceClaim(s.slot, agent, true).0, true, Claimed(agent, via)), p, Won(agent, via));
  }

  lemma TailOfFailedCommit(cap: nat, s: State, p: nat, agent: nat, via: bool)
    requires p !in s.requests && s.lock == None && s.slot.claim == None && Claimable(s.slot)
    ensures var locked := At(s.(slot := s.slot.(claim := Some(agent))), p, Updated(agent, via)).(lock := Some(p));
            Tail(cap, locked, p, false) == s
  {
    Leaves(s, p, Failing(1));
  }

  lemma TailOfNothing(cap: nat, s: State, p: nat, commits: bool)
    requires p !in s.requests
    ensures Tail(cap, s, p, commits) == s
  {
  }

  /** The steps from the claim key on, of a request alone that got as far. */
  lemma FromTrySet(cap: nat, s: State, p: nat, agent: nat, via: bool, commits: bool)
    requires p !in s.requests && s.lock == None
    ensures var (slot, outcome) := ForceClaim(s.slot, agent, commits);
            var entered := At(s, p, Entering(agent, via));
            Tail(cap, Do(cap, Do(cap, entered, Request(p, TrySetClaim)), Request(p, UpdateRow)), p, commits)
            == Settled(s, slot, outcome == Granted, Claimed(agent, via))
  {
    hide Tail;
    var step := Do(cap, At(s, p, Entering(agent, via)), Request(p, TrySetClaim));
    var held := s.(slot := s.slot.(claim := Some(agent)));
    assert s.slot.claim == None ==> step.requests == s.requests[p := Holding(agent, via)] && step == At(held, p, Holding(agent, via));
    if s.slot.claim != None {
      Leaves(s, p, Entering(agent, via));
      TailOfNothing(cap, s, p, commits);
    } else if Claimable(s.slot) {
      assert s.requests[p := Holding(agent, via)][p := Updated(agent, via)] == s.requests[p := Updated(agent, via)];
      TailOfWinner(cap, s, p, agent, via);
      TailOfFailedCommit(cap, s, p, agent, via);
    } else {
      assert s.requests[p := Holding(agent, via)][p := Failing(2)] == s.requests[p := Failing(2)];
      TailOfRefused(cap, s, p, agent, commits);
    }
  }

  /** An accept with no other request under way: it wins exactly when the agent is on
      the offer, the claim key is free, the order is ready and without an agent, and
      the commit succeeds. Otherwise nothing has changed. */
  lemma AcceptAlone(cap: nat, s: State, p: nat, agent: nat, commits: bool)
    requires p !in s.requests && s.lock == None
    ensures var (slot, outcome) := Accept(s.slot, agent, commits);
            Run(cap, s, ClaimSteps(p, ReadOffer(agent), commits)) == Settled(s, slot, outcome == Granted, Claimed(agent, true))
  {
    RunOfClaim(cap, s, p, ReadOffer(agent), commits);
    if Accept(s.slot, agent, commits).1 in {OfferNotFoundOrExpired, NotInCandidateList} {
      TailOfNothing(cap, s, p, commits);
    } else {
      FromTrySet(cap, s, p, agent, true, commits);
    }
  }

  lemma OverrideAlone(cap: nat, s: State, p: nat, agent: nat, commits: bool)
    requires p !in s.requests && s.lock == None
    ensures var (slot, outcome) := ForceClaim(s.slot, agent, commits);
            Run(cap, s, ClaimSteps(p, Override(agent), commits)) == Settled(s, slot, outcome == Granted, Claimed(agent, false))
  {
    RunOfClaim(cap, s, p, Override(agent), commits);
    FromTrySet(cap, s, p, agent, false, commits);
  }

  lemma RejectAlone(cap: nat, s: State, p: nat, agent: nat)
    requires p !in s.requests && s.lock == None
    ensures Run(cap, s, [Request(p, ReadForReject(agent)), Request(p, WriteRejection)]) == s.(slot := Reject(s.slot, agent).0)
  {
    RunOf2(cap, s, Request(p, ReadForReject(agent)), Request(p, WriteRejection));
    if s.slot.offer.Some? {
      Leaves(s, p, Rejecting(agent, s.slot.offer.value));
    }
  }

  /** Up to the cap check, a worker alone changes only its own place. */
  lemma AttemptBegins(cap: nat, s: State, w: nat)
    requires w < |s.workers| && s.workers[w] == Resting && Claimable(s.slot)
    ensures var pc := if s.slot.offer == None && s.slot.attempts < cap then BelowCap else Resting;
            Run(cap, s, [Worker(w, SelectOrder), Worker(w, CheckOffer), Worker(w, ReadAttempts)]) == s.(workers := s.workers[w := pc])
  {
    RunOf3(cap, s, Worker(w, SelectOrder), Worker(w, CheckOffer), Worker(w, ReadAttempts));
    assert forall pc, pc' {:trigger s.workers[w := pc][w := pc']} :: s.workers[w := pc][w := pc'] == s.workers[w := pc'];
  }

  /** From there it makes its attempt, if it came that far. */
  lemma AttemptEnds(cap: nat, s: State, w: nat, candidates: seq<nat>)
    requires w < |s.workers| && s.workers[w] in {Resting, BelowCap} && (s.workers[w] == BelowCap ==> s.slot.offer == None)
    ensures var t := Run(cap, s, [Worker(w, Search(candidates)), Worker(w, TrySetOffer), Worker(w, Count)]);
            var tried, offered := s.workers[w] == BelowCap, s.workers[w] == BelowCap && candidates != [];
            t == s.(workers := s.workers[w := Resting],
                    slot := s.slot.(attempts := s.slot.attempts + if tried then 1 else 0, offer := if offered then Some(candidates) else s.slot.offer),
                    offered := if offered then s.offered + (set a | a in candidates) else s.offered,
                    broadcasts := s.broadcasts + if offered then 1 else 0)
  {
    RunOf3(cap, s, Worker(w, Search(candidates)), Worker(w, TrySetOffer), Worker(w, Count));
    assert s.workers[w] == Resting ==> s.workers[w := Resting] == s.workers;
    assert forall pc, pc' {:trigger s.workers[w := pc][w := pc']} :: s.workers[w := pc][w := pc'] == s.workers[w := pc'];
  }

  /** A worker's whole attempt on a ready order. */
  lemma TryOfferAlone(cap: nat, s: State, w: nat, candidates: seq<nat>)
    requires w < |s.workers| && s.workers[w] == Resting && Claimable(s.slot)
    ensures var (slot, attempt) := TryOffer(cap, s.slot, candidates);
            var steps := [Worker(w, SelectOrder), Worker(w, CheckOffer), Worker(w, ReadAttempts)]
                         + [Worker(w, Search(candidates)), Worker(w, TrySetOffer), Worker(w, Count)];
            Run(cap, s, steps)
            == s.(slot := slot,
                  offered := if attempt.OfferedTo? then s.offered + (set a | a in candidates) else s.offered,
                  broadcasts := s.broadcasts + if attempt.OfferedTo? then 1 else 0)
  {
    hide Do;
    var a := [Worker(w, SelectOrder), Worker(w, CheckOffer), Worker(w, ReadAttempts)];
    var b := [Worker(w, Search(candidates)), Worker(w, TrySetOffer), Worker(w, Count)];
    RunConcat(cap, s, a, b);
    AttemptBegins(cap, s, w);
    AttemptEnds(cap, Run(cap, s, a), w, candidates);
    var workers := Run(cap, s, a).workers;
    assert workers[w := Resting] == s.workers;
  }

  // ----- the service -----------------------------------------------------------------

  /** The agents of a geo search, nearest first, who are online and not busy. An entry
      that is not a number is skipped. */
  function Eligible(nearby: seq<Option<nat>>, online: set<nat>, busy: set<nat>): (agents: seq<nat>)
    ensures forall a :: a in agents <==> Some(a) in nearby && a in online && a !in busy
    ensures |agents| <= |nearby|
  {
    if nearby == [] then []
    else
      var n := |nearby| - 1;
      assert nearby == nearby[..n] + [nearby[n]];
      var rest := Eligible(nearby[..n], online, busy);
      if nearby[n].Some? && nearby[n].value in online && nearby[n].value !in busy then rest + [nearby[n].value] else rest
  }

  /** The search stops at the limit, which it looks at after each agent it takes. */
  function Nearest(limit: nat, nearby: seq<Option<nat>>, online: set<nat>, busy: set<nat>): seq<nat> {
    var all := Eligible(nearby, online, busy);
    var n := if limit == 0 then 1 else limit;
    if |all| <= n then all else all[..n]
  }

  /** The search finds at most `limit` agents (one, if the limit is 0); fewer only if it
      has found all who qualify; and they are the nearest of those. */
  lemma NearestIsLimited(limit: nat, nearby: seq<Option<nat>>, online: set<nat>, busy: set<nat>)
    ensures var found, all := Nearest(limit, nearby, online, busy), Eligible(nearby, online, busy);
            && found <= all && |found| <= (if limit > 1 then limit else 1)
            && (|found| < limit ==> forall a :: a in found <==> Some(a) in nearby && a in online && a !in busy)
            && (forall a | a in found :: Some(a) in nearby && a in online && a !in busy)
  {
    var found, all := Nearest(limit, nearby, online, busy), Eligible(nearby, online, busy);
    hide Eligible;
    assert forall a | a in found :: a in all;
  }

  lemma {:induction false} EligiblePrefix(nearby: seq<Option<nat>>, n: nat, online: set<nat>, busy: set<nat>)
    requires n <= |nearby|
    ensures Eligible(nearby[..n], online, busy) <= Eligible(nearby, online, busy)
  {
    if n < |nearby| {
      EligiblePrefix(nearby[..|nearby| - 1], n, online, busy);
      assert nearby[..|nearby| - 1][..n] == nearby[..n];
    } else {
      assert nearby[..n] == nearby;
    }
  }

  lemma EligibleStep(nearby: seq<Option<nat>>, i: nat, online: set<nat>, busy: set<nat>)
    requires i < |nearby|
    ensures Eligible(nearby[..i + 1], online, busy)
            == Eligible(nearby[..i], online, busy)
               + if nearby[i].Some? && nearby[i].value in online && nearby[i].value !in busy then [nearby[i].value] else []
  {
    assert nearby[..i + 1][..i] == nearby[..i];
  }

  class Dispatch {
    var rows: map<nat, Row>
    var offers: map<nat, seq<nat>>
    var claims: map<nat, nat>
    var attempts: map<nat, nat>
    var busy: set<nat>
    var online: set<nat>

    /** The part of the state that concerns order o. An order that does not exist has
        nothing to claim; it reads as a cancelled one. */
    ghost function At(o: nat): Slot
      reads this
    {
      var row := if o in rows then rows[o] else Row(Cancelled, None);
      Slot(row.status, row.agent,
           if o in offers then Some(offers[o]) else None,
           if o in claims then Some(claims[o]) else None,
           if o in attempts then attempts[o] else 0)
    }

    twostate predicate OnlyChanges(o: nat)
      reads this
    {
      && (forall x | x != o :: At(x) == old(At(x)))
      && rows.Keys == old(rows.Keys) && online == old(online)
    }

    constructor ()
      ensures rows == map[] && offers == map[] && claims == map[] && attempts == map[] && busy == {} && online == {}
    {
      rows, offers, claims, attempts, busy, online := map[], map[], map[], map[], {}, {};
    }

    method FindCandidates(nearby: seq<Option<nat>>, limit: nat) returns (result: seq<nat>)
      ensures result == Nearest(limit, nearby, online, busy)
    {
      hide Eligible;
      assert Eligible([], online, busy) == [];
      result := [];
      var i := 0;
      assert nearby[..i] == [];
      while i < |nearby|
        invariant i <= |nearby| && result == Eligible(nearby[..i], online, busy)
        invariant |result| < limit || result == []
      {
        EligibleStep(nearby, i, online, busy);
        EligiblePrefix(nearby, i + 1, online, busy);
        if nearby[i].Some? && nearby[i].value in online && nearby[i].value !in busy {
          result := result + [nearby[i].value];
          if |result| >= limit {
            return;
          }
        }
        i := i + 1;
      }
      assert nearby[..i] == nearby;
    }

    method TryAssign(o: nat, nearby: seq<Option<nat>>, limit: nat, cap: nat) returns (attempt: Attempt)
      modifies this`offers, this`attempts
      ensures (At(o), attempt) == TryOffer(cap, old(At(o)), Nearest(limit, nearby, online, busy))
      ensures OnlyChanges(o)
    {
      if o in offers {
        return Skipped;
      }
      var made := if o in attempts then attempts[o] else 0;
      if made >= cap {
        return Exhausted;
      }
      var candidates := FindCandidates(nearby, limit);
      if |candidates| == 0 {
        attempts := attempts[o := made + 1];
        return NoCandidates;
      }
      offers := offers[o := candidates];
      attempts := attempts[o := made + 1];
      return OfferedTo(candidates);
    }

    /** One tick over the ready orders the query returned. */
    method TickRegion(orders: seq<nat>, nearby: nat -> seq<Option<nat>>, limit: nat, cap: nat)
      returns (offered: nat, skipped: nat)
      requires forall i, j | 0 <= i < j < |orders| :: orders[i] != orders[j]
      modifies this`offers, this`attempts
      ensures forall o | o in orders :: At(o) == TryOffer(cap, old(At(o)), Nearest(limit, nearby(o), online, busy)).0
      ensures forall o | o !in orders :: At(o) == old(At(o))
      ensures offered == |set o | o in orders && Offers(cap, old(At(o)), Nearest(limit, nearby(o), online, busy))|
      ensures offered + skipped == |orders|
    {
      hide TryOffer, Nearest, At;
      offered, skipped := 0, 0;
      ghost var won: set<nat> := {};
      var i := 0;
      while i < |orders|
        invariant i <= |orders|
        invariant forall k | 0 <= k < i :: At(orders[k]) == TryOffer(cap, old(At(orders[k])), Nearest(limit, nearby(orders[k]), online, busy)).0
        invariant forall o | o !in orders[..i] :: At(o) == old(At(o))
        invariant forall o :: o in won <==> o in orders[..i] && Offers(cap, old(At(o)), Nearest(limit, nearby(o), online, busy))
        invariant offered == |won| && offered + skipped == i
      {
        var o := orders[i];
        assert o !in orders[..i] && orders[..i + 1] == orders[..i] + [o];
        var attempt := TryAssign(o, nearby(o), limit, cap);
        assert attempt.OfferedTo? <==> Offers(cap, old(At(o)), Nearest(limit, nearby(o), online, busy));
        if attempt.OfferedTo? {
          offered := offered + 1;
          won := won + {o};
        } else {
          skipped := skipped + 1;
        }
        i := i + 1;
      }
      assert orders[..|orders|] == orders;
      assert won == set o | o in orders && Offers(cap, old(At(o)), Nearest(limit, nearby(o), online, busy));
    }

    /** The conditional UPDATE, in a transaction that may fail to commit. */
    method ClaimRow(o: nat, agent: nat, commits: bool) returns (outcome: Outcome)
      modifies this`rows
      ensures rows.Keys == old(rows.Keys)
      ensures outcome == if !Claimable(old(At(o))) then OrderNotInReadyState else if commits then Granted else CommitFailed
      ensures rows == if outcome == Granted then old(rows)[o := Row(Status.Assigned, Some(agent))] else old(rows)
    {
      if o !in rows || rows[o].status != Ready || rows[o].agent != None {
        return OrderNotInReadyState;
      }
      if !commits {
        return CommitFailed;
      }
      rows := rows[o := Row(Status.Assigned, Some(agent))];
      return Granted;
    }

    method AdminAssign(o: nat, agent: nat, commits: bool) returns (outcome: Outcome)
      modifies this
      ensures (At(o), outcome) == ForceClaim(old(At(o)), agent, commits)
      ensures OnlyChanges(o) && busy == old(busy) + if outcome == Granted then {agent} else {}
    {
      if o in claims {
        return OrderAlreadyClaimed;
      }
      claims := claims[o := agent];
      outcome := ClaimRow(o, agent, commits);
      if outcome != Granted {
        claims := claims - {o};
        return;
      }
      busy := busy + {agent};
      offers := offers - {o};
    }

    method Claim(o: nat, agent: nat, commits: bool) returns (outcome: Outcome)
      modifies this
      ensures (At(o), outcome) == Accept(old(At(o)), agent, commits)
      ensures OnlyChanges(o) && busy == old(busy) + if outcome == Granted then {agent} else {}
    {
      if o !in offers {
        return OfferNotFoundOrExpired;
      }
      if agent !in offers[o] {
        return NotInCandidateList;
      }
      outcome := AdminAssign(o, agent, commits);
    }

    /** The service calls it `reject`. */
    method Decline(o: nat, agent: nat) returns (error: Option<Outcome>)
      modifies this`offers
      ensures (At(o), error) == Reject(old(At(o)), agent)
      ensures OnlyChanges(o)
    {
      if o !in offers {
        return Some(OfferNotFoundOrExpired);
      }
      if agent !in offers[o] {
        return Some(NotInCandidateList);
      }
      var remaining := Without(offers[o], agent);
      offers := if |remaining| == 0 then offers - {o} else offers[o := remaining];
      return None;
    }
  }
}
