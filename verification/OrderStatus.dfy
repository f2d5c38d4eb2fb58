/** The order status machine: the table of allowed moves and its guard. */
module OrderStatus {
  import opened Common

  datatype Status =
    | PendingPayment | Placed | Accepted | Rejected | Preparing
    | Ready | Assigned | Picked | Delivered | Cancelled

  datatype Actor = Customer | RestaurantMember | Agent | System | Admin

  /** Which timestamp column a move writes. */
  datatype Stamp = NoStamp | AcceptedAt | RejectedAt | ReadyAt | AssignedAt | PickedAt | DeliveredAt | CancelledAt

  datatype Rule = Rule(actors: set<Actor>, stamp: Stamp, requiresReason: bool)

  /** The `from -> to` table. Anything absent is forbidden. */
  function Transition(from: Status, to: Status): Option<Rule> {
    match (from, to)
    case (PendingPayment, Placed) => Some(Rule({System}, NoStamp, false))
    case (PendingPayment, Cancelled) => Some(Rule({Customer, System}, CancelledAt, false))
    case (Placed, Accepted) => Some(Rule({RestaurantMember}, AcceptedAt, false))
    case (Placed, Rejected) => Some(Rule({RestaurantMember}, RejectedAt, true))
    case (Placed, Cancelled) => Some(Rule({Customer, RestaurantMember, System, Admin}, CancelledAt, true))
    case (Accepted, Preparing) => Some(Rule({RestaurantMember}, NoStamp, false))
    case (Accepted, Cancelled) => Some(Rule({RestaurantMember, Admin}, CancelledAt, true))
    case (Preparing, Ready) => Some(Rule({RestaurantMember}, ReadyAt, false))
    case (Preparing, Cancelled) => Some(Rule({RestaurantMember, Admin}, CancelledAt, true))
    case (Ready, Assigned) => Some(Rule({System}, AssignedAt, false))
    case (Ready, Cancelled) => Some(Rule({RestaurantMember, Admin}, CancelledAt, true))
    case (Assigned, Picked) => Some(Rule({Agent}, PickedAt, false))
    case (Assigned, Cancelled) => Some(Rule({Admin}, CancelledAt, true))
    case (Picked, Delivered) => Some(Rule({Agent}, DeliveredAt, false))
    case _ => None
  }

  const CUSTOMER_CANCEL_WINDOW_MS := 60 * 1000

  datatype Verdict = Allowed(stamp: Stamp) | InvalidTransition | ReasonRequired | CancellationWindowExpired

  /** The checks in the order the code makes them. `hasReason` says that the
      reason, once trimmed, is not empty. */
  function AssertTransition(from: Status, to: Status, actor: Actor, hasReason: bool,
                            placedAt: int, acceptedAt: Option<int>, now: int): Verdict
  {
    match Transition(from, to)
    case None => InvalidTransition
    case Some(rule) =>
      if actor !in rule.actors then InvalidTransition
      else if rule.requiresReason && !hasReason then ReasonRequired
      else if actor == Customer && to == Cancelled && from == Placed
              && (acceptedAt.Some? || now - placedAt > CUSTOMER_CANCEL_WINDOW_MS) then CancellationWindowExpired
      else Allowed(rule.stamp)
  }

  predicate Terminal(s: Status) {
    s in {Rejected, Delivered, Cancelled}
  }

  /** Progress along the table. */
  function Rank(s: Status): nat {
    match s
    case PendingPayment => 0
    case Placed => 1
    case Accepted => 2
    case Preparing => 3
    case Ready => 4
    case Assigned => 5
    case Picked => 6
    case Delivered => 7
    case Rejected => 8
    case Cancelled => 9
  }
}
