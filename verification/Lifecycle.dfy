/** The order state machine: transition table, cancellation list, milestone columns. */
module Lifecycle {
  import opened Prelude
  import opened Domain

  /** The transition table of `updateStatus`. */
  function Transitions(from: Status): set<Status> {
    match from
    case Pending => {Accepted, Cancelled}
    case Accepted => {InventoryReserved, Cancelled}
    case InventoryReserved => {Preparing, Cancelled}
    case Preparing => {RiderAssigned}
    case RiderAssigned => {RiderEnRoutePickup}
    case RiderEnRoutePickup => {RiderArrivedPickup}
    case RiderArrivedPickup => {CylinderPickedUp}
    case CylinderPickedUp => {RiderEnRouteStation}
    case RiderEnRouteStation => {AtStation}
    case AtStation => {RiderEnRouteDelivery}
    case RiderEnRouteDelivery => {RiderArrivedDelivery}
    case RiderArrivedDelivery => {Delivered}
    case Delivered => {CustomerConfirmed}
    case CustomerConfirmed => {Completed}
    case Completed => {}
    case Cancelled => {}
    case Refunded => {}
  }

  predicate IsValidTransition(from: Status, to: Status) {
    to in Transitions(from)
  }

  /** The statuses from which `cancel` is allowed. */
  predicate Cancellable(s: Status) {
    s in {Pending, Accepted, InventoryReserved, Preparing, RiderAssigned, RiderEnRoutePickup, RiderArrivedPickup}
  }

  /** The statuses that `releaseRiderIfFree` counts as work in hand. */
  predicate Active(s: Status) {
    s in {RiderAssigned, RiderEnRoutePickup, RiderArrivedPickup, CylinderPickedUp, RiderEnRouteStation,
          AtStation, RiderEnRouteDelivery, RiderArrivedDelivery}
  }

  /** The checkpoints that need the rider on the spot. */
  predicate Gated(s: Status) {
    s in {RiderArrivedPickup, AtStation, RiderArrivedDelivery, Delivered}
  }

  /** The statuses that own a time column. */
  predicate Milestone(s: Status) {
    s in {Accepted, RiderAssigned, RiderArrivedPickup, CylinderPickedUp, AtStation, RiderArrivedDelivery,
          Delivered, Completed}
  }

  function Stamp(stamps: map<Status, Time>, to: Status, now: Time): map<Status, Time> {
    if Milestone(to) then stamps[to := now] else stamps
  }

  /** A status write: the new status, its milestone time, and one more history row. */
  function Advance(o: Order, from: Status, to: Status, actor: Option<UserId>, now: Time): Order {
    o.(status := to, stamps := Stamp(o.stamps, to, now), history := o.history + [Entry(Some(from), to, actor)])
  }

  /** Every legal move: an edge of the table, or a cancellation. */
  predicate Edge(from: Status, to: Status) {
    IsValidTransition(from, to) || (Cancellable(from) && to == Cancelled)
  }

  /** The moves that writers other than `updateStatus` and `cancel` make. */
  lemma FixedEdges()
    ensures Edge(Preparing, RiderAssigned) && Edge(Delivered, CustomerConfirmed) && Edge(CustomerConfirmed, Completed)
  {
  }

  /** Position in the lifecycle. CANCELLED stands where cancellation stops being allowed. */
  function Rank(s: Status): nat {
    match s
    case Pending => 0
    case Accepted => 1
    case InventoryReserved => 2
    case Preparing => 3
    case RiderAssigned => 4
    case RiderEnRoutePickup => 5
    case RiderArrivedPickup => 6
    case CylinderPickedUp => 7
    case RiderEnRouteStation => 8
    case AtStation => 9
    case RiderEnRouteDelivery => 10
    case RiderArrivedDelivery => 11
    case Delivered => 12
    case CustomerConfirmed => 13
    case Completed => 14
    case Cancelled => 7
    case Refunded => 15
  }

  /** The table, told by positions: the next status of the chain, or a cancellation from its first three. */
  lemma TableIsTheChain(from: Status, to: Status)
    ensures IsValidTransition(from, to) <==>
              || (from != Cancelled && to !in {Cancelled, Refunded} && Rank(to) == Rank(from) + 1)
              || (to == Cancelled && from != Refunded && Rank(from) <= 2)
  {
  }

  /** `cancel` is allowed until the cylinder is picked up. */
  lemma CancellableBeforePickup(s: Status)
    ensures Cancellable(s) <==> Rank(s) < Rank(CylinderPickedUp)
  {
  }

  /** The rider has the order from RIDER_ASSIGNED to RIDER_ARRIVED_DELIVERY. */
  predicate HasInHand(o: Order, rider: RiderId) {
    o.riderId == Some(rider) && 4 <= Rank(o.status) <= 11 && o.status != Cancelled
  }

  /** The statuses that the release counts are those of work in hand. */
  lemma ActiveIsInHand(s: Status)
    ensures Active(s) <==> 4 <= Rank(s) <= 11 && s != Cancelled
  {
  }

  /** Off the cancellation edges the table is a single chain of fifteen statuses. */
  lemma EdgesFollowTheChain(from: Status, to: Status)
    requires Edge(from, to)
    ensures to != Cancelled ==> Rank(to) == Rank(from) + 1
    ensures to == Cancelled ==> Rank(from) < Rank(to)
    ensures to != Refunded && to != Pending && from != Cancelled
  {
  }
}
