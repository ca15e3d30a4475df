/** Which step follows which order event. */
module OrderEventListener {
  import opened Prelude
  import opened Domain
  import opened Lifecycle
  import opened Transactions
  import opened Tables
  import opened SettlementService
  import opened SettlementEffect
  import OrdersService

  /** Delivered and cancelled orders free their rider, if they have one. */
  method HandleDeliveredOrCancelled(env: Env, db: Database, rider: Option<RiderId>, now: Time)
    modifies db`riders
    ensures db.Snapshot() ==
            if rider.Some? then
              Apply(env, old(db.Snapshot()),
                    Tx.ReleaseRider(rider.value, Total(old(db.orders), ActiveOn(rider.value))), now)
            else old(db.Snapshot())
    ensures db.riders ==
            if rider.Some? && rider.value < |old(db.riders)|
               && forall i :: 0 <= i < |db.orders| ==> !HasInHand(db.orders[i], rider.value)
            then old(db.riders)[rider.value := old(db.riders)[rider.value].(status := Available)]
            else old(db.riders)
  {
    if rider.Some? {
      var _ := OrdersService.ReleaseRiderIfFree(db, rider.value);
    }
  }

  /** A confirmed order is settled, whoever has settled it before; the event of an order in any other
    * status does nothing. */
  method HandleConfirmed(env: Env, db: Database, id: OrderId, tieUp: bool, now: Time)
    modifies db`handlers, db`orders, db`stations, db`stock, db`riders
    ensures db.Snapshot() == Run(env, old(db.Snapshot()), SettleCalls(old(db.Snapshot()), id, tieUp, now))
    ensures Settleable(old(db.Snapshot()), id) ==> IsSettled(env, old(db.Snapshot()), db.Snapshot(), id, now)
    ensures id >= |old(db.orders)| || old(db.orders)[id].status != CustomerConfirmed ==>
              db.Snapshot() == old(db.Snapshot())
  {
    hide Run, IsSettled, SettleCalls;
    if Settleable(db.Snapshot(), id) {
      SettlementPays(env, db.Snapshot(), id, tieUp, now);
    }
    Settle(env, db, id, tieUp, now);
  }
}
