/** The positions that riders report. */
module TrackingService {
  import opened Prelude
  import opened Domain
  import opened Transactions
  import opened Positions
  import opened Tables

  /** The reported position is the rider's own place and, from now on, the latest of the order. */
  method RecordLocation(env: Env, db: Database, order: OrderId, rider: RiderId, at: Coords, now: Time)
    modifies db`riders, db`tracks
    ensures db.Snapshot() == Apply(env, old(db.Snapshot()), Tx.RecordLocation(order, rider, at), now)
    ensures LatestRow(db.tracks, order, |old(db.tracks)|) && db.tracks[|old(db.tracks)|] == Track(order, rider, at)
    ensures forall other: OrderId, k: nat :: other != order ==>
              (LatestRow(db.tracks, other, k) <==> LatestRow(old(db.tracks), other, k))
    ensures |db.riders| == |old(db.riders)|
    ensures forall i :: 0 <= i < |db.riders| ==>
              db.riders[i] == if i == rider then old(db.riders)[i].(place := Some(at)) else old(db.riders)[i]
  {
    if rider < |db.riders| {
      db.riders := db.riders[rider := db.riders[rider].(place := Some(at))];
    }
    RecordedIsLatest(db.tracks, Track(order, rider, at));
    db.tracks := db.tracks + [Track(order, rider, at)];
  }
}
