/** Where the rider is: the position table, row by row. */
module Positions {
  import opened Prelude
  import opened Domain
  import opened Lifecycle
  import opened Transactions

  /** The last row of the order. */
  ghost predicate LatestRow(tracks: seq<Track>, order: OrderId, k: nat) {
    && k < |tracks| && tracks[k].order == order
    && forall j :: k < j < |tracks| ==> tracks[j].order != order
  }

  /** The latest position of an order is that of its last row, and there is none when it has no row. */
  lemma {:induction false} LatestIsLast(tracks: seq<Track>, order: OrderId)
    ensures forall p ::
              LatestPosition(tracks, order) == Some(p) <==>
                  exists k: nat :: LatestRow(tracks, order, k) && tracks[k].at == p
    ensures LatestPosition(tracks, order).None? <==> forall k :: 0 <= k < |tracks| ==> tracks[k].order != order
  {
    if tracks != [] {
      var n := |tracks| - 1;
      LatestIsLast(tracks[..n], order);
      if tracks[n].order == order {
        assert forall k: nat :: LatestRow(tracks, order, k) <==> k == n;
      } else {
        assert forall k: nat :: LatestRow(tracks, order, k) <==> LatestRow(tracks[..n], order, k);
      }
    }
  }

  /** One more row is the latest of its order and changes no other's. */
  lemma RecordedIsLatest(tracks: seq<Track>, t: Track)
    ensures LatestRow(tracks + [t], t.order, |tracks|)
    ensures forall other: OrderId, k: nat :: other != t.order ==>
              (LatestRow(tracks + [t], other, k) <==> LatestRow(tracks, other, k))
  {
    var more := tracks + [t];
    assert forall j :: 0 <= j < |tracks| ==> more[j] == tracks[j];
    forall other: OrderId, k: nat | other != t.order && LatestRow(more, other, k) ensures LatestRow(tracks, other, k) {
      assert forall j :: k < j < |tracks| ==> tracks[j] == more[j];
    }
  }

  /** The last position recorded for the order is within 100 m of the target. */
  ghost predicate Within(env: Env, tracks: seq<Track>, order: OrderId, target: Coords) {
    exists k: nat :: LatestRow(tracks, order, k) && env.metres(tracks[k].at, target) <= 100
  }

  lemma WithinIsLatest(env: Env, tracks: seq<Track>, order: OrderId, target: Coords)
    ensures Within(env, tracks, order, target) <==>
            LatestPosition(tracks, order).Some?
            && env.metres(LatestPosition(tracks, order).value, target) <= PROXIMITY_THRESHOLD_METERS
  {
    LatestIsLast(tracks, order);
    if Within(env, tracks, order, target) {
      var k: nat :| LatestRow(tracks, order, k) && env.metres(tracks[k].at, target) <= 100;
      assert LatestPosition(tracks, order) == Some(tracks[k].at);
    } else if LatestPosition(tracks, order).Some? {
      var k: nat :| LatestRow(tracks, order, k) && tracks[k].at == LatestPosition(tracks, order).value;
    }
  }

  /** Where the order's checkpoint is: the station's own coordinates for AT_STATION, the order's delivery
    * coordinates for the other three. */
  predicate IsTarget(w: World, o: Order, to: Status, target: Coords) {
    if to == AtStation then o.station < |w.stations| && w.stations[o.station].place == Some(target)
    else o.lat == Some(target.lat) && o.lng == Some(target.lng)
  }

  /** The rider is at the checkpoint. */
  ghost predicate AtCheckpoint(env: Env, w: World, id: OrderId, to: Status)
    requires id < |w.orders|
  {
    exists target :: IsTarget(w, w.orders[id], to, target) && Within(env, w.tracks, id, target)
  }

  lemma TargetIsUnique(w: World, o: Order, to: Status)
    requires Gated(to)
    ensures forall target :: IsTarget(w, o, to, target) <==> Target(w, o, to) == Some(target)
  {
  }

  lemma SpotIsCheckpoint(env: Env, w: World, id: OrderId, to: Status)
    requires id < |w.orders| && Gated(to)
    ensures OnTheSpot(env, w, id, to) <==> AtCheckpoint(env, w, id, to)
  {
    TargetIsUnique(w, w.orders[id], to);
    if Target(w, w.orders[id], to).Some? {
      var target := Target(w, w.orders[id], to).value;
      assert IsTarget(w, w.orders[id], to, target);
      WithinIsLatest(env, w.tracks, id, target);
    }
  }
}
