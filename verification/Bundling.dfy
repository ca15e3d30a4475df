/** What an undisturbed bundling comes to, in terms of the rows before and after. */
module Bundling {
  import opened Prelude
  import opened Domain
  import opened StockLevels
  import opened Transactions
  import opened Clustering
  import opened Dispatch

  /** The order row as a claim without an actor leaves it. */
  function Taken(o: Order, rider: RiderId, now: Time): Order {
    o.(status := RiderAssigned, riderId := Some(rider), stamps := o.stamps[RiderAssigned := now],
       history := o.history + [Entry(Some(Preparing), RiderAssigned, None)])
  }

  predicate Free(orders: seq<Order>, id: OrderId) {
    id < |orders| && orders[id].status == Preparing && orders[id].riderId.None?
  }

  /** An attempt without a claim of the rider goes through exactly for a free order. */
  lemma AttemptTakes(env: Env, w: World, id: OrderId, rider: RiderId, now: Time)
    ensures Execute(env, w, AssignRider(id, rider, None, false), now).Done? <==> Free(w.orders, id)
    ensures Apply(env, w, AssignRider(id, rider, None, false), now) ==
            if Free(w.orders, id) then w.(orders := w.orders[id := Taken(w.orders[id], rider, now)]) else w
  {
  }

  function FreeAmong(orders: seq<Order>, ids: seq<OrderId>): set<OrderId> {
    set id | id in ids && Free(orders, id)
  }

  ghost predicate Distinct(ids: seq<OrderId>) {
    forall i, j :: 0 <= i < j < |ids| ==> ids[i] != ids[j]
  }

  /** `next` is `orders` with exactly these orders taken by the rider. */
  ghost predicate TakenAre(orders: seq<Order>, next: seq<Order>, taken: set<OrderId>, rider: RiderId, now: Time) {
    && |next| == |orders|
    && forall i :: 0 <= i < |orders| ==> next[i] == if i in taken then Taken(orders[i], rider, now) else orders[i]
  }

  /** After the first attempt: the rest are as free as before. */
  lemma FreeOfRest(orders: seq<Order>, next: seq<Order>, ids: seq<OrderId>, m: nat, rider: RiderId, now: Time)
    requires ids != [] && Distinct(ids) && m < |ids|
    requires next == if Free(orders, ids[0]) then orders[ids[0] := Taken(orders[ids[0]], rider, now)] else orders
    ensures FreeAmong(orders, ids[..m + 1]) ==
            FreeAmong(next, ids[1..][..m]) + (if Free(orders, ids[0]) then {ids[0]} else {})
    ensures ids[0] !in FreeAmong(next, ids[1..][..m])
  {
    var rest := ids[1..][..m];
    assert ids[..m + 1] == [ids[0]] + rest;
    assert forall i :: 0 <= i < |rest| ==> rest[i] == ids[i + 1] != ids[0];
    forall id ensures id in FreeAmong(orders, ids[..m + 1]) <==>
                      id in FreeAmong(next, rest) || (id == ids[0] && Free(orders, id))
    {
      assert id in ids[..m + 1] <==> id == ids[0] || id in rest;
    }
  }

  /** The first attempt and then the rest. */
  lemma TakenTogether(orders: seq<Order>, next: seq<Order>, last: seq<Order>, ids: seq<OrderId>, m: nat,
                      rider: RiderId, now: Time)
    requires ids != [] && Distinct(ids) && m < |ids|
    requires next == if Free(orders, ids[0]) then orders[ids[0] := Taken(orders[ids[0]], rider, now)] else orders
    requires TakenAre(next, last, FreeAmong(next, ids[1..][..m]), rider, now)
    ensures TakenAre(orders, last, FreeAmong(orders, ids[..m + 1]), rider, now)
    ensures |FreeAmong(orders, ids[..m + 1])| ==
            |FreeAmong(next, ids[1..][..m])| + (if Free(orders, ids[0]) then 1 else 0)
  {
    hide Taken, FreeAmong;
    FreeOfRest(orders, next, ids, m, rider, now);
  }

  lemma NothingTaken(orders: seq<Order>, rider: RiderId, now: Time)
    ensures FreeAmong(orders, []) == {} && TakenAre(orders, orders, {}, rider, now)
  {
  }

  /** The bundling loop takes the free ones among its first m candidates; m stops short only when every
    * slot is spent. */
  lemma {:induction false} LoopTakes(env: Env, w: World, ids: seq<OrderId>, rider: RiderId, slots: int, now: Time)
    returns (m: nat)
    requires Distinct(ids)
    ensures m <= |ids|
    ensures var next := Run(env, w, BundleCalls(env, w, ids, rider, slots, now));
            && next == w.(orders := next.orders)
            && TakenAre(w.orders, next.orders, FreeAmong(w.orders, ids[..m]), rider, now)
    ensures |FreeAmong(w.orders, ids[..m])| <= Max(slots, 0)
    ensures m < |ids| ==> |FreeAmong(w.orders, ids[..m])| == Max(slots, 0)
    decreases |ids|
  {
    hide Execute, Apply, FreeAmong, TakenAre, Taken, Free, Run;
    if ids == [] || slots <= 0 {
      m := 0;
      NothingTaken(w.orders, rider, now);
      RunNone(env, w);
      assert ids[..0] == [];
    } else {
      var head := Call(AssignRider(ids[0], rider, None, false), now);
      var next := Apply(env, w, head.tx, now);
      var won := Free(w.orders, ids[0]);
      AttemptTakes(env, w, ids[0], rider, now);
      var left := if won then slots - 1 else slots;
      var n := LoopTakes(env, next, ids[1..], rider, left, now);
      RunHead(env, w, head, BundleCalls(env, next, ids[1..], rider, left, now));
      TakenTogether(w.orders, next.orders, Run(env, next, BundleCalls(env, next, ids[1..], rider, left, now)).orders,
                    ids, n, rider, now);
      m := n + 1;
      assert ids[1..][..n] == ids[1..m];
    }
  }

  // ---------------------------------------------------------------- the outcome

  /** The rider's orders at RIDER_ASSIGNED. */
  function Waiting(orders: seq<Order>, rider: RiderId): set<OrderId> {
    set id: OrderId | id < |orders| && orders[id].riderId == Some(rider) && orders[id].status == RiderAssigned
  }

  /** What may be bundled with the accepted order: another waiting STANDARD order of its station, unclaimed and
    * with both coordinates. */
  predicate Joins(orders: seq<Order>, anchor: OrderId, id: OrderId) {
    && id < |orders| && anchor < |orders| && id != anchor
    && orders[id].station == orders[anchor].station && orders[id].tier == Standard
    && orders[id].status == Preparing && orders[id].riderId.None?
    && orders[id].lat.Some? && orders[id].lng.Some?
  }

  /** From `orders` to `next` the rider got only orders that may join, up to three at RIDER_ASSIGNED in all; if
    * one that may join was left, there are three, and none of those he got is farther. */
  ghost predicate Bundled(env: Env, orders: seq<Order>, next: seq<Order>, anchor: OrderId, rider: RiderId, now: Time) {
    var before, after := Waiting(orders, rider), Waiting(next, rider);
    && before <= after && TakenAre(orders, next, after - before, rider, now)
    && (forall id :: id in after - before ==> Joins(orders, anchor, id))
    && |after| <= Max(|before|, 3)
    && (forall id: OrderId :: Joins(orders, anchor, id) && id !in after ==>
          && |after| >= 3
          && forall near :: near in after - before ==> NoFarther(env, orders, anchor, near, id))
  }

  lemma {:induction false} CandidatesIncrease(orders: seq<Order>, anchor: OrderId, n: nat)
    ensures forall id :: id in BundleCandidates(orders, anchor, n) ==> id < n
    ensures forall i, j :: 0 <= i < j < |BundleCandidates(orders, anchor, n)| ==>
              BundleCandidates(orders, anchor, n)[i] < BundleCandidates(orders, anchor, n)[j]
  {
    hide Bundleable;
    if n > 0 {
      var rest := BundleCandidates(orders, anchor, n - 1);
      CandidatesIncrease(orders, anchor, n - 1);
      assert forall i :: 0 <= i < |rest| ==> rest[i] in rest;
      assert BundleCandidates(orders, anchor, n) == rest + (if Bundleable(orders, anchor, n - 1) then [n - 1] else []);
    }
  }

  /** Orders in order of their distance from the accepted one. */
  ghost predicate NearestOnesFirst(env: Env, orders: seq<Order>, anchor: OrderId, ids: seq<OrderId>) {
    forall i, j :: 0 <= i < j < |ids| ==> NoFarther(env, orders, anchor, ids[i], ids[j])
  }

  /** The candidates, by their columns: each once, nearest first. */
  lemma EligibleAre(env: Env, orders: seq<Order>, anchor: OrderId)
    ensures var ids := Eligible(env, orders, anchor);
            && Distinct(ids)
            && (forall id: OrderId :: id in ids && Free(orders, id) <==> Joins(orders, anchor, id))
            && NearestOnesFirst(env, orders, anchor, ids)
  {
    hide Execute, SortByKm, BundleCandidates;
    var candidates, ids := BundleCandidates(orders, anchor, |orders|), Eligible(env, orders, anchor);
    CandidatesAreBundleable(orders, anchor, |orders|);
    CandidatesIncrease(orders, anchor, |orders|);
    SortSorts(env, orders, anchor, candidates);
    DistinctMultiset(candidates);
    DistinctFromMultiset(ids);
    forall id: OrderId ensures id in ids <==> id in candidates {
      assert id in multiset(ids) <==> id in multiset(candidates);
    }
    forall i, j | 0 <= i < j < |ids|
      ensures NoFarther(env, orders, anchor, ids[i], ids[j])
    {
      assert ids[i] in ids && ids[j] in ids;
      assert Km(env, orders, anchor, ids[i]) <= Km(env, orders, anchor, ids[j]);
    }
  }

  lemma WaitingCounts(orders: seq<Order>, rider: RiderId)
    ensures Total(orders, AssignedTo(rider)) == |Waiting(orders, rider)|
  {
    TotalCounts(orders, AssignedTo(rider));
    assert Waiting(orders, rider) == Ones(orders, AssignedTo(rider));
  }

  lemma TakenWait(orders: seq<Order>, next: seq<Order>, taken: set<OrderId>, rider: RiderId, now: Time)
    requires TakenAre(orders, next, taken, rider, now) && forall id :: id in taken ==> Free(orders, id)
    ensures Waiting(orders, rider) <= Waiting(next, rider) && Waiting(next, rider) - Waiting(orders, rider) == taken
    ensures |Waiting(next, rider)| == |Waiting(orders, rider)| + |taken|
  {
    assert Waiting(next, rider) == Waiting(orders, rider) + taken;
    assert Waiting(orders, rider) * taken == {};
  }

  /** The undisturbed bundling loop comes to that. */
  lemma AttachIsBundled(env: Env, w: World, anchor: OrderId, rider: RiderId, now: Time)
    ensures var next := Run(env, w, AttachCalls(env, w, anchor, rider, now));
            next == w.(orders := next.orders) && Bundled(env, w.orders, next.orders, anchor, rider, now)
  {
    hide Execute, Apply, Run, Taken, Eligible, BundleCalls;
    var ids, slots := Eligible(env, w.orders, anchor), 3 - |Waiting(w.orders, rider)|;
    EligibleAre(env, w.orders, anchor);
    WaitingCounts(w.orders, rider);
    var m := LoopTakes(env, w, ids, rider, slots, now);
    FirstOnesBundle(env, w.orders, Run(env, w, AttachCalls(env, w, anchor, rider, now)).orders, ids, m, anchor, rider,
        now);
  }

  lemma FirstOnesBundle(env: Env, orders: seq<Order>, next: seq<Order>, ids: seq<OrderId>, m: nat,
                        anchor: OrderId, rider: RiderId, now: Time)
    requires forall id: OrderId :: id in ids && Free(orders, id) <==> Joins(orders, anchor, id)
    requires NearestOnesFirst(env, orders, anchor, ids)
    requires m <= |ids| && TakenAre(orders, next, FreeAmong(orders, ids[..m]), rider, now)
    requires var slots := 3 - |Waiting(orders, rider)|;
             && |FreeAmong(orders, ids[..m])| <= Max(slots, 0)
             && (m < |ids| ==> |FreeAmong(orders, ids[..m])| == Max(slots, 0))
    ensures Bundled(env, orders, next, anchor, rider, now)
  {
    hide Taken, NoFarther, TakenAre, Joins, Waiting, NearestOnesFirst;
    var taken := FreeAmong(orders, ids[..m]);
    TakenWait(orders, next, taken, rider, now);
    forall id: OrderId | Joins(orders, anchor, id) && id !in Waiting(next, rider)
      ensures |Waiting(next, rider)| >= 3
      ensures forall near :: near in taken ==> NoFarther(env, orders, anchor, near, id)
    {
      assert id in ids && Free(orders, id) && id !in taken;
      assert id !in ids[..m] && forall i :: 0 <= i < m ==> ids[i] == ids[..m][i];
      FirstAreNearer(env, orders, anchor, ids, m, id);
    }
  }

  lemma FirstAreNearer(env: Env, orders: seq<Order>, anchor: OrderId, ids: seq<OrderId>, m: nat, id: OrderId)
    requires NearestOnesFirst(env, orders, anchor, ids) && m <= |ids| && id in ids
    requires forall i :: 0 <= i < m ==> ids[i] != id
    ensures m < |ids|
    ensures forall near :: near in ids[..m] ==> NoFarther(env, orders, anchor, near, id)
  {
    var j :| 0 <= j < |ids| && ids[j] == id;
    forall near | near in ids[..m] ensures NoFarther(env, orders, anchor, near, id) {
      var i :| 0 <= i < m && ids[..m][i] == near;
    }
  }

  // ---------------------------------------------------------------- accepting

  /** An accepted order, from `orders` to `next`: claimed by the rider and, for a STANDARD order, bundled. */
  ghost predicate ClaimedAndBundled(env: Env, orders: seq<Order>, next: seq<Order>, id: OrderId, rider: RiderId,
      now: Time)
    requires id < |orders|
  {
    var claimed := orders[id := Taken(orders[id], rider, now)];
    if orders[id].tier == Standard then Bundled(env, claimed, next, id, rider, now) else next == claimed
  }

  /** The rider may accept: verified and available; and the order is free. */
  predicate MayAccept(w: World, id: OrderId, rider: RiderId) {
    && rider < |w.riders| && w.riders[rider].verified && w.riders[rider].status == Available
    && Free(w.orders, id)
  }

  lemma ClaimTakes(env: Env, w: World, id: OrderId, rider: RiderId, now: Time)
    ensures var claim := AssignRider(id, rider, None, true);
            && (Execute(env, w, claim, now).Done? <==>
                  rider < |w.riders| && w.riders[rider].status == Available && Free(w.orders, id))
            && Apply(env, w, claim, now) ==
               if rider < |w.riders| && w.riders[rider].status == Available && Free(w.orders, id) then
                 w.(orders := w.orders[id := Taken(w.orders[id], rider, now)],
                    riders := w.riders[rider := w.riders[rider].(status := Busy)])
               else w
  {
  }

  lemma TakenFacts(o: Order, rider: RiderId, now: Time)
    ensures var t := Taken(o, rider, now);
            t.riderId == Some(rider) && t.station == o.station && t.tier == o.tier
  {
  }

  lemma BundledStations(env: Env, orders: seq<Order>, next: seq<Order>, anchor: OrderId, rider: RiderId, now: Time)
    requires anchor < |orders| && Bundled(env, orders, next, anchor, rider, now)
    ensures |next| == |orders|
    ensures forall i :: 0 <= i < |orders| && next[i].riderId != orders[i].riderId ==>
              next[i].riderId == Some(rider) && orders[i].station == orders[anchor].station
  {
  }

  /** An undisturbed `acceptOrder` either changes nothing or makes the rider BUSY and the order, with those
    * bundled, his. So every order he gets is of the accepted order's station. */
  lemma {:induction false} AcceptIsExact(env: Env, w: World, id: OrderId, rider: RiderId, now: Time)
    ensures var next := Run(env, w, AcceptCalls(env, w, id, rider, now));
            if MayAccept(w, id, rider) then
              && next == w.(orders := next.orders, riders := w.riders[rider := w.riders[rider].(status := Busy)])
              && ClaimedAndBundled(env, w.orders, next.orders, id, rider, now)
              && |next.orders| == |w.orders|
              && forall i :: 0 <= i < |w.orders| && next.orders[i].riderId != w.orders[i].riderId ==>
                   next.orders[i].riderId == Some(rider) && w.orders[i].station == w.orders[id].station
            else next == w
  {
    hide Execute, Apply, Run, AttachCalls, Taken, Bundled;
    var claim := Call(AssignRider(id, rider, None, true), now);
    ClaimTakes(env, w, id, rider, now);
    RunNone(env, w);
    if MayAccept(w, id, rider) { TakenFacts(w.orders[id], rider, now); }
    if rider < |w.riders| && w.riders[rider].verified {
      if MayAccept(w, id, rider) && w.orders[id].tier == Standard {
        var next := Apply(env, w, claim.tx, now);
        AttachIsBundled(env, next, id, rider, now);
        RunHead(env, w, claim, AttachCalls(env, next, id, rider, now));
        BundledStations(env, next.orders, Run(env, next, AttachCalls(env, next, id, rider, now)).orders, id, rider,
            now);
      } else {
        assert [] + [claim] == [claim];
        RunSnoc(env, w, [], claim);
      }
    }
  }

  // ---------------------------------------------------------------- matching

  /** The rider row once an order of the batch is claimed. */
  function Engaged(riders: seq<Rider>, rider: RiderId, engaged: bool): seq<Rider>
    requires rider < |riders|
  {
    if engaged then riders[rider := riders[rider].(status := Busy)] else riders
  }

  lemma EngagedFacts(riders: seq<Rider>, rider: RiderId)
    requires rider < |riders|
    ensures |Engaged(riders, rider, true)| == |riders| && Engaged(riders, rider, true)[rider].status == Busy
    ensures forall more :: Engaged(Engaged(riders, rider, true), rider, more) == Engaged(riders, rider, true)
    ensures Engaged(riders, rider, false) == riders
    ensures riders[rider].status == Busy ==> Engaged(riders, rider, true) == riders
  {
    var once := Engaged(riders, rider, true);
    assert once[rider := once[rider].(status := Busy)] == once;
    if riders[rider].status == Busy { assert once == riders; }
  }

  /** One attempt of the matching loop, with or without the claim of the rider. */
  lemma MatchTakes(env: Env, w: World, id: OrderId, rider: RiderId, claimed: bool, now: Time)
    requires rider < |w.riders| && w.riders[rider].status == if claimed then Busy else Available
    ensures var tx := AssignRider(id, rider, None, !claimed);
            && (Execute(env, w, tx, now).Done? <==> Free(w.orders, id))
            && Apply(env, w, tx, now) ==
               if Free(w.orders, id) then
                 w.(orders := w.orders[id := Taken(w.orders[id], rider, now)], riders := Engaged(w.riders, rider, true))
               else w
  {
    AttemptTakes(env, w, id, rider, now);
    ClaimTakes(env, w, id, rider, now);
    if claimed { assert w.riders[rider := w.riders[rider].(status := Busy)] == w.riders; }
  }

  /** The matching loop takes every free order of the batch, and the rider is BUSY if there is one. */
  lemma {:induction false} MatchLoopTakes(env: Env, w: World, ids: seq<OrderId>, rider: RiderId, claimed: bool,
                                          now: Time)
    requires Distinct(ids) && rider < |w.riders| && w.riders[rider].status == if claimed then Busy else Available
    ensures var next := Run(env, w, MatchLoop(env, w, ids, rider, claimed, now));
            && next == w.(orders := next.orders, riders := Engaged(w.riders, rider, FreeAmong(w.orders, ids) != {}))
            && TakenAre(w.orders, next.orders, FreeAmong(w.orders, ids), rider, now)
    decreases |ids|
  {
    if ids == [] {
      assert FreeAmong(w.orders, ids) == {};
    } else {
      hide Execute, Apply, Run, FreeAmong, TakenAre, Taken, Free, Engaged;
      EngagedFacts(w.riders, rider);
      var head := Call(AssignRider(ids[0], rider, None, !claimed), now);
      var next := Apply(env, w, head.tx, now);
      var won := Free(w.orders, ids[0]);
      MatchTakes(env, w, ids[0], rider, claimed, now);
      MatchLoopTakes(env, next, ids[1..], rider, claimed || won, now);
      RunHead(env, w, head, MatchLoop(env, next, ids[1..], rider, claimed || won, now));
      var last := Run(env, next, MatchLoop(env, next, ids[1..], rider, claimed || won, now)).orders;
      var n := |ids| - 1;
      assert ids[1..][..n] == ids[1..] && ids[..n + 1] == ids;
      TakenTogether(w.orders, next.orders, last, ids, n, rider, now);
      FreeSome(w.orders, next.orders, ids, rider, now);
    }
  }

  lemma FreeSome(orders: seq<Order>, next: seq<Order>, ids: seq<OrderId>, rider: RiderId, now: Time)
    requires ids != [] && Distinct(ids)
    requires next == if Free(orders, ids[0]) then orders[ids[0] := Taken(orders[ids[0]], rider, now)] else orders
    ensures FreeAmong(orders, ids) != {} <==> Free(orders, ids[0]) || FreeAmong(next, ids[1..]) != {}
  {
    var n := |ids| - 1;
    assert ids[1..][..n] == ids[1..] && ids[..n + 1] == ids;
    FreeOfRest(orders, next, ids, n, rider, now);
    if Free(orders, ids[0]) { assert ids[0] in FreeAmong(orders, ids); }
  }
}
