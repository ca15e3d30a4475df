/** The order service: every method does in place exactly what its transactions do. */
module OrdersService {
  import opened Prelude
  import opened Domain
  import opened Lifecycle
  import opened StockLevels
  import opened Pricing
  import opened Transactions
  import opened Dispatch
  import opened Bundling
  import opened Positions
  import opened Proximity
  import opened Tables
  import RidersService

  /** The reservation loop. On a refusal the caller rolls back what was written so far. */
  method ReserveInventory(db: Database, station: StationId, items: seq<Item>) returns (reply: Reply)
    modifies db`stock
    ensures match ReserveAll(old(db.stock), station, items)
            case Reserved(stock) => reply == Ok && db.stock == stock
            case Refused(error) => reply == Refusal(error)
  {
    for i := 0 to |items|
      invariant ReserveAll(old(db.stock), station, items) == ReserveAll(db.stock, station, items[i..])
    {
      var item := items[i];
      assert items[i..][0] == item && items[i..][1..] == items[i + 1..];
      var slot := Slot(station, item.kind);
      if slot !in db.stock { return Refusal(NotFound); }
      var row := db.stock[slot];
      var available := row.filled - row.reserved;
      if available < item.quantity { return Refusal(Conflict); }
      db.stock := db.stock[slot := row.(reserved := row.reserved + item.quantity, version := row.version + 1)];
    }
    return Ok;
  }

  /** Row by row: only the reserved counts of this station move, each by what the loop drains from it. */
  ghost predicate IsReleased(before: Stock, after: Stock, station: StationId, items: seq<Item>) {
    && after.Keys == before.Keys
    && forall slot :: slot in before ==>
         && after[slot].filled == before[slot].filled && after[slot].empty == before[slot].empty
         && after[slot].reserved == before[slot].reserved
              - (if slot.station == station then Drained(items, slot.kind, before[slot].reserved) else 0)
  }

  method ReleaseInventoryReservation(db: Database, station: StationId, items: seq<Item>)
    modifies db`stock
    ensures db.stock == ReleaseAll(old(db.stock), station, items)
    ensures IsReleased(old(db.stock), db.stock, station, items)
  {
    ReleaseDrains(db.stock, station, items);
    for i := 0 to |items|
      invariant ReleaseAll(old(db.stock), station, items) == ReleaseAll(db.stock, station, items[i..])
    {
      var item := items[i];
      assert items[i..][0] == item && items[i..][1..] == items[i + 1..];
      var slot := Slot(station, item.kind);
      if slot in db.stock && db.stock[slot].reserved >= item.quantity {
        var row := db.stock[slot];
        db.stock := db.stock[slot := row.(reserved := Max(0, row.reserved - item.quantity))];
      }
    }
  }

  lemma CreateOutcome(stock: Stock, d: Draft)
    ensures ReserveAll(stock, d.station, d.items).Reserved? <==>
            RowsExist(stock, d.station, d.items) && StockLevels.Available(stock, d.station, d.items)
    ensures ReserveAll(stock, d.station, d.items).Reserved? ==>
              Shifted(stock, ReserveAll(stock, d.station, d.items).stock, d.station, d.items, 1)
    ensures ReserveAll(stock, d.station, d.items).Refused? ==>
              ReserveAll(stock, d.station, d.items).error in {NotFound, Conflict}
    ensures Total(d.items, LineTotal()) == ItemsTotal(d.items)
    ensures IsSurcharge(Surcharge(ItemsTotal(d.items), d.tier), ItemsTotal(d.items), d.tier)
  {
    hide StockLevels.Available;
    ItemsTotalIsSum(d.items);
    SurchargeIsNearest(ItemsTotal(d.items), d.tier);
    RefusalsAre(stock, d.station, d.items);
    if ReserveAll(stock, d.station, d.items).Reserved? { ReserveNeedsEveryRow(stock, d.station, d.items); }
    if RowsExist(stock, d.station, d.items) { ReserveRefinesAggregate(stock, d.station, d.items); }
  }

  lemma {:induction false} RefusalsAre(stock: Stock, station: StationId, items: seq<Item>)
    ensures ReserveAll(stock, station, items).Refused? ==>
            ReserveAll(stock, station, items).error in {NotFound, Conflict}
  {
    if items != [] && ReserveOne(stock, station, items[0]).Reserved? {
      RefusalsAre(ReserveOne(stock, station, items[0]).stock, station, items[1..]);
    }
  }

  /** The row of a new order. */
  ghost predicate IsNewOrder(o: Order, d: Draft) {
    && o.customer == d.customer && o.station == d.station && o.tier == d.tier && o.lat == d.lat && o.lng == d.lng
    && o.items == d.items && o.otp == d.otp && !o.otpVerified
    && o.status == Pending && o.history == [Entry(None, Pending, Some(d.customer))] && o.stamps == map[]
    && o.riderId.None? && o.batchId.None? && o.cancellationReason.None?
    && o.subtotal == Total(d.items, LineTotal()) && o.deliveryFee == 1000
    && IsSurcharge(o.surcharge, o.subtotal, d.tier) && o.total == o.subtotal + o.deliveryFee + o.surcharge
  }

  /** Succeeds exactly when every row exists and covers, repetitions summed, what is asked of it. */
  method Create(db: Database, d: Draft) returns (reply: Reply)
    modifies db`orders, db`stock
    ensures Did(old(db.Snapshot()), db.Snapshot(), PlaceOrder(old(db.Snapshot()), d), reply)
    ensures reply.Ok? <==>
            RowsExist(old(db.stock), d.station, d.items) && StockLevels.Available(old(db.stock), d.station, d.items)
    ensures reply.Ok? ==>
              && |db.orders| == |old(db.orders)| + 1 && db.orders[..|old(db.orders)|] == old(db.orders)
              && IsNewOrder(db.orders[|old(db.orders)|], d) && Shifted(old(db.stock), db.stock, d.station, d.items, 1)
    ensures reply.Refusal? ==>
              db.orders == old(db.orders) && db.stock == old(db.stock) && reply.error in {NotFound, Conflict}
  {
    CreateOutcome(db.stock, d);
    var saved := db.stock;
    var subtotal := ItemsTotal(d.items);
    var surcharge := Surcharge(subtotal, d.tier);
    var order := Order(d.customer, d.station, d.tier, d.lat, d.lng, d.items, d.otp,
                       Pending, [Entry(None, Pending, Some(d.customer))], map[], None, None,
                       subtotal, DELIVERY_FEE, surcharge, subtotal + DELIVERY_FEE + surcharge, Split(0, 0, 0),
                       false, None);
    reply := ReserveInventory(db, d.station, d.items);
    if reply.Ok? {
      db.orders := db.orders + [order];
    } else {
      db.stock := saved;
    }
  }

  /** Writes the status with its history entry and milestone time. */
  method EnterStatus(db: Database, id: OrderId, from: Status, to: Status, actor: Option<UserId>, now: Time)
    requires id < |db.orders|
    modifies db`orders
    ensures db.orders == old(db.orders)[id := Advance(old(db.orders)[id], from, to, actor, now)]
  {
    var o := db.orders[id];
    var stamps := if Milestone(to) then o.stamps[to := now] else o.stamps;
    db.orders := db.orders[id := o.(status := to, stamps := stamps)];
    db.orders := db.orders[id := db.orders[id].(history := o.history + [Entry(Some(from), to, actor)])];
  }

  method VerifyProximity(env: Env, tracks: seq<Track>, id: OrderId, target: Coords) returns (reply: Reply)
    ensures reply == if LatestPosition(tracks, id).Some?
                        && env.metres(LatestPosition(tracks, id).value, target) <= PROXIMITY_THRESHOLD_METERS
                     then Ok else Refusal(Forbidden)
    ensures reply.Ok? <==> Within(env, tracks, id, target)
  {
    WithinIsLatest(env, tracks, id, target);
    var latest := LatestPosition(tracks, id);
    if latest.None? { return Refusal(Forbidden); }
    var distance := env.metres(latest.value, target);
    if distance > PROXIMITY_THRESHOLD_METERS { return Refusal(Forbidden); }
    return Ok;
  }

  /** The check before a checkpoint, with the errors of `enforceProximityIfRequired`. */
  method EnforceProximity(env: Env, db: Database, id: OrderId, seen: Status, to: Status) returns (reply: Reply)
    requires id < |db.orders| && Gated(to) && IsValidTransition(seen, to)
    modifies db`checks
    ensures Did(old(db.Snapshot()), db.Snapshot(), Verify(env, old(db.Snapshot()), id, seen, to), reply)
    ensures db.checks == old(db.checks) + if reply.Ok? then [Check(id, seen, to, false)] else []
  {
    var o := db.orders[id];
    if to == AtStation {
      if o.station >= |db.stations| || db.stations[o.station].place.None? { return Refusal(BadRequest); }
      reply := VerifyProximity(env, db.tracks, id, db.stations[o.station].place.value);
    } else {
      if o.lat.None? || o.lng.None? { return Refusal(BadRequest); }
      reply := VerifyProximity(env, db.tracks, id, Coords(o.lat.value, o.lng.value));
    }
    if reply.Ok? { db.checks := db.checks + [Check(id, seen, to, false)]; }
  }

  /** What `updateStatus` answers. */
  function UpdateOutcome(env: Env, w: World, id: OrderId, to: Status): Reply {
    if id >= |w.orders| then Refusal(NotFound)
    else if !IsValidTransition(w.orders[id].status, to) then Refusal(BadRequest)
    else if !Gated(to) then Ok
    else
      match Verify(env, w, id, w.orders[id].status, to)
      case Done(_) => Ok
      case Failed(error) => Refusal(error)
  }

  /** The same by columns: the next status of the chain, or CANCELLED from one of the first three; and at a
    * checkpoint the target must be known and the rider's last position within 100 m of it. */
  ghost function UpdateReply(env: Env, w: World, id: OrderId, to: Status): Reply {
    if id >= |w.orders| then Refusal(NotFound)
    else
      var from := w.orders[id].status;
      if !(|| (from != Cancelled && to !in {Cancelled, Refunded} && Rank(to) == Rank(from) + 1)
           || (to == Cancelled && from in {Pending, Accepted, InventoryReserved})) then Refusal(BadRequest)
      else if to !in CHECKPOINTS then Ok
      else if !exists target :: IsTarget(w, w.orders[id], to, target) then Refusal(BadRequest)
      else if !AtCheckpoint(env, w, id, to) then Refusal(Forbidden)
      else Ok
  }

  lemma UpdateOutcomeIs(env: Env, w: World, id: OrderId, to: Status)
    ensures UpdateOutcome(env, w, id, to) == UpdateReply(env, w, id, to)
    ensures Gated(to) <==> to in CHECKPOINTS
  {
    CheckpointsAreGated(to);
    if id < |w.orders| {
      hide OnTheSpot, AtCheckpoint, IsTarget, Target, Gated;
      TableIsTheChain(w.orders[id].status, to);
      if to in CHECKPOINTS {
        SpotIsCheckpoint(env, w, id, to);
        TargetIsUnique(w, w.orders[id], to);
      }
    }
  }

  /** The order row with its new status, its milestone time and one more history entry. */
  function Moved(o: Order, to: Status, user: UserId, now: Time): Order {
    o.(status := to, history := o.history + [Entry(Some(o.status), to, Some(user))],
       stamps :=
         if to in {Accepted, RiderAssigned, RiderArrivedPickup, CylinderPickedUp, AtStation,
                   RiderArrivedDelivery, Delivered, Completed}
         then o.stamps[to := now] else o.stamps)
  }

  lemma MovedIsAdvance(o: Order, to: Status, user: UserId, now: Time)
    ensures Moved(o, to, user, now) == Advance(o, o.status, to, Some(user), now)
  {
  }

  /** The steps of an undisturbed `updateStatus`: the check where there is one, under the next number of the
    * record, then the write that uses it up. */
  function UpdateCalls(id: OrderId, seen: Status, to: Status, user: UserId, check: nat, now: Time): seq<Call> {
    (if Gated(to) then [Call(VerifyCheckpoint(id, seen, to), now)] else [])
    + [Call(Tx.UpdateStatus(id, seen, to, user, check), now)]
  }

  lemma UpdateRun(env: Env, w: World, id: OrderId, seen: Status, to: Status, user: UserId, check: nat, now: Time)
    ensures var checked := if Gated(to) then Apply(env, w, VerifyCheckpoint(id, seen, to), now) else w;
            Run(env, w, UpdateCalls(id, seen, to, user, check, now)) ==
                Apply(env, checked, Tx.UpdateStatus(id, seen, to, user, check), now)
  {
    hide Execute, Apply;
    var write := Call(Tx.UpdateStatus(id, seen, to, user, check), now);
    if Gated(to) {
      var verify := Call(VerifyCheckpoint(id, seen, to), now);
      assert UpdateCalls(id, seen, to, user, check, now) == [verify, write];
      RunTwo(env, w, verify, write);
    } else {
      assert UpdateCalls(id, seen, to, user, check, now) == [] + [write];
      RunSnoc(env, w, [], write);
    }
  }

  lemma WriteIs(env: Env, w: World, id: OrderId, seen: Status, to: Status, user: UserId, check: nat, now: Time)
    requires id < |w.orders| && IsValidTransition(seen, to) && MayWrite(w, id, seen, to, check)
    ensures Apply(env, w, Tx.UpdateStatus(id, seen, to, user, check), now) ==
            w.(orders := w.orders[id := Advance(w.orders[id], seen, to, Some(user), now)],
               checks := if Gated(to) then w.checks[check := w.checks[check].(used := true)] else w.checks)
  {
  }

  lemma VerifyIs(env: Env, w: World, id: OrderId, seen: Status, to: Status, now: Time)
    requires Verify(env, w, id, seen, to).Done?
    ensures Apply(env, w, VerifyCheckpoint(id, seen, to), now) ==
            w.(checks := w.checks + [Check(id, seen, to, false)])
  {
  }

  method UpdateStatus(env: Env, db: Database, id: OrderId, to: Status, user: UserId, now: Time) returns (reply: Reply)
    modifies db`orders, db`checks
    ensures reply == UpdateOutcome(env, old(db.Snapshot()), id, to)
    ensures db.Snapshot() ==
            if reply.Ok? then
              Run(env, old(db.Snapshot()),
                  UpdateCalls(id, SeenStatus(old(db.orders), id), to, user, |old(db.checks)|, now))
            else old(db.Snapshot())
    ensures reply == UpdateReply(env, old(db.Snapshot()), id, to)
    ensures reply.Ok? ==>
              && db.orders == old(db.orders)[id := Moved(old(db.orders)[id], to, user, now)]
              && |db.checks| == |old(db.checks)| + (if to in CHECKPOINTS then 1 else 0)
              && db.checks[..|old(db.checks)|] == old(db.checks)
    ensures reply.Refusal? ==> db.orders == old(db.orders) && db.checks == old(db.checks)
  {
    hide Execute, Apply, Run, UpdateCalls, UpdateReply, IsValidTransition, Verify, Moved, Advance;
    UpdateOutcomeIs(env, db.Snapshot(), id, to);
    if id >= |db.orders| { return Refusal(NotFound); }
    var seen, check := db.orders[id].status, |db.checks|;
    if !IsValidTransition(seen, to) { return Refusal(BadRequest); }
    ghost var w := db.Snapshot();
    UpdateRun(env, db.Snapshot(), id, seen, to, user, check, now);
    if to == RiderArrivedPickup || to == RiderArrivedDelivery || to == Delivered || to == AtStation {
      reply := EnforceProximity(env, db, id, seen, to);
      if reply.Refusal? { return; }
      VerifyIs(env, w, id, seen, to, now);
      WriteIs(env, db.Snapshot(), id, seen, to, user, check, now);
      db.checks := db.checks[check := db.checks[check].(used := true)];
    } else {
      WriteIs(env, w, id, seen, to, user, check, now);
    }
    MovedIsAdvance(db.orders[id], to, user, now);
    EnterStatus(db, id, seen, to, Some(user), now);
    return Ok;
  }

  /** Claims the rider and the order together: if the second guarded update matches no row, the first
    * is rolled back. */
  method AssignRider(db: Database, id: OrderId, rider: RiderId, actor: Option<UserId>, claim: bool, now: Time)
    returns (reply: Reply)
    modifies db`orders, db`riders
    ensures Did(old(db.Snapshot()), db.Snapshot(), Assign(old(db.Snapshot()), id, rider, actor, claim, now), reply)
    ensures reply.Ok? <==>
            && Free(old(db.orders), id)
            && (claim ==> rider < |old(db.riders)| && old(db.riders)[rider].status == Available)
    ensures reply.Ok? ==>
              && (var o := old(db.orders)[id];
                  db.orders == old(db.orders)[id :=
                    o.(status := RiderAssigned, riderId := Some(rider), stamps := o.stamps[RiderAssigned := now],
                       history := o.history + [Entry(Some(Preparing), RiderAssigned, actor)])])
              && db.riders == if claim then old(db.riders)[rider := old(db.riders)[rider].(status := Busy)]
                              else old(db.riders)
    ensures reply.Refusal? ==>
              reply.error == Conflict && db.orders == old(db.orders) && db.riders == old(db.riders)
  {
    var saved := db.riders;
    if claim {
      if rider >= |db.riders| || db.riders[rider].status != Available { return Refusal(Conflict); }
      db.riders := db.riders[rider := db.riders[rider].(status := Busy)];
    }
    if id >= |db.orders| || db.orders[id].status != Preparing || db.orders[id].riderId.Some? {
      db.riders := saved;
      return Refusal(Conflict);
    }
    EnterStatus(db, id, Preparing, RiderAssigned, actor, now);
    db.orders := db.orders[id := db.orders[id].(riderId := Some(rider))];
    return Ok;
  }

  /** One attempt of a loop that skips failures. */
  method TryAssign(env: Env, db: Database, id: OrderId, rider: RiderId, claim: bool, now: Time) returns (won: bool)
    modifies db`orders, db`riders
    ensures db.Snapshot() == Apply(env, old(db.Snapshot()), Tx.AssignRider(id, rider, None, claim), now)
    ensures won == Execute(env, old(db.Snapshot()), Tx.AssignRider(id, rider, None, claim), now).Done?
  {
    var reply := AssignRider(db, id, rider, None, claim, now);
    won := reply.Ok?;
  }

  /** The selection of the bundling query, in table order. */
  method FindBundleCandidates(orders: seq<Order>, anchor: OrderId) returns (ids: seq<OrderId>)
    ensures ids == BundleCandidates(orders, anchor, |orders|)
  {
    ids := [];
    for i := 0 to |orders|
      invariant ids == BundleCandidates(orders, anchor, i)
    {
      if Bundleable(orders, anchor, i) { ids := ids + [i]; }
    }
  }

  lemma NextAttempt(env: Env, w: World, ids: seq<OrderId>, rider: RiderId, slots: int, now: Time)
    requires ids != [] && slots > 0
    ensures var tx := Tx.AssignRider(ids[0], rider, None, false);
            var left := if Execute(env, w, tx, now).Done? then slots - 1 else slots;
            var next := Apply(env, w, tx, now);
            Run(env, w, BundleCalls(env, w, ids, rider, slots, now)) ==
            Run(env, next, BundleCalls(env, next, ids[1..], rider, left, now))
  {
    var tx := Tx.AssignRider(ids[0], rider, None, false);
    var left := if Execute(env, w, tx, now).Done? then slots - 1 else slots;
    RunHead(env, w, Call(tx, now), BundleCalls(env, Apply(env, w, tx, now), ids[1..], rider, left, now));
  }

  lemma NoMoreAttempts(env: Env, w: World, ids: seq<OrderId>, rider: RiderId, slots: int, now: Time)
    requires ids == [] || slots <= 0
    ensures Run(env, w, BundleCalls(env, w, ids, rider, slots, now)) == w
  {
    RunNone(env, w);
  }

  /** Best-effort bundling: nearest first, one slot per success, failures skipped. */
  method AttachNearbySameStationOrders(env: Env, db: Database, anchor: OrderId, rider: RiderId, now: Time)
    modifies db`orders, db`riders
    ensures db.Snapshot() == Run(env, old(db.Snapshot()), AttachCalls(env, old(db.Snapshot()), anchor, rider, now))
    ensures db.riders == old(db.riders) && Bundled(env, old(db.orders), db.orders, anchor, rider, now)
  {
    hide Execute, Run, BundleCalls, SortByKm, BundleCandidates, Bundled;
    AttachIsBundled(env, db.Snapshot(), anchor, rider, now);
    var alreadyOnRider := Total(db.orders, AssignedTo(rider));
    var slotsLeft := MAX_ORDERS_PER_RIDER_BATCH - alreadyOnRider;
    if slotsLeft <= 0 {
      NoMoreAttempts(env, db.Snapshot(), Eligible(env, db.orders, anchor), rider, slotsLeft, now);
      return;
    }
    var candidates := FindBundleCandidates(db.orders, anchor);
    var eligible := SortByKm(env, db.orders, anchor, candidates);
    ghost var goal := Run(env, db.Snapshot(), BundleCalls(env, db.Snapshot(), eligible, rider, slotsLeft, now));
    var i := 0;
    while i < |eligible| && slotsLeft > 0
      invariant 0 <= i <= |eligible|
      invariant goal == Run(env, db.Snapshot(), BundleCalls(env, db.Snapshot(), eligible[i..], rider, slotsLeft, now))
    {
      assert eligible[i..][0] == eligible[i] && eligible[i..][1..] == eligible[i + 1..];
      NextAttempt(env, db.Snapshot(), eligible[i..], rider, slotsLeft, now);
      var won := TryAssign(env, db, eligible[i], rider, false, now);
      if won { slotsLeft := slotsLeft - 1; }
      i := i + 1;
    }
    NoMoreAttempts(env, db.Snapshot(), eligible[i..], rider, slotsLeft, now);
  }

  method AcceptOrder(env: Env, db: Database, id: OrderId, rider: RiderId, now: Time) returns (reply: Reply)
    modifies db`orders, db`riders
    ensures db.Snapshot() == Run(env, old(db.Snapshot()), AcceptCalls(env, old(db.Snapshot()), id, rider, now))
    ensures reply.Ok? <==> MayAccept(old(db.Snapshot()), id, rider)
    ensures reply.Ok? ==>
              && db.riders == old(db.riders)[rider := old(db.riders)[rider].(status := Busy)]
              && ClaimedAndBundled(env, old(db.orders), db.orders, id, rider, now) && |db.orders| == |old(db.orders)|
              && forall i :: 0 <= i < |db.orders| && db.orders[i].riderId != old(db.orders)[i].riderId ==>
                   db.orders[i].riderId == Some(rider) && old(db.orders)[i].station == old(db.orders)[id].station
    ensures reply.Refusal? ==>
              && db.orders == old(db.orders) && db.riders == old(db.riders)
              && reply.error == if rider >= |db.riders| then NotFound
                                else if !db.riders[rider].verified then Forbidden else Conflict
  {
    hide Execute, Apply, Run, AttachCalls, ClaimedAndBundled, Bundled, Assign, Did;
    AcceptIsExact(env, db.Snapshot(), id, rider, now);
    ClaimTakes(env, db.Snapshot(), id, rider, now);
    RunNone(env, db.Snapshot());
    if rider >= |db.riders| { return Refusal(NotFound); }
    if !db.riders[rider].verified { return Refusal(Forbidden); }
    ghost var w := db.Snapshot();
    ghost var call := Call(Tx.AssignRider(id, rider, None, true), now);
    reply := AssignRider(db, id, rider, None, true, now);
    assert db.Snapshot() == Apply(env, w, call.tx, now);
    if reply.Ok? && db.orders[id].tier == Standard {
      ghost var next := db.Snapshot();
      AttachNearbySameStationOrders(env, db, id, rider, now);
      RunHead(env, w, call, AttachCalls(env, next, id, rider, now));
    } else {
      RunHead(env, w, call, []);
      RunNone(env, db.Snapshot());
      assert [call] + [] == [call];
    }
  }

  lemma IdleIff(orders: seq<Order>, rider: RiderId)
    ensures Total(orders, ActiveOn(rider)) == 0 <==> forall i :: 0 <= i < |orders| ==> !HasInHand(orders[i], rider)
  {
    forall i | 0 <= i < |orders| ensures ActiveOn(rider)(orders[i]) == if HasInHand(orders[i], rider) then 1 else 0 {
      ActiveIsInHand(orders[i].status);
    }
    if i :| 0 <= i < |orders| && HasInHand(orders[i], rider) {
      TotalCovers(orders, i, ActiveOn(rider));
    } else {
      TotalZero(orders, ActiveOn(rider));
    }
  }

  method ReleaseRiderIfFree(db: Database, rider: RiderId) returns (reply: Reply)
    modifies db`riders
    ensures Did(old(db.Snapshot()), db.Snapshot(),
                Release(old(db.Snapshot()), rider, Total(old(db.orders), ActiveOn(rider))), reply)
    ensures reply.Ok? <==>
            rider < |old(db.riders)| && forall i :: 0 <= i < |db.orders| ==> !HasInHand(db.orders[i], rider)
    ensures db.riders == if reply.Ok? then old(db.riders)[rider := old(db.riders)[rider].(status := Available)]
                         else old(db.riders)
  {
    IdleIff(db.orders, rider);
    var stillActive := Total(db.orders, ActiveOn(rider));
    if stillActive == 0 {
      reply := RidersService.SetAvailability(db, rider, Available);
      if reply.Refusal? { reply := Refusal(NotFound); }
    } else {
      reply := Refusal(Skipped);
    }
  }

  method ConfirmDelivery(db: Database, id: OrderId, user: UserId, code: string, now: Time) returns (reply: Reply)
    modifies db`orders
    ensures Did(old(db.Snapshot()), db.Snapshot(),
                Confirm(old(db.Snapshot()), id, SeenStatus(old(db.orders), id), user, code, now), reply)
    ensures reply ==
            if id >= |old(db.orders)| then Refusal(NotFound)
            else if old(db.orders)[id].customer != user then Refusal(Forbidden)
            else if old(db.orders)[id].status != Delivered || old(db.orders)[id].otp != code then Refusal(BadRequest)
            else Ok
    ensures db.orders ==
            if reply.Refusal? then old(db.orders)
            else
              var o := old(db.orders)[id];
              old(db.orders)[id := o.(status := CustomerConfirmed, otpVerified := true,
                  history := o.history + [Entry(Some(Delivered), CustomerConfirmed, Some(user))])]
  {
    if id >= |db.orders| { return Refusal(NotFound); }
    var o := db.orders[id];
    if o.customer != user { return Refusal(Forbidden); }
    if o.status != Delivered { return Refusal(BadRequest); }
    if o.otp != code { return Refusal(BadRequest); }
    EnterStatus(db, id, Delivered, CustomerConfirmed, Some(user), now);
    db.orders := db.orders[id := db.orders[id].(otpVerified := true)];
    return Ok;
  }

  method CancelOrder(db: Database, id: OrderId, user: UserId, role: Role, reason: string, now: Time)
    returns (reply: Reply)
    modifies db`orders, db`stock
    ensures Did(old(db.Snapshot()), db.Snapshot(),
                Cancel(old(db.Snapshot()), id, SeenStatus(old(db.orders), id), user, role, reason, now), reply)
    ensures reply ==
            if id >= |old(db.orders)| then Refusal(NotFound)
            else if old(db.orders)[id].status !in
                {Pending, Accepted, InventoryReserved, Preparing, RiderAssigned, RiderEnRoutePickup,
                 RiderArrivedPickup} then Refusal(BadRequest)
            else if role == Customer && old(db.orders)[id].customer != user then Refusal(Forbidden)
            else Ok
    ensures if reply.Refusal? then db.orders == old(db.orders) && db.stock == old(db.stock)
            else
              var o := old(db.orders)[id];
              && IsReleased(old(db.stock), db.stock, o.station, o.items)
              && db.orders == old(db.orders)[id := o.(status := Cancelled, cancellationReason := Some(reason),
                   history := o.history + [Entry(Some(o.status), Cancelled, Some(user))])]
  {
    if id >= |db.orders| { return Refusal(NotFound); }
    var o := db.orders[id];
    if !Cancellable(o.status) { return Refusal(BadRequest); }
    if role == Customer && o.customer != user { return Refusal(Forbidden); }
    ReleaseInventoryReservation(db, o.station, o.items);
    EnterStatus(db, id, o.status, Cancelled, Some(user), now);
    db.orders := db.orders[id := db.orders[id].(cancellationReason := Some(reason))];
    return Ok;
  }
}
