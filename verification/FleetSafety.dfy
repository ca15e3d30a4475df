/** Riders over runs of atomic service calls. */
module FleetSafety {
  import opened Prelude
  import opened Domain
  import opened Lifecycle
  import opened StockLevels
  import opened Transactions
  import opened OrderHistory
  import opened RowFrames
  import opened Clustering
  import opened Dispatch
  import opened BatchRuns

  /** 1 for an order that the rider has in hand. */
  function InHand(rider: RiderId): Order -> int {
    (o: Order) => if HasInHand(o, rider) then 1 else 0
  }

  /** The orders that the rider has in hand. */
  function Load(w: World, rider: RiderId): int {
    Total(w.orders, InHand(rider))
  }

  /** That is what the release counts. */
  lemma CountIsLoad(w: World, rider: RiderId)
    ensures Total(w.orders, ActiveOn(rider)) == Load(w, rider)
  {
    forall i | 0 <= i < |w.orders| ensures ActiveOn(rider)(w.orders[i]) == InHand(rider)(w.orders[i]) {
      ActiveIsInHand(w.orders[i].status);
    }
    TotalMonotone(w.orders, ActiveOn(rider), InHand(rider));
    TotalMonotone(w.orders, InHand(rider), ActiveOn(rider));
  }

  function StatusOf(w: World, rider: RiderId): Option<RiderStatus> {
    if rider < |w.riders| then Some(w.riders[rider].status) else None
  }

  /** A rider with work is BUSY, and carries at most three orders. */
  ghost predicate FleetSafe(w: World) {
    forall r: RiderId :: Load(w, r) <= 3 && (Load(w, r) > 0 ==> StatusOf(w, r) == Some(Busy))
  }

  lemma LoadNonNegative(w: World, r: RiderId)
    ensures Load(w, r) >= 0
  {
    TotalNonNegative(w.orders, InHand(r));
  }

  // ---------------------------------------------------------------- one assignment

  lemma AssignMovesLoad(w: World, id: OrderId, rider: RiderId, actor: Option<UserId>, claim: bool, now: Time)
    requires Assign(w, id, rider, actor, claim, now).Done?
    ensures var next := Assign(w, id, rider, actor, claim, now).world;
            && Load(next, rider) == Load(w, rider) + 1
            && (forall r: RiderId :: r != rider ==> Load(next, r) == Load(w, r))
            && (forall r: RiderId :: StatusOf(next, r) == if claim && r == rider then Some(Busy) else StatusOf(w, r))
            && (claim ==> StatusOf(w, rider) == Some(Available))
            && next.batches == w.batches
  {
    var next := Assign(w, id, rider, actor, claim, now).world;
    forall r: RiderId ensures Load(next, r) == Load(w, r) + (if r == rider then 1 else 0) {
      TotalUpdate(w.orders, id, next.orders[id], InHand(r));
    }
  }

  /** An assignment keeps the fleet safe if it claims the rider or the rider is busy with room. */
  lemma AssignKeepsFleet(env: Env, w: World, id: OrderId, rider: RiderId, actor: Option<UserId>, claim: bool, now: Time)
    requires FleetSafe(w)
    requires claim || (StatusOf(w, rider) == Some(Busy) && Load(w, rider) <= 2)
    ensures FleetSafe(Apply(env, w, AssignRider(id, rider, actor, claim), now))
  {
    if Assign(w, id, rider, actor, claim, now).Done? {
      AssignMovesLoad(w, id, rider, actor, claim, now);
      LoadNonNegative(w, rider);
    }
  }

  // ---------------------------------------------------------------- bundling

  lemma {:induction false} BundlingKeepsFleet(env: Env, w: World, ids: seq<OrderId>, rider: RiderId, slots: int,
                                              now: Time)
    requires FleetSafe(w) && StatusOf(w, rider) == Some(Busy) && Load(w, rider) + Max(slots, 0) <= 3
    ensures FleetSafe(Run(env, w, BundleCalls(env, w, ids, rider, slots, now)))
    decreases |ids|
  {
    if ids != [] && slots > 0 {
      var head := Call(AssignRider(ids[0], rider, None, false), now);
      var next := Apply(env, w, head.tx, now);
      var won := Execute(env, w, head.tx, now).Done?;
      var left := if won then slots - 1 else slots;
      AssignKeepsFleet(env, w, ids[0], rider, None, false, now);
      if won { AssignMovesLoad(w, ids[0], rider, None, false, now); }
      BundlingKeepsFleet(env, next, ids[1..], rider, left, now);
      RunHead(env, w, head, BundleCalls(env, next, ids[1..], rider, left, now));
    }
  }

  /** Right after the claim, the count of assigned orders is the whole load: exactly one. */
  lemma LoadAfterClaim(w: World, id: OrderId, rider: RiderId, now: Time)
    requires FleetSafe(w) && Assign(w, id, rider, None, true, now).Done?
    ensures var next := Assign(w, id, rider, None, true, now).world;
            Load(next, rider) == 1 && Total(next.orders, AssignedTo(rider)) == 1 && StatusOf(next, rider) == Some(Busy)
  {
    var next := Assign(w, id, rider, None, true, now).world;
    AssignMovesLoad(w, id, rider, None, true, now);
    LoadNonNegative(w, rider);
    TotalCovers(next.orders, id, AssignedTo(rider));
    TotalMonotone(next.orders, AssignedTo(rider), InHand(rider));
  }

  lemma AcceptKeepsFleet(env: Env, w: World, id: OrderId, rider: RiderId, now: Time)
    requires FleetSafe(w)
    ensures FleetSafe(Run(env, w, AcceptCalls(env, w, id, rider, now)))
  {
    if rider < |w.riders| && w.riders[rider].verified {
      var head := Call(AssignRider(id, rider, None, true), now);
      var next := Apply(env, w, head.tx, now);
      AssignKeepsFleet(env, w, id, rider, None, true, now);
      SingleCallIsSerial(env, w, head);
      if Assign(w, id, rider, None, true, now).Done? && w.orders[id].tier == Standard {
        LoadAfterClaim(w, id, rider, now);
        BundlingKeepsFleet(env, next, Eligible(env, next.orders, id), rider,
                           MAX_ORDERS_PER_RIDER_BATCH - Total(next.orders, AssignedTo(rider)), now);
        RunHead(env, w, head, AttachCalls(env, next, id, rider, now));
      }
    }
  }

  // ---------------------------------------------------------------- matching

  lemma {:induction false} MatchLoopKeepsFleet(env: Env, w: World, ids: seq<OrderId>, rider: RiderId, claimed: bool,
                                               now: Time)
    requires FleetSafe(w) && Load(w, rider) + |ids| <= 3
    requires StatusOf(w, rider) == Some(if claimed then Busy else Available)
    ensures FleetSafe(Run(env, w, MatchLoop(env, w, ids, rider, claimed, now)))
    decreases |ids|
  {
    if ids != [] {
      var head := Call(AssignRider(ids[0], rider, None, !claimed), now);
      var next := Apply(env, w, head.tx, now);
      var won := Execute(env, w, head.tx, now).Done?;
      AssignKeepsFleet(env, w, ids[0], rider, None, !claimed, now);
      if won { AssignMovesLoad(w, ids[0], rider, None, !claimed, now); }
      MatchLoopKeepsFleet(env, next, ids[1..], rider, claimed || won, now);
      RunHead(env, w, head, MatchLoop(env, next, ids[1..], rider, claimed || won, now));
    }
  }

  lemma MatchKeepsFleet(env: Env, w: World, batch: BatchId, now: Time)
    requires BatchesExact(w) && FleetSafe(w)
    ensures FleetSafe(Run(env, w, MatchCalls(env, w, batch, now)))
  {
    hide Execute;
    if batch < |w.batches| && w.batches[batch].status == Open
       && Nearest(env, w.riders, w.batches[batch].centroid).Some?
    {
      var rider := Nearest(env, w.riders, w.batches[batch].centroid).value;
      var ids := BatchMembers(w.orders, batch);
      var after := Run(env, w, MatchLoop(env, w, ids, rider, false, now));
      MatchRound(env, w, batch, rider, now);
      MembersOfBatch(w.orders, batch);
      LoadNonNegative(w, rider);
      MatchLoopKeepsFleet(env, w, ids, rider, false, now);
      ClosingKeepsFleet(env, after, batch, rider, now);
    }
  }

  lemma ClosingKeepsFleet(env: Env, w: World, batch: BatchId, rider: RiderId, now: Time)
    requires FleetSafe(w)
    ensures FleetSafe(Apply(env, w, CloseBatch(batch, rider), now))
  {
    var next := Apply(env, w, CloseBatch(batch, rider), now);
    assert next.orders == w.orders && next.riders == w.riders;
    assert forall r: RiderId :: Load(next, r) == Load(w, r) && StatusOf(next, r) == StatusOf(w, r);
  }

  // ---------------------------------------------------------------- clustering

  lemma MakingKeepsFleet(w: World, group: Group, centroid: Coords)
    requires FleetSafe(w)
    ensures FleetSafe(OpenBatch(w, group, centroid))
  {
    var next := OpenBatch(w, group, centroid);
    TagRows(w.orders, group, |w.batches|);
    forall r: RiderId ensures Load(next, r) == Load(w, r) && StatusOf(next, r) == StatusOf(w, r) {
      TotalCongruent(w.orders, next.orders, InHand(r));
    }
  }

  lemma {:induction false} MakingAllKeepsFleet(env: Env, w: World, orders: seq<Order>, groups: seq<Group>, now: Time)
    requires FleetSafe(w)
    ensures FleetSafe(Run(env, w, BatchCalls(orders, groups, now)))
    decreases |groups|
  {
    if groups != [] {
      var head := BatchCalls(orders, groups, now)[0];
      MakingKeepsFleet(w, groups[0], head.tx.centroid);
      MakingAllKeepsFleet(env, Apply(env, w, head.tx, now), orders, groups[1..], now);
      RunHead(env, w, head, BatchCalls(orders, groups[1..], now));
    }
  }

  // ---------------------------------------------------------------- single transactions

  /** No rider takes himself off BUSY with work in hand. */
  ghost predicate Considerate(w: World, tx: Tx) {
    tx.SetAvailability? ==> tx.availability == Busy || Load(w, tx.rider) == 0
  }

  lemma {:induction false} RowLoad(env: Env, w: World, tx: Tx, now: Time, i: OrderId, r: RiderId)
    requires AllSound(w) && Serial(w, tx) && !tx.AssignRider? && i < |w.orders|
    ensures i < |Apply(env, w, tx, now).orders|
    ensures InHand(r)(Apply(env, w, tx, now).orders[i]) <= InHand(r)(w.orders[i])
  {
    hide Execute;
    RowFrame(env, w, tx, now, i);
    var o, n := w.orders[i], Apply(env, w, tx, now).orders[i];
    if !SameHistory(o, n) {
      StatusWriteMovesOneRow(env, w, tx, now);
      EntryCountUnlessCancelled(o);
    }
  }

  lemma LoadsDoNotGrow(env: Env, w: World, tx: Tx, now: Time, r: RiderId)
    requires AllSound(w) && Serial(w, tx) && !tx.AssignRider?
    ensures Load(Apply(env, w, tx, now), r) <= Load(w, r)
  {
    hide Execute;
    var next := Apply(env, w, tx, now);
    var n := |w.orders|;
    NewRows(env, w, tx, now);
    forall i | 0 <= i < n ensures InHand(r)(next.orders[i]) <= InHand(r)(w.orders[i]) {
      RowLoad(env, w, tx, now, i, r);
    }
    TotalDominates(w.orders, next.orders[..n], InHand(r));
    if |next.orders| > n {
      TotalAppend(next.orders[..n], next.orders[n], InHand(r));
      assert next.orders == next.orders[..n] + [next.orders[n]];
    } else {
      assert next.orders == next.orders[..n];
    }
  }

  lemma WalletsKeepStatus(env: Env, w: World, tx: Tx, now: Time, r: RiderId)
    requires (tx.CreditPayee? || tx.Withdraw? || tx.CreateWallet?) && r < |w.riders|
    ensures StatusOf(Apply(env, w, tx, now), r) == StatusOf(w, r)
  {
    hide CreditTo, DebitFrom;
  }

  lemma ProfilesKeepStatus(env: Env, w: World, tx: Tx, now: Time, r: RiderId)
    requires (tx.RecordLocation? || tx.CreateRider? || tx.ReviewRider?) && r < |w.riders|
    ensures StatusOf(Apply(env, w, tx, now), r) == StatusOf(w, r)
  {
  }

  lemma StatusStays(env: Env, w: World, tx: Tx, now: Time, r: RiderId)
    requires !tx.AssignRider? && !tx.SetAvailability? && !tx.ReleaseRider? && r < |w.riders|
    ensures StatusOf(Apply(env, w, tx, now), r) == StatusOf(w, r)
  {
    hide Execute, Apply;
    if tx.CreditPayee? || tx.Withdraw? || tx.CreateWallet? {
      WalletsKeepStatus(env, w, tx, now, r);
    } else if tx.RecordLocation? || tx.CreateRider? || tx.ReviewRider? {
      ProfilesKeepStatus(env, w, tx, now, r);
    } else {
      Frames(env, w, tx, now);
    }
  }

  lemma BusyStays(env: Env, w: World, tx: Tx, now: Time, r: RiderId)
    requires (tx.SetAvailability? || tx.ReleaseRider?) && Serial(w, tx) && Considerate(w, tx) && Load(w, r) > 0
    requires StatusOf(w, r) == Some(Busy)
    ensures StatusOf(Apply(env, w, tx, now), r) == Some(Busy)
  {
    if tx.ReleaseRider? { CountIsLoad(w, tx.rider); }
  }

  lemma DirectKeepsFleet(env: Env, w: World, tx: Tx, now: Time)
    requires AllSound(w) && FleetSafe(w) && Serial(w, tx) && !tx.AssignRider? && Considerate(w, tx)
    ensures FleetSafe(Apply(env, w, tx, now))
  {
    hide Execute, Apply, Serial, Load;
    var next := Apply(env, w, tx, now);
    forall r: RiderId ensures Load(next, r) <= 3 && (Load(next, r) > 0 ==> StatusOf(next, r) == Some(Busy)) {
      LoadsDoNotGrow(env, w, tx, now, r);
      LoadNonNegative(w, r);
      if Load(w, r) > 0 {
        if tx.SetAvailability? || tx.ReleaseRider? {
          BusyStays(env, w, tx, now, r);
        } else {
          StatusStays(env, w, tx, now, r);
        }
      }
    }
  }

  // ---------------------------------------------------------------- runs

  lemma {:induction false} JobKeepsFleet(env: Env, w: World, job: Job)
    requires AllSound(w) && BatchesExact(w) && FleetSafe(w)
    requires Atomic(w, job.op) && (job.op.Direct? ==> Considerate(w, job.op.tx))
    ensures FleetSafe(Perform(env, w, job))
  {
    hide Execute;
    match job.op {
      case Direct(tx) =>
        SingleCallIsSerial(env, w, Call(tx, job.now));
        if tx.AssignRider? {
          AssignKeepsFleet(env, w, tx.order, tx.rider, tx.actor, tx.claim, job.now);
        } else {
          DirectKeepsFleet(env, w, tx, job.now);
        }
      case Accept(order, rider) => AcceptKeepsFleet(env, w, order, rider, job.now);
      case ClusterPending => MakingAllKeepsFleet(env, w, w.orders, Clusters(env, w.orders), job.now);
      case MatchBatch(batch) => MatchKeepsFleet(env, w, batch, job.now);
    }
  }

  ghost predicate ConsiderateRun(env: Env, w: World, jobs: seq<Job>) {
    forall k :: 0 <= k < |jobs| && jobs[k].op.Direct? ==> Considerate(RunJobs(env, w, jobs[..k]), jobs[k].op.tx)
  }

  lemma {:induction false} ConsideratePrefix(env: Env, w: World, jobs: seq<Job>, n: nat)
    requires ConsiderateRun(env, w, jobs) && n <= |jobs|
    ensures ConsiderateRun(env, w, jobs[..n])
  {
    hide Execute;
    forall k | 0 <= k < n && jobs[..n][k].op.Direct?
      ensures Considerate(RunJobs(env, w, jobs[..n][..k]), jobs[..n][k].op.tx)
    {
      assert jobs[..n][..k] == jobs[..k];
    }
  }

  lemma {:induction false} FleetSafeOverRuns(env: Env, w: World, jobs: seq<Job>)
    requires Initial(w) && AtomicRun(env, w, jobs) && ConsiderateRun(env, w, jobs)
    ensures FleetSafe(RunJobs(env, w, jobs))
  {
    hide Execute;
    if jobs != [] {
      var n := |jobs| - 1;
      AtomicPrefix(env, w, jobs, n);
      ConsideratePrefix(env, w, jobs, n);
      FleetSafeOverRuns(env, w, jobs[..n]);
      SoundOverJobs(env, w, jobs[..n]);
      NoOrderIsStranded(env, w, jobs[..n]);
      JobKeepsFleet(env, RunJobs(env, w, jobs[..n]), jobs[n]);
    }
  }

  /** The rider was assigned the order, and it is neither cancelled nor delivered. */
  ghost predicate Carries(o: Order, rider: RiderId) {
    && o.riderId == Some(rider) && Entered(o, RiderAssigned)
    && o.status !in {Cancelled, Delivered, CustomerConfirmed, Completed}
  }

  /** On a faithful history that is the work in hand. */
  lemma CarriesIsInHand(o: Order, rider: RiderId)
    requires FaithfulPath(o)
    ensures Carries(o, rider) <==> HasInHand(o, rider)
  {
    EntryCountUnlessCancelled(o);
    NeverRefundedNorLateCancelled(o);
    assert o.history[|o.history| - 1].to == o.status;
    if |o.history| >= 5 { assert Rank(o.history[4].to) == 4 || o.status == Cancelled; }
  }

  /** The orders that a rider carries. */
  ghost function Carried(orders: seq<Order>, rider: RiderId): set<OrderId> {
    set id: OrderId | id < |orders| && Carries(orders[id], rider)
  }

  lemma CarriedIsLoad(w: World, rider: RiderId)
    requires AllSound(w)
    ensures |Carried(w.orders, rider)| == Load(w, rider)
  {
    TotalCounts(w.orders, InHand(rider));
    forall id: OrderId | id < |w.orders| ensures Carries(w.orders[id], rider) <==> InHand(rider)(w.orders[id]) == 1 {
      CarriesIsInHand(w.orders[id], rider);
    }
    assert Carried(w.orders, rider) == Ones(w.orders, InHand(rider));
  }

  /** Fleet safety: across direct assignment, accept-and-bundle, batch matching and release, a rider who was
    * assigned an order that is neither cancelled nor delivered is BUSY, an AVAILABLE rider carries nothing,
    * and nobody ever carries more than three. */
  lemma {:induction false} FleetIsSafe(env: Env, w: World, jobs: seq<Job>, rider: RiderId)
    requires Initial(w) && AtomicRun(env, w, jobs) && ConsiderateRun(env, w, jobs)
    ensures var next := RunJobs(env, w, jobs);
            && |Carried(next.orders, rider)| <= 3
            && (Carried(next.orders, rider) != {} ==> rider < |next.riders| && next.riders[rider].status == Busy)
  {
    hide Execute;
    FleetSafeOverRuns(env, w, jobs);
    SoundOverJobs(env, w, jobs);
    var next := RunJobs(env, w, jobs);
    CarriedIsLoad(next, rider);
    if Carried(next.orders, rider) != {} {
      var id :| id in Carried(next.orders, rider);
      assert |Carried(next.orders, rider)| > 0;
    }
  }

  /** In a safe fleet a release leaves the rider AVAILABLE exactly when no active order is left, and
    * changes nobody else. */
  lemma ReleaseFreesExactlyTheIdle(env: Env, w: World, rider: RiderId, now: Time)
    requires FleetSafe(w) && rider < |w.riders|
    ensures var next := Apply(env, w, ReleaseRider(rider, Load(w, rider)), now);
            && (StatusOf(next, rider) == Some(Available) <==> Load(next, rider) == 0)
            && (Load(w, rider) > 0 ==> next == w)
            && forall r: RiderId :: r != rider ==> StatusOf(next, r) == StatusOf(w, r)
  {
    var next := Apply(env, w, ReleaseRider(rider, Load(w, rider)), now);
    assert next.orders == w.orders;
    LoadNonNegative(w, rider);
  }

  /** A release counts without a lock: one that counted zero keeps a safe fleet safe exactly when no
    * active order has come in since. */
  lemma StaleReleaseKeepsFleetIff(env: Env, w: World, rider: RiderId, now: Time)
    requires FleetSafe(w) && rider < |w.riders|
    ensures FleetSafe(Apply(env, w, ReleaseRider(rider, 0), now)) <==> Load(w, rider) == 0
  {
    var next := Apply(env, w, ReleaseRider(rider, 0), now);
    assert forall r: RiderId :: Load(next, r) == Load(w, r);
    LoadNonNegative(w, rider);
    assert StatusOf(next, rider) == Some(Available);
  }

  /** The unguarded `setAvailability` keeps a safe fleet safe exactly when it is considerate. */
  lemma AvailabilityKeepsFleetIff(env: Env, w: World, rider: RiderId, status: RiderStatus, now: Time)
    requires FleetSafe(w) && rider < |w.riders|
    ensures FleetSafe(Apply(env, w, SetAvailability(rider, status), now)) <==> status == Busy || Load(w, rider) == 0
  {
    var next := Apply(env, w, SetAvailability(rider, status), now);
    assert forall r: RiderId :: Load(next, r) == Load(w, r);
    LoadNonNegative(w, rider);
    assert StatusOf(next, rider) == Some(status);
  }
}
