/** The periodic batching job: cluster waiting orders, then match a rider to each open batch. */
module BatchingService {
  import opened Prelude
  import opened Domain
  import opened Transactions
  import opened Clustering
  import opened Dispatch
  import opened Tables
  import opened BatchOutcome
  import OrdersService
  import RidersService

  method FindCandidates(orders: seq<Order>) returns (ids: seq<OrderId>)
    ensures ids == Candidates(orders)
  {
    ids := [];
    for i := 0 to |orders|
      invariant ids == Candidates(orders[..i])
    {
      assert orders[..i + 1][..i] == orders[..i];
      if Clusterable(orders[i]) { ids := ids + [i]; }
    }
    assert orders[..|orders|] == orders;
  }

  /** The insertion-ordered map from stations to their waiting orders. */
  method GroupByStation(orders: seq<Order>, ids: seq<OrderId>) returns (pools: seq<Pool>)
    ensures pools == ByStation(orders, ids)
  {
    pools := [];
    for i := 0 to |ids|
      invariant pools == ByStation(orders, ids[..i])
    {
      assert ids[..i + 1][..i] == ids[..i];
      pools := AddToPools(pools, StationOf(orders, ids[i]), ids[i]);
    }
    assert ids[..|ids|] == ids;
  }

  /** One round of the inner loop. */
  lemma GatherOnce(env: Env, orders: seq<Order>, group: Group, pool: seq<OrderId>, i: nat)
    requires group != [] && i < |pool| && |group| < MAX_BATCH_SIZE
    ensures Gather(env, orders, group, pool, i) ==
            if Close(env, orders, group[0], pool[i]) then
              Gather(env, orders, group + [pool[i]], pool[..i] + pool[i + 1..], i - 1)
            else Gather(env, orders, group, pool, i - 1)
  {
    hide Close;
  }

  lemma GatherEnds(env: Env, orders: seq<Order>, group: Group, pool: seq<OrderId>, i: int)
    requires group != [] && -1 <= i < |pool| && (i < 0 || |group| >= MAX_BATCH_SIZE)
    ensures Gather(env, orders, group, pool, i) == Gathered(group, pool)
  {
  }

  /** One round of the outer loop. */
  lemma ClusterOnce(env: Env, orders: seq<Order>, pool: seq<OrderId>)
    requires pool != []
    ensures var g := Gather(env, orders, [pool[0]], pool[1..], |pool| - 2);
            ClusterPool(env, orders, pool) == [g.group] + ClusterPool(env, orders, g.pool)
  {
    hide Gather;
  }

  lemma NothingToCluster(env: Env, orders: seq<Order>)
    ensures ClusterPool(env, orders, []) == []
  {
  }

  /** Clusters one station's pool, removing members from it in place. */
  method ClusterStation(env: Env, orders: seq<Order>, waiting: seq<OrderId>) returns (groups: seq<Group>)
    ensures groups == ClusterPool(env, orders, waiting)
    ensures multiset(Flatten(groups)) == multiset(waiting)
    ensures forall k :: 0 <= k < |groups| ==> WellGathered(env, orders, groups[k])
    ensures Exhaustive(env, orders, groups)
  {
    hide Gather, ClusterPool, WellGathered, Exhaustive, Flatten;
    groups := [];
    var pool := waiting;
    while |pool| > 0
      invariant groups + ClusterPool(env, orders, pool) == ClusterPool(env, orders, waiting)
      decreases |pool|
    {
      ghost var start := pool;
      var seed := pool[0];
      pool := pool[1..];
      var group := [seed];
      var i := |pool| - 1;
      while i >= 0 && |group| < MAX_BATCH_SIZE
        invariant -1 <= i < |pool| && |pool| < |start|
        invariant group != [] && group[0] == seed
        invariant Gather(env, orders, group, pool, i) == Gather(env, orders, [start[0]], start[1..], |start| - 2)
        decreases i
      {
        var candidate := pool[i];
        GatherOnce(env, orders, group, pool, i);
        if Close(env, orders, seed, candidate) {
          group := group + [candidate];
          pool := pool[..i] + pool[i + 1..];
        }
        i := i - 1;
      }
      GatherEnds(env, orders, group, pool, i);
      ClusterOnce(env, orders, start);
      groups := groups + [group];
    }
    NothingToCluster(env, orders);
    ClusterPoolIsCorrect(env, orders, waiting);
  }

  method ClusterEveryStation(env: Env, orders: seq<Order>) returns (groups: seq<Group>)
    ensures groups == Clusters(env, orders)
  {
    var candidates := FindCandidates(orders);
    var byStation := GroupByStation(orders, candidates);
    groups := [];
    for i := 0 to |byStation|
      invariant groups + ClusterAll(env, orders, byStation[i..]) == ClusterAll(env, orders, byStation)
    {
      assert byStation[i..][0] == byStation[i] && byStation[i..][1..] == byStation[i + 1..];
      var more := ClusterStation(env, orders, byStation[i].ids);
      groups := groups + more;
    }
  }

  /** Saves one batch and points its orders at it. */
  method SaveBatch(db: Database, group: Group, centroid: Coords)
    modifies db`batches, db`orders
    ensures db.Snapshot() == OpenBatch(old(db.Snapshot()), group, centroid)
  {
    var batch := |db.batches|;
    db.batches := db.batches + [Batch(None, Open, centroid, |group|)];
    for i := 0 to |group|
      invariant db.batches == old(db.batches) + [Batch(None, Open, centroid, |group|)]
      invariant db.orders == Tag(old(db.orders), group[..i], batch)
    {
      assert group[..i + 1][..i] == group[..i];
      if group[i] < |db.orders| {
        db.orders := db.orders[group[i] := db.orders[group[i]].(batchId := Some(batch))];
      }
    }
    assert group[..|group|] == group;
  }

  lemma {:induction false} FirstBatch(env: Env, w: World, orders: seq<Order>, groups: seq<Group>, now: Time)
    requires groups != [] && groups[0] != []
    ensures Run(env, w, BatchCalls(orders, groups, now)) ==
            Run(env, OpenBatch(w, groups[0], Centroid(orders, groups[0])), BatchCalls(orders, groups[1..], now))
  {
    RunHead(env, w, Call(MakeBatch(groups[0], Centroid(orders, groups[0])), now), BatchCalls(orders, groups[1..], now));
  }

  method ClusterPendingOrders(env: Env, db: Database, now: Time)
    modifies db`batches, db`orders
    ensures db.Snapshot() == Run(env, old(db.Snapshot()), ClusterCalls(env, old(db.Snapshot()), now))
    ensures NoStray(old(db.Snapshot())) ==>
              exists groups :: Clustered(env, old(db.Snapshot()), db.Snapshot(), groups)
  {
    hide Execute, NoStray, Clustered;
    if NoStray(db.Snapshot()) { ClusteringIsExact(env, db.Snapshot(), now); }
    var orders := db.orders;
    var groups := ClusterEveryStation(env, orders);
    ghost var goal := Run(env, db.Snapshot(), BatchCalls(orders, groups, now));
    ClusteringIsCorrect(env, orders);
    for i := 0 to |groups|
      invariant goal == Run(env, db.Snapshot(), BatchCalls(orders, groups[i..], now))
    {
      assert groups[i..][0] == groups[i] && groups[i..][1..] == groups[i + 1..];
      assert WellGathered(env, orders, groups[i]);
      FirstBatch(env, db.Snapshot(), orders, groups[i..], now);
      SaveBatch(db, groups[i], Centroid(orders, groups[i]));
    }
  }

  method FindBatchMembers(orders: seq<Order>, batch: BatchId) returns (ids: seq<OrderId>)
    ensures ids == BatchMembers(orders, batch)
  {
    ids := [];
    for i := 0 to |orders|
      invariant ids == BatchMembers(orders[..i], batch)
    {
      assert orders[..i + 1][..i] == orders[..i];
      if orders[i].batchId == Some(batch) { ids := ids + [i]; }
    }
    assert orders[..|orders|] == orders;
  }

  /** One round of the matching loop. */
  method MatchRiderToBatch(env: Env, db: Database, batch: BatchId, now: Time)
    requires batch < |db.batches| && db.batches[batch].status == Open
    modifies db`orders, db`riders, db`batches
    ensures db.Snapshot() == Run(env, old(db.Snapshot()), MatchCalls(env, old(db.Snapshot()), batch, now))
    ensures IsMatched(env, old(db.Snapshot()), db.Snapshot(), batch, now)
  {
    hide Execute, IsMatched;
    MatchingIsExact(env, db.Snapshot(), batch, now);
    ghost var w := db.Snapshot();
    var found := RidersService.FindNearestAvailable(env, db.riders, db.batches[batch].centroid);
    if found.None? { return; }
    var rider := found.value;
    var ids := FindBatchMembers(db.orders, batch);
    ghost var goal := Run(env, w, MatchLoop(env, w, ids, rider, false, now));
    var riderClaimed := false;
    for i := 0 to |ids|
      invariant db.batches == old(db.batches)
      invariant goal == Run(env, db.Snapshot(), MatchLoop(env, db.Snapshot(), ids[i..], rider, riderClaimed, now))
    {
      assert ids[i..][0] == ids[i] && ids[i..][1..] == ids[i + 1..];
      NextMatch(env, db.Snapshot(), ids[i..], rider, riderClaimed, now);
      var won := OrdersService.TryAssign(env, db, ids[i], rider, !riderClaimed, now);
      if won { riderClaimed := true; }
    }
    BatchRuns.MatchRound(env, w, batch, rider, now);
    CloseMatched(env, db, batch, rider, now);
  }

  method CloseMatched(env: Env, db: Database, batch: BatchId, rider: RiderId, now: Time)
    requires batch < |db.batches|
    modifies db`batches
    ensures db.Snapshot() == Apply(env, old(db.Snapshot()), Tx.CloseBatch(batch, rider), now)
  {
    db.batches := db.batches[batch := db.batches[batch].(rider := Some(rider), status := Assigned)];
  }

  lemma NextMatch(env: Env, w: World, ids: seq<OrderId>, rider: RiderId, claimed: bool, now: Time)
    requires ids != []
    ensures var tx := Tx.AssignRider(ids[0], rider, None, !claimed);
            var won := Execute(env, w, tx, now).Done?;
            var next := Apply(env, w, tx, now);
            Run(env, w, MatchLoop(env, w, ids, rider, claimed, now)) ==
            Run(env, next, MatchLoop(env, next, ids[1..], rider, claimed || won, now))
  {
    hide Execute;
    var tx := Tx.AssignRider(ids[0], rider, None, !claimed);
    var won := Execute(env, w, tx, now).Done?;
    RunHead(env, w, Call(tx, now), MatchLoop(env, Apply(env, w, tx, now), ids[1..], rider, claimed || won, now));
  }

  /** The rounds for these batches, in order. */
  function MatchJobs(batches: seq<BatchId>, now: Time): seq<Job> {
    if batches == [] then []
    else MatchJobs(batches[..|batches| - 1], now) + [Job(MatchBatch(batches[|batches| - 1]), now)]
  }

  function OpenBatches(batches: seq<Batch>): seq<BatchId> {
    if batches == [] then []
    else
      var n := |batches| - 1;
      OpenBatches(batches[..n]) + (if batches[n].status == Open then [n] else [])
  }

  lemma {:induction false} OpenBatchesAreOpen(batches: seq<Batch>)
    ensures forall b: BatchId :: b in OpenBatches(batches) <==> b < |batches| && batches[b].status == Open
  {
    if batches != [] { OpenBatchesAreOpen(batches[..|batches| - 1]); }
  }

  /** One more round; a batch no longer open gets none. */
  lemma NextRound(env: Env, w: World, batches: seq<BatchId>, now: Time, n: nat)
    requires n < |batches|
    ensures var before := RunJobs(env, w, MatchJobs(batches[..n], now));
            RunJobs(env, w, MatchJobs(batches[..n + 1], now)) ==
                Run(env, before, MatchCalls(env, before, batches[n], now))
  {
    hide Execute;
    assert batches[..n + 1][..n] == batches[..n];
    var jobs := MatchJobs(batches[..n + 1], now);
    assert jobs[..|jobs| - 1] == MatchJobs(batches[..n], now);
  }

  method MatchRidersToBatches(env: Env, db: Database, now: Time)
    modifies db`orders, db`riders, db`batches
    ensures db.Snapshot() == RunJobs(env, old(db.Snapshot()), MatchJobs(OpenBatches(old(db.batches)), now))
  {
    hide Execute;
    ghost var w := db.Snapshot();
    var pending := [];
    for i := 0 to |db.batches|
      invariant pending == OpenBatches(db.batches[..i])
    {
      assert db.batches[..i + 1][..i] == db.batches[..i];
      if db.batches[i].status == Open { pending := pending + [i]; }
    }
    assert db.batches[..|db.batches|] == db.batches;
    for i := 0 to |pending|
      invariant db.Snapshot() == RunJobs(env, w, MatchJobs(pending[..i], now))
    {
      NextRound(env, w, pending, now, i);
      if pending[i] < |db.batches| && db.batches[pending[i]].status == Open {
        MatchRiderToBatch(env, db, pending[i], now);
      }
    }
    assert pending[..|pending|] == pending;
  }

  method RunBatchingCycle(env: Env, db: Database, now: Time)
    modifies db`orders, db`riders, db`batches
    ensures var clustered := Perform(env, old(db.Snapshot()), Job(ClusterPending, now));
            db.Snapshot() == RunJobs(env, clustered, MatchJobs(OpenBatches(clustered.batches), now))
  {
    hide Execute;
    ClusterPendingOrders(env, db, now);
    MatchRidersToBatches(env, db, now);
  }
}
