/** Delivery batches over runs of atomic service calls. */
module BatchRuns {
  import opened Prelude
  import opened Domain
  import opened Transactions
  import opened OrderHistory
  import opened RowFrames
  import opened Clustering
  import opened Dispatch

  /** 1 for an order of the batch. */
  function InBatch(batch: BatchId): Order -> int {
    (o: Order) => if o.batchId == Some(batch) then 1 else 0
  }

  /** Batch counts are exact, a batch is assigned when it has a rider, and whatever waits in a batch
    * waits in an open one. */
  ghost predicate BatchesExact(w: World) {
    && (forall b :: 0 <= b < |w.batches| ==>
          && 1 <= w.batches[b].orderCount <= 3 && Total(w.orders, InBatch(b)) == w.batches[b].orderCount
          && (w.batches[b].status == Assigned <==> w.batches[b].rider.Some?))
    && (forall i :: 0 <= i < |w.orders| && w.orders[i].batchId.Some? ==> w.orders[i].batchId.value < |w.batches|)
    && (forall i :: 0 <= i < |w.orders| && w.orders[i].batchId.Some? && w.orders[i].status == Preparing ==>
          w.batches[w.orders[i].batchId.value].status == Open)
  }

  // ---------------------------------------------------------------- assignments

  lemma AssignKeepsBatches(w: World, id: OrderId, rider: RiderId, actor: Option<UserId>, claim: bool, now: Time)
    requires BatchesExact(w) && Assign(w, id, rider, actor, claim, now).Done?
    ensures BatchesExact(Assign(w, id, rider, actor, claim, now).world)
  {
    var next := Assign(w, id, rider, actor, claim, now).world;
    forall b | 0 <= b < |w.batches| ensures Total(next.orders, InBatch(b)) == Total(w.orders, InBatch(b)) {
      TotalCongruent(w.orders, next.orders, InBatch(b));
    }
  }

  /** The same batches, and every order in the same one. */
  ghost predicate SameBatches(w: World, next: World) {
    && next.batches == w.batches && |next.orders| == |w.orders|
    && forall i :: 0 <= i < |w.orders| ==> next.orders[i].batchId == w.orders[i].batchId
  }

  lemma {:induction false} AssignStep(env: Env, w: World, tx: Tx, now: Time)
    requires AllSound(w) && BatchesExact(w) && tx.AssignRider?
    ensures AllSound(Apply(env, w, tx, now)) && BatchesExact(Apply(env, w, tx, now))
    ensures SameBatches(w, Apply(env, w, tx, now))
  {
    KeepsSound(env, w, tx, now);
    if Execute(env, w, tx, now).Done? {
      AssignKeepsBatches(w, tx.order, tx.rider, tx.actor, tx.claim, now);
    }
  }

  /** Whatever a loop of assignments wins or loses, the batches stay exact. */
  lemma {:induction false} AssignRunKeepsBatches(env: Env, w: World, calls: seq<Call>)
    requires AllSound(w) && BatchesExact(w)
    requires forall k :: 0 <= k < |calls| ==> calls[k].tx.AssignRider?
    ensures AllSound(Run(env, w, calls)) && BatchesExact(Run(env, w, calls)) && SameBatches(w, Run(env, w, calls))
  {
    hide Execute;
    if calls != [] {
      var n := |calls| - 1;
      AssignRunKeepsBatches(env, w, calls[..n]);
      AssignStep(env, Run(env, w, calls[..n]), calls[n].tx, calls[n].now);
    }
  }

  lemma AcceptCallsAssign(env: Env, w: World, id: OrderId, rider: RiderId, now: Time)
    ensures forall k :: 0 <= k < |AcceptCalls(env, w, id, rider, now)| ==>
            AcceptCalls(env, w, id, rider, now)[k].tx.AssignRider?
  {
    hide Execute;
    if rider < |w.riders| && w.riders[rider].verified {
      var next := Apply(env, w, AssignRider(id, rider, None, true), now);
      BundleCallsAssign(env, next, Eligible(env, next.orders, id), rider,
                        MAX_ORDERS_PER_RIDER_BATCH - Total(next.orders, AssignedTo(rider)), now);
    }
  }

  // ---------------------------------------------------------------- matching

  predicate RiderIs(w: World, rider: RiderId, status: RiderStatus) {
    rider < |w.riders| && w.riders[rider].status == status
  }

  /** The order no longer waits. */
  predicate Underway(w: World, id: OrderId) {
    id < |w.orders| && w.orders[id].status != Preparing
  }

  lemma AssignKeepsUnderway(env: Env, w: World, id: OrderId, rider: RiderId, claim: bool, now: Time, other: OrderId)
    requires Underway(w, other)
    ensures Underway(Apply(env, w, AssignRider(id, rider, None, claim), now), other)
  {
  }

  lemma {:induction false} LoopKeepsUnderway(env: Env, w: World, ids: seq<OrderId>, rider: RiderId,
                                                 claimed: bool, now: Time, other: OrderId)
    requires Underway(w, other)
    ensures Underway(Run(env, w, MatchLoop(env, w, ids, rider, claimed, now)), other)
    decreases |ids|
  {
    hide Execute;
    if ids != [] {
      var head := Call(AssignRider(ids[0], rider, None, !claimed), now);
      var next := Apply(env, w, head.tx, now);
      var won := Execute(env, w, head.tx, now).Done?;
      AssignKeepsUnderway(env, w, ids[0], rider, !claimed, now, other);
      LoopKeepsUnderway(env, next, ids[1..], rider, claimed || won, now, other);
      RunHead(env, w, head, MatchLoop(env, next, ids[1..], rider, claimed || won, now));
    }
  }

  /** An order still waiting has no rider, so an attempt on it with a usable rider wins. */
  lemma {:induction false} AttemptEndsWaiting(env: Env, w: World, id: OrderId, rider: RiderId, claim: bool, now: Time)
    requires AllSound(w) && id < |w.orders| && (claim ==> RiderIs(w, rider, Available))
    ensures var next := Apply(env, w, AssignRider(id, rider, None, claim), now);
            && Underway(next, id) && |next.orders| == |w.orders| && AllSound(next)
            && (claim && Assign(w, id, rider, None, claim, now).Failed? ==> RiderIs(next, rider, Available))
  {
    assert Sound(w.orders[id]);
    EntryCountUnlessCancelled(w.orders[id]);
    KeepsSound(env, w, AssignRider(id, rider, None, claim), now);
  }

  /** The matching loop leaves no order of the batch waiting. */
  lemma {:induction false} LoopLeavesNoneWaiting(env: Env, w: World, ids: seq<OrderId>, rider: RiderId, claimed: bool,
                                                 now: Time)
    requires AllSound(w) && (!claimed ==> RiderIs(w, rider, Available))
    requires forall id :: id in ids ==> id < |w.orders|
    ensures forall id :: id in ids ==> Underway(Run(env, w, MatchLoop(env, w, ids, rider, claimed, now)), id)
    decreases |ids|
  {
    hide Execute;
    if ids != [] {
      var head := Call(AssignRider(ids[0], rider, None, !claimed), now);
      var next := Apply(env, w, head.tx, now);
      var won := Execute(env, w, head.tx, now).Done?;
      assert ids[0] in ids;
      assert forall id :: id in ids[1..] ==> id in ids;
      AttemptEndsWaiting(env, w, ids[0], rider, !claimed, now);
      LoopLeavesNoneWaiting(env, next, ids[1..], rider, claimed || won, now);
      LoopKeepsUnderway(env, next, ids[1..], rider, claimed || won, now, ids[0]);
      RunHead(env, w, head, MatchLoop(env, next, ids[1..], rider, claimed || won, now));
    }
  }

  lemma {:induction false} MembersOfBatch(orders: seq<Order>, batch: BatchId)
    ensures forall id: OrderId :: id in BatchMembers(orders, batch) <==>
            id < |orders| && orders[id].batchId == Some(batch)
    ensures |BatchMembers(orders, batch)| == Total(orders, InBatch(batch))
  {
    if orders != [] {
      MembersOfBatch(orders[..|orders| - 1], batch);
    }
  }

  lemma CloseIs(env: Env, w: World, batch: BatchId, rider: RiderId, now: Time)
    requires batch < |w.batches|
    ensures Apply(env, w, CloseBatch(batch, rider), now) ==
            w.(batches := w.batches[batch := w.batches[batch].(rider := Some(rider), status := Assigned)])
  {
  }

  lemma ClosingKeepsBatches(env: Env, w: World, batch: BatchId, rider: RiderId, now: Time)
    requires AllSound(w) && BatchesExact(w) && batch < |w.batches|
    requires forall i :: 0 <= i < |w.orders| && w.orders[i].batchId == Some(batch) ==> w.orders[i].status != Preparing
    ensures BatchesExact(Apply(env, w, CloseBatch(batch, rider), now))
  {
    hide Execute, Apply;
    CloseIs(env, w, batch, rider, now);
  }

  /** The calls of a round with a rider: the loop, then the closing. */
  lemma MatchRound(env: Env, w: World, batch: BatchId, rider: RiderId, now: Time)
    requires batch < |w.batches| && w.batches[batch].status == Open
    requires Nearest(env, w.riders, w.batches[batch].centroid) == Some(rider)
    ensures Run(env, w, MatchCalls(env, w, batch, now)) ==
            Apply(env, Run(env, w, MatchLoop(env, w, BatchMembers(w.orders, batch), rider, false, now)),
                  CloseBatch(batch, rider), now)
  {
    hide Execute;
    var close := Call(CloseBatch(batch, rider), now);
    RunConcat(env, w, MatchLoop(env, w, BatchMembers(w.orders, batch), rider, false, now), [close]);
    assert [close][..0] == [];
  }

  lemma MatchKeepsBatches(env: Env, w: World, batch: BatchId, now: Time)
    requires AllSound(w) && BatchesExact(w)
    ensures BatchesExact(Run(env, w, MatchCalls(env, w, batch, now)))
  {
    hide Execute, Apply, AllSound, BatchesExact, MatchLoop, BatchMembers, Nearest;
    if batch < |w.batches| && w.batches[batch].status == Open
       && Nearest(env, w.riders, w.batches[batch].centroid).Some?
    {
      var rider := Nearest(env, w.riders, w.batches[batch].centroid).value;
      var ids := BatchMembers(w.orders, batch);
      var loop := MatchLoop(env, w, ids, rider, false, now);
      var after := Run(env, w, loop);
      MatchRound(env, w, batch, rider, now);
      MembersOfBatch(w.orders, batch);
      MatchLoopAssigns(env, w, ids, rider, false, now);
      AssignRunKeepsBatches(env, w, loop);
      LoopLeavesNoneWaiting(env, w, ids, rider, false, now);
      forall i | 0 <= i < |after.orders| && after.orders[i].batchId == Some(batch)
        ensures after.orders[i].status != Preparing
      {
        assert i in ids;
        assert Underway(after, i);
      }
      ClosingKeepsBatches(env, after, batch, rider, now);
    }
  }

  // ---------------------------------------------------------------- clustering

  lemma {:induction false} TagCounts(orders: seq<Order>, group: seq<OrderId>, batch: BatchId, b: BatchId)
    requires forall id :: id in group ==> id < |orders| && orders[id].batchId.None?
    requires forall i, j :: 0 <= i < j < |group| ==> group[i] != group[j]
    ensures Total(Tag(orders, group, batch), InBatch(b)) ==
            Total(orders, InBatch(b)) + (if b == batch then |group| else 0)
  {
    if group != [] {
      var n := |group| - 1;
      var rest := Tag(orders, group[..n], batch);
      assert forall id :: id in group[..n] ==> id in group;
      TagCounts(orders, group[..n], batch, b);
      TagRows(orders, group[..n], batch);
      assert group[n] in group && group[n] !in group[..n];
      TotalUpdate(rest, group[n], rest[group[n]].(batchId := Some(batch)), InBatch(b));
    }
  }

  lemma MakingKeepsBatches(w: World, group: Group, centroid: Coords)
    requires BatchesExact(w) && FreshGroup(w, group)
    ensures BatchesExact(OpenBatch(w, group, centroid))
  {
    hide Tag;
    var next := OpenBatch(w, group, centroid);
    var n := |w.batches|;
    TagRows(w.orders, group, n);
    TotalZero(w.orders, InBatch(n));
    forall b | 0 <= b <= n ensures Total(next.orders, InBatch(b)) == next.batches[b].orderCount {
      TagCounts(w.orders, group, n, b);
    }
  }

  lemma {:induction false} MakingAllKeepsBatches(env: Env, w: World, orders: seq<Order>, groups: seq<Group>, now: Time)
    requires AllSound(w) && BatchesExact(w) && FreshGroups(w, groups)
    ensures BatchesExact(Run(env, w, BatchCalls(orders, groups, now)))
    decreases |groups|
  {
    if groups != [] {
      var head := BatchCalls(orders, groups, now)[0];
      var next := Apply(env, w, head.tx, now);
      var rest := groups[1..];
      KeepsSound(env, w, head.tx, now);
      MakingKeepsBatches(w, groups[0], head.tx.centroid);
      RestStaysFresh(w, groups, head.tx.centroid);
      MakingAllKeepsBatches(env, next, orders, rest, now);
      RunHead(env, w, head, BatchCalls(orders, rest, now));
    }
  }

  // ---------------------------------------------------------------- single transactions

  lemma {:induction false} RowBatch(env: Env, w: World, tx: Tx, now: Time, i: OrderId)
    requires AllSound(w) && Serial(w, tx) && !tx.MakeBatch? && i < |w.orders|
    ensures i < |Apply(env, w, tx, now).orders|
    ensures var o, n := w.orders[i], Apply(env, w, tx, now).orders[i];
            n.batchId == o.batchId && (n.status == Preparing && n.batchId.Some? ==> o.status == Preparing)
  {
    hide Execute;
    RowFrame(env, w, tx, now, i);
    var o, n := w.orders[i], Apply(env, w, tx, now).orders[i];
    if !SameHistory(o, n) {
      StatusWriteMovesOneRow(env, w, tx, now);
      EntryCountUnlessCancelled(o);
    }
  }

  lemma BatchesStay(env: Env, w: World, tx: Tx, now: Time)
    requires !tx.MakeBatch? && !tx.CloseBatch?
    ensures Apply(env, w, tx, now).batches == w.batches
  {
    hide Execute, Apply;
    Frames(env, w, tx, now);
  }

  lemma {:induction false} DirectKeepsBatches(env: Env, w: World, tx: Tx, now: Time)
    requires AllSound(w) && BatchesExact(w) && Serial(w, tx) && !tx.MakeBatch? && !tx.CloseBatch?
    ensures BatchesExact(Apply(env, w, tx, now))
  {
    hide Execute, Apply, Serial, AllSound;
    var next := Apply(env, w, tx, now);
    var n := |w.orders|;
    BatchesStay(env, w, tx, now);
    NewRows(env, w, tx, now);
    forall i | 0 <= i < n
      ensures next.orders[i].batchId == w.orders[i].batchId
      ensures next.orders[i].status == Preparing && next.orders[i].batchId.Some? ==> w.orders[i].status == Preparing
    {
      RowBatch(env, w, tx, now, i);
    }
    forall b | 0 <= b < |w.batches| ensures Total(next.orders, InBatch(b)) == Total(w.orders, InBatch(b)) {
      TotalCongruent(w.orders, next.orders[..n], InBatch(b));
      if |next.orders| > n {
        TotalAppend(next.orders[..n], next.orders[n], InBatch(b));
        assert next.orders == next.orders[..n] + [next.orders[n]];
      } else {
        assert next.orders == next.orders[..n];
      }
    }
  }

  // ---------------------------------------------------------------- runs

  lemma {:induction false} JobKeepsBatches(env: Env, w: World, job: Job)
    requires AllSound(w) && BatchesExact(w) && Atomic(w, job.op)
    ensures BatchesExact(Perform(env, w, job))
  {
    hide Execute;
    match job.op {
      case Direct(tx) =>
        SingleCallIsSerial(env, w, Call(tx, job.now));
        DirectKeepsBatches(env, w, tx, job.now);
      case Accept(order, rider) =>
        AcceptCallsAssign(env, w, order, rider, job.now);
        AssignRunKeepsBatches(env, w, AcceptCalls(env, w, order, rider, job.now));
      case ClusterPending =>
        ClustersAreFresh(env, w);
        MakingAllKeepsBatches(env, w, w.orders, Clusters(env, w.orders), job.now);
      case MatchBatch(batch) => MatchKeepsBatches(env, w, batch, job.now);
    }
  }

  lemma {:induction false} SoundOverJobs(env: Env, w: World, jobs: seq<Job>)
    requires Initial(w) && AtomicRun(env, w, jobs)
    ensures AllSound(RunJobs(env, w, jobs))
  {
    hide Execute;
    AtomicRunsAreSerial(env, w, jobs);
    SoundOverRuns(env, w, JobCalls(env, w, jobs));
  }

  /** Over every run of atomic service calls: each batch counts exactly its orders, between one and
    * three, and no order still in preparation belongs to an assigned batch, so none is stranded. */
  lemma {:induction false} NoOrderIsStranded(env: Env, w: World, jobs: seq<Job>)
    requires Initial(w) && AtomicRun(env, w, jobs)
    ensures BatchesExact(RunJobs(env, w, jobs))
  {
    hide Execute;
    if jobs != [] {
      var n := |jobs| - 1;
      AtomicPrefix(env, w, jobs, n);
      NoOrderIsStranded(env, w, jobs[..n]);
      SoundOverJobs(env, w, jobs[..n]);
      JobKeepsBatches(env, RunJobs(env, w, jobs[..n]), jobs[n]);
    }
  }

  // ---------------------------------------------------------------- overlapping clusterings

  /** A batch is made of a group read earlier, with this order in it, although it has a batch by now. */
  predicate Rebatches(w: World, tx: Tx, id: OrderId) {
    tx.MakeBatch? && id in tx.group && id < |w.orders| && w.orders[id].batchId.Some?
  }

  /** Nothing tests the batch column when a batch is saved: in any database an order's batch survives a
    * transaction exactly when the transaction does not make a batch of a group, read too early, that has the
    * order in it; and a group that is still as it was read never has. */
  lemma {:induction false} BatchSurvivesIff(env: Env, w: World, tx: Tx, now: Time, id: OrderId)
    requires id < |w.orders| && w.orders[id].batchId.Some? && w.orders[id].batchId.value < |w.batches|
    ensures id < |Apply(env, w, tx, now).orders|
    ensures Apply(env, w, tx, now).orders[id].batchId == w.orders[id].batchId <==> !Rebatches(w, tx, id)
    ensures Serial(w, tx) ==> !Rebatches(w, tx, id)
  {
    hide Execute, Apply;
    if tx.MakeBatch? {
      MakeTags(env, w, tx, now, id);
    } else {
      RowFrame(env, w, tx, now, id);
    }
  }

  lemma MakeTags(env: Env, w: World, tx: Tx, now: Time, id: OrderId)
    requires tx.MakeBatch? && id < |w.orders|
    ensures id < |Apply(env, w, tx, now).orders|
    ensures Apply(env, w, tx, now).orders[id].batchId ==
            if id in tx.group then Some(|w.batches|) else w.orders[id].batchId
  {
    TagRows(w.orders, tx.group, |w.batches|);
  }

  /** An order's batch, once set, never changes while no clustering saves the order into a second one. */
  lemma {:induction false} BatchWrittenOnce(env: Env, w: World, calls: seq<Call>, n: nat, id: OrderId)
    requires n <= |calls| && id < |Run(env, w, calls[..n]).orders|
    requires Run(env, w, calls[..n]).orders[id].batchId.Some?
    requires forall k :: n <= k < |calls| ==> !Rebatches(Run(env, w, calls[..k]), calls[k].tx, id)
    ensures id < |Run(env, w, calls).orders|
    ensures Run(env, w, calls).orders[id].batchId == Run(env, w, calls[..n]).orders[id].batchId
    decreases |calls| - n
  {
    hide Execute;
    if n < |calls| {
      assert calls[..n + 1][..n] == calls[..n];
      RowFrame(env, Run(env, w, calls[..n]), calls[n].tx, calls[n].now, id);
      if calls[n].tx.MakeBatch? { MakeTags(env, Run(env, w, calls[..n]), calls[n].tx, calls[n].now, id); }
      BatchWrittenOnce(env, w, calls, n + 1, id);
    } else {
      assert calls[..n] == calls;
    }
  }
}
