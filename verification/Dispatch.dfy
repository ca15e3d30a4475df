/** The service calls that issue several transactions: accepting with bundling, clustering, and
  * matching riders to batches; and runs of whole service calls. */
module Dispatch {
  import opened Prelude
  import opened Domain
  import opened StockLevels
  import opened Transactions
  import opened Clustering
  import opened OrderHistory

  const MAX_ORDERS_PER_RIDER_BATCH := 3
  const RIDER_SEARCH_RADIUS_KM := 10.0

  // ---------------------------------------------------------------- bundling

  /** What the bundling query and its filter select. */
  predicate Bundleable(orders: seq<Order>, anchor: OrderId, id: OrderId) {
    && id < |orders| && anchor < |orders| && id != anchor
    && orders[id].station == orders[anchor].station && orders[id].tier == Standard
    && orders[id].status == Preparing && HasCoords(orders[id])
  }

  function BundleCandidates(orders: seq<Order>, anchor: OrderId, n: nat): seq<OrderId> {
    if n == 0 then []
    else BundleCandidates(orders, anchor, n - 1) + (if Bundleable(orders, anchor, n - 1) then [n - 1] else [])
  }

  function Km(env: Env, orders: seq<Order>, anchor: OrderId, id: OrderId): real {
    env.km(PlaceOf(orders, anchor), PlaceOf(orders, id))
  }

  /** Stable insertion by distance from the anchor. */
  function InsertByKm(env: Env, orders: seq<Order>, anchor: OrderId, ids: seq<OrderId>, id: OrderId): seq<OrderId> {
    if ids == [] || Km(env, orders, anchor, ids[|ids| - 1]) <= Km(env, orders, anchor, id) then ids + [id]
    else InsertByKm(env, orders, anchor, ids[..|ids| - 1], id) + [ids[|ids| - 1]]
  }

  function SortByKm(env: Env, orders: seq<Order>, anchor: OrderId, ids: seq<OrderId>): seq<OrderId> {
    if ids == [] then []
    else InsertByKm(env, orders, anchor, SortByKm(env, orders, anchor, ids[..|ids| - 1]), ids[|ids| - 1])
  }

  /** The eligible orders, nearest first. */
  function Eligible(env: Env, orders: seq<Order>, anchor: OrderId): seq<OrderId> {
    SortByKm(env, orders, anchor, BundleCandidates(orders, anchor, |orders|))
  }

  ghost predicate NearestFirst(env: Env, orders: seq<Order>, anchor: OrderId, ids: seq<OrderId>) {
    forall i, j :: 0 <= i < j < |ids| ==> Km(env, orders, anchor, ids[i]) <= Km(env, orders, anchor, ids[j])
  }

  lemma {:induction false} InsertAddsOne(env: Env, orders: seq<Order>, anchor: OrderId, ids: seq<OrderId>, id: OrderId)
    ensures multiset(InsertByKm(env, orders, anchor, ids, id)) == multiset(ids) + multiset{id}
  {
    var n := |ids| - 1;
    if ids != [] && Km(env, orders, anchor, ids[n]) > Km(env, orders, anchor, id) {
      InsertAddsOne(env, orders, anchor, ids[..n], id);
      assert ids == ids[..n] + [ids[n]];
    }
  }

  lemma {:induction false} InsertKeepsOrder(env: Env, orders: seq<Order>, anchor: OrderId, ids: seq<OrderId>,
                                            id: OrderId)
    requires NearestFirst(env, orders, anchor, ids)
    ensures NearestFirst(env, orders, anchor, InsertByKm(env, orders, anchor, ids, id))
  {
    var n := |ids| - 1;
    if ids != [] && Km(env, orders, anchor, ids[n]) > Km(env, orders, anchor, id) {
      InsertKeepsOrder(env, orders, anchor, ids[..n], id);
      InsertAddsOne(env, orders, anchor, ids[..n], id);
      var front := InsertByKm(env, orders, anchor, ids[..n], id);
      forall i | 0 <= i < |front| ensures Km(env, orders, anchor, front[i]) <= Km(env, orders, anchor, ids[n]) {
        assert front[i] in multiset(front);
        assert front[i] == id || front[i] in ids[..n];
      }
    }
  }

  lemma {:induction false} SortSorts(env: Env, orders: seq<Order>, anchor: OrderId, ids: seq<OrderId>)
    ensures NearestFirst(env, orders, anchor, SortByKm(env, orders, anchor, ids))
    ensures multiset(SortByKm(env, orders, anchor, ids)) == multiset(ids)
  {
    hide Execute;
    if ids != [] {
      var n := |ids| - 1;
      SortSorts(env, orders, anchor, ids[..n]);
      InsertKeepsOrder(env, orders, anchor, SortByKm(env, orders, anchor, ids[..n]), ids[n]);
      InsertAddsOne(env, orders, anchor, SortByKm(env, orders, anchor, ids[..n]), ids[n]);
      assert ids == ids[..n] + [ids[n]];
    }
  }

  /** The loop over the eligible orders: stop when no slot is left, spend a slot on each success. */
  function BundleCalls(env: Env, w: World, ids: seq<OrderId>, rider: RiderId, slots: int, now: Time): seq<Call>
    decreases |ids|
  {
    if ids == [] || slots <= 0 then []
    else
      var call := Call(AssignRider(ids[0], rider, None, false), now);
      var won := Execute(env, w, call.tx, now).Done?;
      [call] + BundleCalls(env, Apply(env, w, call.tx, now), ids[1..], rider, if won then slots - 1 else slots, now)
  }

  /** 1 for an order assigned to the rider and not yet under way. */
  function AssignedTo(rider: RiderId): Order -> int {
    (o: Order) => if o.riderId == Some(rider) && o.status == RiderAssigned then 1 else 0
  }

  function AttachCalls(env: Env, w: World, anchor: OrderId, rider: RiderId, now: Time): seq<Call> {
    BundleCalls(env, w, Eligible(env, w.orders, anchor), rider,
                MAX_ORDERS_PER_RIDER_BATCH - Total(w.orders, AssignedTo(rider)), now)
  }

  function AcceptCalls(env: Env, w: World, id: OrderId, rider: RiderId, now: Time): seq<Call> {
    if rider >= |w.riders| || !w.riders[rider].verified then []
    else
      var claim := Call(AssignRider(id, rider, None, true), now);
      var won := Execute(env, w, claim.tx, now).Done?;
      if won && id < |w.orders| && w.orders[id].tier == Standard then
        [claim] + AttachCalls(env, Apply(env, w, claim.tx, now), id, rider, now)
      else [claim]
  }

  // ---------------------------------------------------------------- matching

  /** What `findNearestAvailable` may return. */
  predicate Matchable(env: Env, r: Rider, center: Coords) {
    r.status == Available && r.verified && r.place.Some? && env.km(center, r.place.value) < RIDER_SEARCH_RADIUS_KM
  }

  function Nearest(env: Env, riders: seq<Rider>, center: Coords): (r: Option<RiderId>)
    ensures r.Some? ==> r.value < |riders| && Matchable(env, riders[r.value], center)
  {
    if riders == [] then None
    else
      var n := |riders| - 1;
      var best := Nearest(env, riders[..n], center);
      if !Matchable(env, riders[n], center) then best
      else if best.None? then Some(n)
      else if env.km(center, riders[n].place.value) < env.km(center, riders[best.value].place.value) then Some(n)
      else best
  }

  /** The search returns a matchable rider at least as near as every other, or nobody is matchable. */
  lemma {:induction false} NearestIsNearest(env: Env, riders: seq<Rider>, center: Coords)
    ensures IsNearest(env, riders, center, Nearest(env, riders, center))
  {
    if riders != [] {
      NearestIsNearest(env, riders[..|riders| - 1], center);
    }
  }

  /** Nobody AVAILABLE, verified and located is within 10 km of the center, or this rider is, and none of
    * those is nearer. */
  ghost predicate IsNearest(env: Env, riders: seq<Rider>, center: Coords, found: Option<RiderId>) {
    match found
    case None =>
      forall i :: 0 <= i < |riders| && riders[i].status == Available && riders[i].verified && riders[i].place.Some? ==>
        env.km(center, riders[i].place.value) >= 10.0
    case Some(r) =>
      && r < |riders| && riders[r].status == Available && riders[r].verified && riders[r].place.Some?
      && env.km(center, riders[r].place.value) < 10.0
      && forall i ::
           0 <= i < |riders| && riders[i].status == Available && riders[i].verified && riders[i].place.Some? ==>
             env.km(center, riders[r].place.value) <= env.km(center, riders[i].place.value)
  }

  function BatchMembers(orders: seq<Order>, batch: BatchId): seq<OrderId> {
    if orders == [] then []
    else
      var n := |orders| - 1;
      BatchMembers(orders[..n], batch) + (if orders[n].batchId == Some(batch) then [n] else [])
  }

  /** The loop over a batch: the first success claims the rider, later ones reuse the claim. */
  function MatchLoop(env: Env, w: World, ids: seq<OrderId>, rider: RiderId, claimed: bool, now: Time): seq<Call>
    decreases |ids|
  {
    if ids == [] then []
    else
      var call := Call(AssignRider(ids[0], rider, None, !claimed), now);
      var won := Execute(env, w, call.tx, now).Done?;
      [call] + MatchLoop(env, Apply(env, w, call.tx, now), ids[1..], rider, claimed || won, now)
  }

  /** One round of `matchRidersToBatches` for one batch. */
  function MatchCalls(env: Env, w: World, batch: BatchId, now: Time): seq<Call> {
    if batch >= |w.batches| || w.batches[batch].status != Open then []
    else
      match Nearest(env, w.riders, w.batches[batch].centroid)
      case None => []
      case Some(rider) =>
        MatchLoop(env, w, BatchMembers(w.orders, batch), rider, false, now) + [Call(CloseBatch(batch, rider), now)]
  }

  // ---------------------------------------------------------------- clustering

  function BatchCalls(orders: seq<Order>, groups: seq<Group>, now: Time): seq<Call> {
    if groups == [] then []
    else
      var group := groups[0];
      [Call(MakeBatch(group, if group == [] then Coords(0.0, 0.0) else Centroid(orders, group)), now)]
      + BatchCalls(orders, groups[1..], now)
  }

  function ClusterCalls(env: Env, w: World, now: Time): seq<Call> {
    BatchCalls(w.orders, Clusters(env, w.orders), now)
  }

  // ---------------------------------------------------------------- runs of service calls

  /** A whole service call, as it runs when nothing interleaves with it. */
  datatype Op =
    | Direct(tx: Tx)
    | Accept(order: OrderId, rider: RiderId)
    | ClusterPending
    | MatchBatch(batch: BatchId)

  datatype Job = Job(op: Op, now: Time)

  function OpCalls(env: Env, w: World, job: Job): seq<Call> {
    match job.op
    case Direct(tx) => [Call(tx, job.now)]
    case Accept(order, rider) => AcceptCalls(env, w, order, rider, job.now)
    case ClusterPending => ClusterCalls(env, w, job.now)
    case MatchBatch(batch) => MatchCalls(env, w, batch, job.now)
  }

  function Perform(env: Env, w: World, job: Job): World {
    Run(env, w, OpCalls(env, w, job))
  }

  function RunJobs(env: Env, w: World, jobs: seq<Job>): World {
    if jobs == [] then w else Perform(env, RunJobs(env, w, jobs[..|jobs| - 1]), jobs[|jobs| - 1])
  }

  /** The same run, transaction by transaction. */
  function JobCalls(env: Env, w: World, jobs: seq<Job>): seq<Call> {
    if jobs == [] then []
    else
      var n := |jobs| - 1;
      JobCalls(env, w, jobs[..n]) + OpCalls(env, RunJobs(env, w, jobs[..n]), jobs[n])
  }

  lemma {:induction false} JobsAreCalls(env: Env, w: World, jobs: seq<Job>)
    ensures Run(env, w, JobCalls(env, w, jobs)) == RunJobs(env, w, jobs)
  {
    hide Execute;
    if jobs != [] {
      var n := |jobs| - 1;
      JobsAreCalls(env, w, jobs[..n]);
      RunConcat(env, w, JobCalls(env, w, jobs[..n]), OpCalls(env, RunJobs(env, w, jobs[..n]), jobs[n]));
    }
  }

  /** The transactions that only occur inside the composite calls. */
  predicate Internal(tx: Tx) {
    tx.MakeBatch? || tx.CloseBatch? || (tx.AssignRider? && !tx.claim)
  }

  /** A service call whose reads are its own and current. */
  ghost predicate Atomic(w: World, op: Op) {
    op.Direct? ==> Serial(w, op.tx) && !Internal(op.tx)
  }

  ghost predicate AtomicRun(env: Env, w: World, jobs: seq<Job>) {
    forall k :: 0 <= k < |jobs| ==> Atomic(RunJobs(env, w, jobs[..k]), jobs[k].op)
  }

  lemma {:induction false} AtomicPrefix(env: Env, w: World, jobs: seq<Job>, n: nat)
    requires AtomicRun(env, w, jobs) && n <= |jobs|
    ensures AtomicRun(env, w, jobs[..n])
  {
    hide Execute;
    forall k | 0 <= k < n ensures Atomic(RunJobs(env, w, jobs[..n][..k]), jobs[..n][k].op) {
      assert jobs[..n][..k] == jobs[..k];
    }
  }

  // Atomic service calls are serial runs of transactions.

  lemma {:induction false} SerialConcat(env: Env, w: World, a: seq<Call>, b: seq<Call>)
    requires SerialRun(env, w, a) && SerialRun(env, Run(env, w, a), b)
    ensures SerialRun(env, w, a + b)
  {
    hide Execute;
    forall k | 0 <= k < |a + b| ensures Serial(Run(env, w, (a + b)[..k]), (a + b)[k].tx) {
      if k < |a| {
        assert (a + b)[..k] == a[..k];
      } else {
        assert (a + b)[..k] == a + b[..k - |a|];
        RunConcat(env, w, a, b[..k - |a|]);
      }
    }
  }

  /** Transactions whose effect depends on no unlocked read. */
  lemma LockedCallsAreSerial(env: Env, w: World, calls: seq<Call>)
    requires forall k :: 0 <= k < |calls| ==> calls[k].tx.AssignRider? || calls[k].tx.CloseBatch?
    ensures SerialRun(env, w, calls)
  {
    hide Execute;
  }

  lemma BundleCallsAssign(env: Env, w: World, ids: seq<OrderId>, rider: RiderId, slots: int, now: Time)
    ensures forall k :: 0 <= k < |BundleCalls(env, w, ids, rider, slots, now)| ==>
              BundleCalls(env, w, ids, rider, slots, now)[k].tx.AssignRider?
    decreases |ids|
  {
    hide Execute;
    if ids != [] && slots > 0 {
      var tx := AssignRider(ids[0], rider, None, false);
      BundleCallsAssign(env, Apply(env, w, tx, now), ids[1..], rider,
                        if Execute(env, w, tx, now).Done? then slots - 1 else slots, now);
    }
  }

  lemma MatchLoopAssigns(env: Env, w: World, ids: seq<OrderId>, rider: RiderId, claimed: bool, now: Time)
    ensures forall k :: 0 <= k < |MatchLoop(env, w, ids, rider, claimed, now)| ==>
              MatchLoop(env, w, ids, rider, claimed, now)[k].tx.AssignRider?
    decreases |ids|
  {
    hide Execute;
    if ids != [] {
      var tx := AssignRider(ids[0], rider, None, !claimed);
      MatchLoopAssigns(env, Apply(env, w, tx, now), ids[1..], rider, claimed || Execute(env, w, tx, now).Done?, now);
    }
  }

  /** Groups that share no order and are all waiting can be batched one after the other. */
  ghost predicate FreshGroups(w: World, groups: seq<Group>) {
    && (forall k :: 0 <= k < |groups| ==> FreshGroup(w, groups[k]))
    && (forall a, b, id :: 0 <= a < b < |groups| && id in groups[a] ==> id !in groups[b])
  }

  lemma BatchingLeavesOthersFresh(w: World, group: Group, centroid: Coords, other: Group)
    requires FreshGroup(w, other) && forall id :: id in group ==> id !in other
    ensures FreshGroup(OpenBatch(w, group, centroid), other)
  {
    TagRows(w.orders, group, |w.batches|);
  }

  lemma MakeBatchStep(env: Env, w: World, group: Group, centroid: Coords, now: Time)
    ensures Apply(env, w, MakeBatch(group, centroid), now) == OpenBatch(w, group, centroid)
  {
  }

  /** The groups after the first are still fresh once it is batched. */
  lemma RestStaysFresh(w: World, groups: seq<Group>, centroid: Coords)
    requires groups != [] && FreshGroups(w, groups)
    ensures FreshGroups(OpenBatch(w, groups[0], centroid), groups[1..])
  {
    hide FreshGroup;
    forall k | 0 <= k < |groups[1..]| ensures FreshGroup(OpenBatch(w, groups[0], centroid), groups[1..][k]) {
      BatchingLeavesOthersFresh(w, groups[0], centroid, groups[k + 1]);
    }
  }

  lemma {:induction false} BatchCallsAreSerial(env: Env, w: World, orders: seq<Order>, groups: seq<Group>, now: Time)
    requires FreshGroups(w, groups)
    ensures SerialRun(env, w, BatchCalls(orders, groups, now))
    decreases |groups|
  {
    hide Execute, Apply, FreshGroup;
    if groups != [] {
      var head := BatchCalls(orders, groups, now)[0];
      var next := Apply(env, w, head.tx, now);
      var rest := groups[1..];
      MakeBatchStep(env, w, groups[0], head.tx.centroid, now);
      RestStaysFresh(w, groups, head.tx.centroid);
      SingleCallIsSerial(env, w, head);
      BatchCallsAreSerial(env, next, orders, rest, now);
      SerialConcat(env, w, [head], BatchCalls(orders, rest, now));
    }
  }

  lemma ClustersAreFresh(env: Env, w: World)
    ensures FreshGroups(w, Clusters(env, w.orders))
  {
    var groups := Clusters(env, w.orders);
    ClusteringIsCorrect(env, w.orders);
    DistinctFlatten(groups);
    forall k | 0 <= k < |groups| ensures FreshGroup(w, groups[k]) {
      forall id | id in groups[k] ensures Unclaimed(w, id) && w.orders[id].batchId.None? {
        FlattenMembers(groups, k, id);
      }
    }
  }

  lemma OpCallsAreSerial(env: Env, w: World, job: Job)
    requires Atomic(w, job.op)
    ensures SerialRun(env, w, OpCalls(env, w, job))
  {
    hide Execute;
    match job.op {
      case Direct(tx) =>
        SingleCallIsSerial(env, w, Call(tx, job.now));
      case Accept(order, rider) =>
        var calls := AcceptCalls(env, w, order, rider, job.now);
        if |calls| > 1 {
          var next := Apply(env, w, calls[0].tx, job.now);
          BundleCallsAssign(env, next, Eligible(env, next.orders, order), rider,
                            MAX_ORDERS_PER_RIDER_BATCH - Total(next.orders, AssignedTo(rider)), job.now);
        }
        LockedCallsAreSerial(env, w, calls);
      case ClusterPending =>
        ClustersAreFresh(env, w);
        BatchCallsAreSerial(env, w, w.orders, Clusters(env, w.orders), job.now);
      case MatchBatch(batch) =>
        if batch < |w.batches| && w.batches[batch].status == Open
           && Nearest(env, w.riders, w.batches[batch].centroid).Some?
        {
          MatchLoopAssigns(env, w, BatchMembers(w.orders, batch),
                           Nearest(env, w.riders, w.batches[batch].centroid).value, false, job.now);
        }
        LockedCallsAreSerial(env, w, MatchCalls(env, w, batch, job.now));
    }
  }

  /** A run of atomic service calls is a serial run of their transactions, so whatever holds of every
    * serial run holds of every run of service calls. */
  lemma {:induction false} AtomicRunsAreSerial(env: Env, w: World, jobs: seq<Job>)
    requires AtomicRun(env, w, jobs)
    ensures SerialRun(env, w, JobCalls(env, w, jobs))
    ensures Run(env, w, JobCalls(env, w, jobs)) == RunJobs(env, w, jobs)
  {
    hide Execute;
    JobsAreCalls(env, w, jobs);
    if jobs != [] {
      var n := |jobs| - 1;
      AtomicPrefix(env, w, jobs, n);
      AtomicRunsAreSerial(env, w, jobs[..n]);
      JobsAreCalls(env, w, jobs[..n]);
      OpCallsAreSerial(env, RunJobs(env, w, jobs[..n]), jobs[n]);
      SerialConcat(env, w, JobCalls(env, w, jobs[..n]), OpCalls(env, RunJobs(env, w, jobs[..n]), jobs[n]));
    }
  }

  // ---------------------------------------------------------------- greedy bundling

  /** How many of n candidates the loop attempts, from the k-th on, when `won` says which attempts
    * succeed: it may fail anywhere, for any reason. */
  function Attempts(n: nat, slots: int, won: nat -> bool, k: nat): nat
    decreases n - k
  {
    if k >= n || slots <= 0 then k else Attempts(n, if won(k) then slots - 1 else slots, won, k + 1)
  }

  function Wins(won: nat -> bool, k: nat): nat {
    if k == 0 then 0 else Wins(won, k - 1) + (if won(k - 1) then 1 else 0)
  }

  lemma {:induction false} AttemptsAreBounded(n: nat, slots: int, won: nat -> bool, k: nat)
    requires k <= n
    ensures var m := Attempts(n, slots, won, k);
            && k <= m <= n
            && Wins(won, m) <= Wins(won, k) + Max(slots, 0)
            && (m < n ==> Wins(won, m) == Wins(won, k) + Max(slots, 0))
            && ((forall i :: k <= i < n ==> won(i)) ==> m - k == if n - k < Max(slots, 0) then n - k else Max(slots, 0))
    decreases n - k
  {
    if k < n && slots > 0 {
      AttemptsAreBounded(n, if won(k) then slots - 1 else slots, won, k + 1);
    }
  }

  /** The first is no farther from the accepted order than the second. */
  predicate NoFarther(env: Env, orders: seq<Order>, anchor: OrderId, near: OrderId, far: OrderId) {
    && anchor < |orders| && near < |orders| && far < |orders|
    && env.km(Spot(orders[anchor]), Spot(orders[near])) <= env.km(Spot(orders[anchor]), Spot(orders[far]))
  }

  /** Bundling is greedy and bounded whatever fails: the candidates are exactly the other waiting STANDARD
    * orders of the accepted order's station with both coordinates; no more than the free slots are won; it
    * stops early only with every slot spent; every order not attempted is at least as far as every order
    * attempted; and if nothing fails the orders won are the nearest ones. */
  lemma BundlingIsGreedy(env: Env, orders: seq<Order>, anchor: OrderId, slots: int, won: nat -> bool)
    ensures var ids := Eligible(env, orders, anchor);
            var m := Attempts(|ids|, slots, won, 0);
            && m <= |ids|
            && (forall id: OrderId :: id in ids <==>
                  && id < |orders| && anchor < |orders| && id != anchor
                  && orders[id].station == orders[anchor].station && orders[id].tier == Standard
                  && orders[id].status == Preparing && orders[id].lat.Some? && orders[id].lng.Some?)
            && (forall near, far :: near in ids[..m] && far in ids[m..] ==> NoFarther(env, orders, anchor, near, far))
            && Wins(won, m) <= Max(slots, 0)
            && (m < |ids| ==> Wins(won, m) == Max(slots, 0))
            && ((forall i :: 0 <= i < |ids| ==> won(i)) ==> m == if |ids| < Max(slots, 0) then |ids| else Max(slots, 0))
  {
    hide Execute, SortByKm, BundleCandidates, NoFarther;
    var candidates := BundleCandidates(orders, anchor, |orders|);
    var ids := Eligible(env, orders, anchor);
    SortSorts(env, orders, anchor, candidates);
    AttemptsAreBounded(|ids|, slots, won, 0);
    CandidatesAreBundleable(orders, anchor, |orders|);
    forall id: OrderId ensures id in ids <==> id in candidates {
      assert id in multiset(ids) <==> id in multiset(candidates);
    }
    var m := Attempts(|ids|, slots, won, 0);
    forall near, far | near in ids[..m] && far in ids[m..] ensures NoFarther(env, orders, anchor, near, far) {
      var i :| 0 <= i < m && ids[..m][i] == near;
      var j :| 0 <= j < |ids| - m && ids[m..][j] == far;
      KmIsApart(env, orders, anchor, ids[i], ids[m + j]);
    }
  }

  lemma KmIsApart(env: Env, orders: seq<Order>, anchor: OrderId, near: OrderId, far: OrderId)
    requires Bundleable(orders, anchor, near) && Bundleable(orders, anchor, far)
    ensures NoFarther(env, orders, anchor, near, far) <==> Km(env, orders, anchor, near) <= Km(env, orders, anchor, far)
  {
  }

  lemma CandidatesAreBundleable(orders: seq<Order>, anchor: OrderId, n: nat)
    ensures forall id: OrderId :: id in BundleCandidates(orders, anchor, n) <==>
            id < n && Bundleable(orders, anchor, id)
  {
  }

  /** From the k-th attempt on, `won` tells the outcomes of these calls. */
  ghost predicate Outcomes(env: Env, w: World, calls: seq<Call>, won: nat -> bool, k: nat) {
    forall i :: 0 <= i < |calls| ==> won(k + i) == Succeeds(env, w, calls, i)
  }

  lemma OutcomesSplit(env: Env, w: World, head: Call, rest: seq<Call>, won: nat -> bool, k: nat)
    requires Outcomes(env, w, [head] + rest, won, k)
    ensures won(k) == Execute(env, w, head.tx, head.now).Done?
    ensures Outcomes(env, Apply(env, w, head.tx, head.now), rest, won, k + 1)
  {
    hide Execute;
    var calls := [head] + rest;
    var next := Apply(env, w, head.tx, head.now);
    assert calls[..0] == [];
    assert won(k + 0) == Succeeds(env, w, calls, 0);
    forall i | 0 <= i < |rest| ensures won(k + 1 + i) == Succeeds(env, next, rest, i) {
      assert calls[..i + 1] == [head] + rest[..i];
      RunHead(env, w, head, rest[..i]);
      assert won(k + (i + 1)) == Succeeds(env, w, calls, i + 1);
    }
  }

  /** The world's own loop is that loop: its calls attempt the first of the sorted candidates, as many
    * as `Attempts` says for their actual outcomes. */
  lemma {:induction false} BundleCallsAreAttempts(env: Env, w: World, ids: seq<OrderId>, rider: RiderId, slots: int,
                                                  now: Time, won: nat -> bool, k: nat)
    requires Outcomes(env, w, BundleCalls(env, w, ids, rider, slots, now), won, k)
    ensures var calls := BundleCalls(env, w, ids, rider, slots, now);
            && k + |calls| == Attempts(k + |ids|, slots, won, k)
            && |calls| <= |ids|
            && (forall i :: 0 <= i < |calls| ==> calls[i] == Call(AssignRider(ids[i], rider, None, false), now))
    decreases |ids|
  {
    hide Execute;
    if ids != [] && slots > 0 {
      var head := Call(AssignRider(ids[0], rider, None, false), now);
      var next := Apply(env, w, head.tx, now);
      var left := if Execute(env, w, head.tx, now).Done? then slots - 1 else slots;
      var rest := BundleCalls(env, next, ids[1..], rider, left, now);
      OutcomesSplit(env, w, head, rest, won, k);
      BundleCallsAreAttempts(env, next, ids[1..], rider, left, now, won, k + 1);
    }
  }
}
