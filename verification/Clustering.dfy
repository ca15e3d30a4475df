/** How waiting STANDARD orders are clustered into batches. */
module Clustering {
  import opened Domain
  import opened Transactions

  const CLUSTER_RADIUS_KM := 3.0
  const MAX_BATCH_SIZE := 3

  type Group = seq<OrderId>

  /** What the clustering query selects: unbatched, unclaimed STANDARD orders in preparation,
    * with coordinates. */
  predicate Clusterable(o: Order) {
    o.tier == Standard && o.status == Preparing && o.batchId.None? && o.riderId.None? && HasCoords(o)
  }

  function Candidates(orders: seq<Order>): seq<OrderId> {
    if orders == [] then []
    else
      var n := |orders| - 1;
      Candidates(orders[..n]) + (if Clusterable(orders[n]) then [n] else [])
  }

  function PlaceOf(orders: seq<Order>, id: OrderId): Coords {
    if id < |orders| then At(orders[id]) else Coords(0.0, 0.0)
  }

  /** Where an order is; a null coordinate is read as zero. */
  function Spot(o: Order): Coords {
    Coords(if o.lat.Some? then o.lat.value else 0.0, if o.lng.Some? then o.lng.value else 0.0)
  }

  function StationOf(orders: seq<Order>, id: OrderId): StationId {
    if id < |orders| then orders[id].station else 0
  }

  predicate Close(env: Env, orders: seq<Order>, a: OrderId, b: OrderId) {
    env.km(PlaceOf(orders, a), PlaceOf(orders, b)) <= CLUSTER_RADIUS_KM
  }

  /** The pools of the clustering loop: one per station, in order of first appearance. */
  datatype Pool = Pool(station: StationId, ids: seq<OrderId>)

  function AddToPools(pools: seq<Pool>, station: StationId, id: OrderId): seq<Pool> {
    if pools == [] then [Pool(station, [id])]
    else if pools[0].station == station then [Pool(station, pools[0].ids + [id])] + pools[1..]
    else [pools[0]] + AddToPools(pools[1..], station, id)
  }

  function ByStation(orders: seq<Order>, ids: seq<OrderId>): seq<Pool> {
    if ids == [] then []
    else
      var n := |ids| - 1;
      AddToPools(ByStation(orders, ids[..n]), StationOf(orders, ids[n]), ids[n])
  }

  datatype Gathered = Gathered(group: Group, pool: seq<OrderId>)

  /** The inner loop: from index i down, move close pool members into the group until it is full. */
  function Gather(env: Env, orders: seq<Order>, group: Group, pool: seq<OrderId>, i: int): Gathered
    requires group != [] && i < |pool|
    decreases i + 1
  {
    if i < 0 || |group| >= MAX_BATCH_SIZE then Gathered(group, pool)
    else if Close(env, orders, group[0], pool[i]) then
      Gather(env, orders, group + [pool[i]], pool[..i] + pool[i + 1..], i - 1)
    else Gather(env, orders, group, pool, i - 1)
  }

  lemma GatherShrinks(env: Env, orders: seq<Order>, group: Group, pool: seq<OrderId>, i: int)
    requires group != [] && i < |pool|
    ensures |Gather(env, orders, group, pool, i).pool| <= |pool|
    decreases i + 1
  {
  }

  /** The outer loop: seed a group with the first of the pool, gather, repeat. */
  function ClusterPool(env: Env, orders: seq<Order>, pool: seq<OrderId>): seq<Group>
    decreases |pool|
  {
    if pool == [] then []
    else
      var g := Gather(env, orders, [pool[0]], pool[1..], |pool| - 2);
      GatherShrinks(env, orders, [pool[0]], pool[1..], |pool| - 2);
      [g.group] + ClusterPool(env, orders, g.pool)
  }

  function ClusterAll(env: Env, orders: seq<Order>, pools: seq<Pool>): seq<Group> {
    if pools == [] then []
    else ClusterPool(env, orders, pools[0].ids) + ClusterAll(env, orders, pools[1..])
  }

  function Clusters(env: Env, orders: seq<Order>): seq<Group> {
    ClusterAll(env, orders, ByStation(orders, Candidates(orders)))
  }

  // ---------------------------------------------------------------- what clustering guarantees

  function Flatten(groups: seq<Group>): seq<OrderId> {
    if groups == [] then [] else groups[0] + Flatten(groups[1..])
  }

  lemma FlattenConcat(a: seq<Group>, b: seq<Group>)
    ensures Flatten(a + b) == Flatten(a) + Flatten(b)
  {
    if a == [] {
      assert a + b == b;
    } else {
      assert (a + b)[1..] == a[1..] + b;
      FlattenConcat(a[1..], b);
    }
  }

  lemma FlattenMembers(groups: seq<Group>, k: nat, id: OrderId)
    requires k < |groups| && id in groups[k]
    ensures id in Flatten(groups)
  {
    if k > 0 { FlattenMembers(groups[1..], k - 1, id); }
  }

  /** Moving the i-th pool member into the group loses nothing. */
  lemma MoveKeepsMembers(group: Group, pool: seq<OrderId>, i: nat)
    requires i < |pool|
    ensures multiset(group + [pool[i]]) + multiset(pool[..i] + pool[i + 1..]) == multiset(group) + multiset(pool)
  {
    assert pool == pool[..i] + [pool[i]] + pool[i + 1..];
  }

  lemma {:induction false} GatherKeepsMembers(env: Env, orders: seq<Order>, group: Group, pool: seq<OrderId>, i: int)
    requires group != [] && -1 <= i < |pool|
    ensures var r := Gather(env, orders, group, pool, i);
            multiset(r.group) + multiset(r.pool) == multiset(group) + multiset(pool)
    decreases i + 1
  {
    if 0 <= i && |group| < MAX_BATCH_SIZE {
      if Close(env, orders, group[0], pool[i]) {
        MoveKeepsMembers(group, pool, i);
        GatherKeepsMembers(env, orders, group + [pool[i]], pool[..i] + pool[i + 1..], i - 1);
      } else {
        GatherKeepsMembers(env, orders, group, pool, i - 1);
      }
    }
  }

  lemma {:induction false} GatherMovesCloseOnes(env: Env, orders: seq<Order>, group: Group, pool: seq<OrderId>, i: int)
    requires 1 <= |group| <= MAX_BATCH_SIZE && -1 <= i < |pool|
    requires forall j :: i + 1 <= j < |pool| ==> !Close(env, orders, group[0], pool[j])
    ensures var r := Gather(env, orders, group, pool, i);
            && |group| <= |r.group| <= MAX_BATCH_SIZE && r.group[0] == group[0]
            && (forall k :: |group| <= k < |r.group| ==> Close(env, orders, group[0], r.group[k]))
            && (|r.group| < MAX_BATCH_SIZE ==> forall id :: id in r.pool ==> !Close(env, orders, group[0], id))
    decreases i + 1
  {
    if 0 <= i && |group| < MAX_BATCH_SIZE {
      if Close(env, orders, group[0], pool[i]) {
        var rest := pool[..i] + pool[i + 1..];
        assert forall j :: i <= j < |rest| ==> rest[j] == pool[j + 1];
        GatherMovesCloseOnes(env, orders, group + [pool[i]], rest, i - 1);
        GatherKeepsPrefix(env, orders, group + [pool[i]], rest, i - 1);
      } else {
        GatherMovesCloseOnes(env, orders, group, pool, i - 1);
      }
    }
  }

  /** The group only grows at its end. */
  lemma {:induction false} GatherKeepsPrefix(env: Env, orders: seq<Order>, group: Group, pool: seq<OrderId>, i: int)
    requires group != [] && -1 <= i < |pool|
    ensures group <= Gather(env, orders, group, pool, i).group
    decreases i + 1
  {
    if 0 <= i && |group| < MAX_BATCH_SIZE {
      if Close(env, orders, group[0], pool[i]) {
        GatherKeepsPrefix(env, orders, group + [pool[i]], pool[..i] + pool[i + 1..], i - 1);
      } else {
        GatherKeepsPrefix(env, orders, group, pool, i - 1);
      }
    }
  }

  /** A group's first member is its seed; the others are close to it. */
  ghost predicate WellGathered(env: Env, orders: seq<Order>, group: Group) {
    1 <= |group| <= MAX_BATCH_SIZE && forall k :: 1 <= k < |group| ==> Close(env, orders, group[0], group[k])
  }

  function Seed(group: Group): OrderId {
    if group == [] then 0 else group[0]
  }

  /** The group is full, or nothing in `other` is close to its seed. */
  ghost predicate FullOrFar(env: Env, orders: seq<Order>, group: Group, other: seq<OrderId>) {
    |group| == MAX_BATCH_SIZE || forall id :: id in other ==> !Close(env, orders, Seed(group), id)
  }

  /** Each group is full or left nothing close to its seed for the groups after it. */
  ghost predicate Exhaustive(env: Env, orders: seq<Order>, groups: seq<Group>) {
    forall a, b :: 0 <= a < b < |groups| ==> FullOrFar(env, orders, groups[a], groups[b])
  }

  lemma PrependGroup(env: Env, orders: seq<Order>, group: Group, pool: seq<OrderId>, later: seq<Group>)
    requires WellGathered(env, orders, group)
    requires FullOrFar(env, orders, group, pool)
    requires multiset(Flatten(later)) == multiset(pool)
    requires forall k :: 0 <= k < |later| ==> WellGathered(env, orders, later[k])
    requires Exhaustive(env, orders, later)
    ensures forall k :: 0 <= k < |[group] + later| ==> WellGathered(env, orders, ([group] + later)[k])
    ensures Exhaustive(env, orders, [group] + later)
  {
    var groups := [group] + later;
    forall b, id | 1 <= b < |groups| && id in groups[b] ensures id in pool {
      FlattenMembers(later, b - 1, id);
      assert id in multiset(Flatten(later));
    }
  }

  lemma {:induction false} ClusterPoolIsCorrect(env: Env, orders: seq<Order>, pool: seq<OrderId>)
    ensures var groups := ClusterPool(env, orders, pool);
            && multiset(Flatten(groups)) == multiset(pool)
            && (forall k :: 0 <= k < |groups| ==> WellGathered(env, orders, groups[k]))
            && Exhaustive(env, orders, groups)
    decreases |pool|
  {
    if pool != [] {
      var g := Gather(env, orders, [pool[0]], pool[1..], |pool| - 2);
      GatherShrinks(env, orders, [pool[0]], pool[1..], |pool| - 2);
      GatherMovesCloseOnes(env, orders, [pool[0]], pool[1..], |pool| - 2);
      GatherKeepsMembers(env, orders, [pool[0]], pool[1..], |pool| - 2);
      ClusterPoolIsCorrect(env, orders, g.pool);
      var later := ClusterPool(env, orders, g.pool);
      assert pool == [pool[0]] + pool[1..];
      assert ([g.group] + later)[1..] == later;
      PrependGroup(env, orders, g.group, g.pool, later);
    }
  }

  // Pools.

  ghost predicate PoolOfOneStation(orders: seq<Order>, pool: Pool) {
    forall id :: id in pool.ids ==> StationOf(orders, id) == pool.station
  }

  ghost predicate PoolsSorted(orders: seq<Order>, pools: seq<Pool>) {
    && (forall a, b :: 0 <= a < b < |pools| ==> pools[a].station != pools[b].station)
    && (forall a :: 0 <= a < |pools| ==> PoolOfOneStation(orders, pools[a]))
  }

  function PoolIds(pools: seq<Pool>): seq<OrderId> {
    if pools == [] then [] else pools[0].ids + PoolIds(pools[1..])
  }

  lemma {:induction false} AddAddsOne(pools: seq<Pool>, station: StationId, id: OrderId)
    ensures multiset(PoolIds(AddToPools(pools, station, id))) == multiset(PoolIds(pools)) + multiset{id}
  {
    if pools == [] {
      assert [Pool(station, [id])][1..] == [];
    } else if pools[0].station == station {
      assert ([Pool(station, pools[0].ids + [id])] + pools[1..])[1..] == pools[1..];
    } else {
      AddAddsOne(pools[1..], station, id);
      assert ([pools[0]] + AddToPools(pools[1..], station, id))[1..] == AddToPools(pools[1..], station, id);
    }
  }

  /** Adding keeps every pool in place and appends at most one. */
  lemma {:induction false} AddKeepsStations(pools: seq<Pool>, station: StationId, id: OrderId)
    ensures var next := AddToPools(pools, station, id);
            && |pools| <= |next| <= |pools| + 1
            && (forall a :: 0 <= a < |pools| ==> next[a].station == pools[a].station)
            && (|next| > |pools| ==> next[|pools|].station == station)
            && (|next| > |pools| ==> forall a :: 0 <= a < |pools| ==> pools[a].station != station)
  {
    if pools != [] && pools[0].station != station {
      AddKeepsStations(pools[1..], station, id);
      assert forall a :: 1 <= a < |pools| ==> pools[a] == pools[1..][a - 1];
    }
  }

  lemma {:induction false} AddKeepsMembers(orders: seq<Order>, pools: seq<Pool>, id: OrderId)
    requires forall a :: 0 <= a < |pools| ==> PoolOfOneStation(orders, pools[a])
    ensures var next := AddToPools(pools, StationOf(orders, id), id);
            forall a :: 0 <= a < |next| ==> PoolOfOneStation(orders, next[a])
  {
    var station := StationOf(orders, id);
    var next := AddToPools(pools, station, id);
    if pools == [] {
    } else if pools[0].station == station {
      assert PoolOfOneStation(orders, pools[0]);
      assert next == [Pool(station, pools[0].ids + [id])] + pools[1..];
    } else {
      AddKeepsMembers(orders, pools[1..], id);
      assert next == [pools[0]] + AddToPools(pools[1..], station, id);
    }
  }

  lemma {:induction false} AddKeepsPools(orders: seq<Order>, pools: seq<Pool>, id: OrderId)
    requires PoolsSorted(orders, pools)
    ensures PoolsSorted(orders, AddToPools(pools, StationOf(orders, id), id))
    ensures multiset(PoolIds(AddToPools(pools, StationOf(orders, id), id))) == multiset(PoolIds(pools)) + multiset{id}
  {
    hide AddToPools, PoolIds, StationOf;
    AddAddsOne(pools, StationOf(orders, id), id);
    AddKeepsStations(pools, StationOf(orders, id), id);
    AddKeepsMembers(orders, pools, id);
  }

  lemma {:induction false} ByStationSorts(orders: seq<Order>, ids: seq<OrderId>)
    ensures PoolsSorted(orders, ByStation(orders, ids))
    ensures multiset(PoolIds(ByStation(orders, ids))) == multiset(ids)
  {
    hide AddToPools, StationOf;
    if ids != [] {
      var n := |ids| - 1;
      ByStationSorts(orders, ids[..n]);
      AddKeepsPools(orders, ByStation(orders, ids[..n]), ids[n]);
      assert ids == ids[..n] + [ids[n]];
    }
  }

  /** One station per group, and each group full or leaving nothing of its own station close to its
    * seed for the later groups. */
  ghost predicate StationwiseExhaustive(env: Env, orders: seq<Order>, groups: seq<Group>) {
    && (forall k :: 0 <= k < |groups| ==> OneStation(orders, groups[k], StationOf(orders, Seed(groups[k]))))
    && (forall a, b :: 0 <= a < b < |groups| ==>
          StationOf(orders, Seed(groups[a])) == StationOf(orders, Seed(groups[b])) ==>
          FullOrFar(env, orders, groups[a], groups[b]))
  }

  ghost predicate OneStation(orders: seq<Order>, group: Group, station: StationId) {
    forall id :: id in group ==> StationOf(orders, id) == station
  }

  ghost predicate HasPool(pools: seq<Pool>, station: StationId) {
    exists p :: 0 <= p < |pools| && pools[p].station == station
  }

  /** Every group belongs to the station of some pool. */
  ghost predicate FromPools(orders: seq<Order>, groups: seq<Group>, pools: seq<Pool>) {
    forall k :: 0 <= k < |groups| ==> HasPool(pools, StationOf(orders, Seed(groups[k])))
  }

  lemma {:induction false} GroupsOfPool(env: Env, orders: seq<Order>, pool: Pool, groups: seq<Group>)
    requires PoolOfOneStation(orders, pool)
    requires multiset(Flatten(groups)) == multiset(pool.ids)
    requires forall k :: 0 <= k < |groups| ==> groups[k] != []
    ensures forall k :: 0 <= k < |groups| ==> OneStation(orders, groups[k], pool.station)
    ensures forall k :: 0 <= k < |groups| ==> StationOf(orders, Seed(groups[k])) == pool.station
  {
    forall k, id | 0 <= k < |groups| && id in groups[k] ensures StationOf(orders, id) == pool.station {
      FlattenMembers(groups, k, id);
      assert id in multiset(pool.ids);
    }
  }

  lemma PrependPool(env: Env, orders: seq<Order>, pools: seq<Pool>, first: seq<Group>, rest: seq<Group>)
    requires pools != [] && PoolsSorted(orders, pools)
    requires forall k :: 0 <= k < |first| ==> OneStation(orders, first[k], pools[0].station)
    requires forall k :: 0 <= k < |first| ==> StationOf(orders, Seed(first[k])) == pools[0].station
    requires Exhaustive(env, orders, first)
    requires FromPools(orders, rest, pools[1..]) && StationwiseExhaustive(env, orders, rest)
    ensures FromPools(orders, first + rest, pools) && StationwiseExhaustive(env, orders, first + rest)
  {
    forall k | 0 <= k < |rest|
      ensures HasPool(pools, StationOf(orders, Seed(rest[k]))) && StationOf(orders, Seed(rest[k])) != pools[0].station
    {
      var p :| 0 <= p < |pools[1..]| && pools[1..][p].station == StationOf(orders, Seed(rest[k]));
      assert pools[p + 1].station == StationOf(orders, Seed(rest[k]));
    }
    assert HasPool(pools, pools[0].station);
  }

  lemma {:induction false} ClusterAllIsCorrect(env: Env, orders: seq<Order>, pools: seq<Pool>)
    requires PoolsSorted(orders, pools)
    ensures var groups := ClusterAll(env, orders, pools);
            && multiset(Flatten(groups)) == multiset(PoolIds(pools))
            && (forall k :: 0 <= k < |groups| ==> WellGathered(env, orders, groups[k]))
            && FromPools(orders, groups, pools) && StationwiseExhaustive(env, orders, groups)
  {
    if pools != [] {
      var first := ClusterPool(env, orders, pools[0].ids);
      var rest := ClusterAll(env, orders, pools[1..]);
      ClusterPoolIsCorrect(env, orders, pools[0].ids);
      ClusterAllIsCorrect(env, orders, pools[1..]);
      FlattenConcat(first, rest);
      GroupsOfPool(env, orders, pools[0], first);
      PrependPool(env, orders, pools, first, rest);
    }
  }

  lemma CandidatesAreClusterable(orders: seq<Order>)
    ensures forall id: OrderId :: id in Candidates(orders) <==> id < |orders| && Clusterable(orders[id])
    ensures forall i, j :: 0 <= i < j < |Candidates(orders)| ==> Candidates(orders)[i] < Candidates(orders)[j]
  {
    if orders != [] {
      var rest := Candidates(orders[..|orders| - 1]);
      CandidatesAreClusterable(orders[..|orders| - 1]);
      assert forall i :: 0 <= i < |rest| ==> rest[i] in rest;
    }
  }

  /** Clustering is correct: the groups partition exactly the waiting orders, each holds 1 to 3 orders
    * of one station, all within the radius of its seed, and each is full or left no order of its
    * station within the radius of its seed to a later group. */
  lemma ClusteringIsCorrect(env: Env, orders: seq<Order>)
    ensures var groups := Clusters(env, orders);
            && (forall k :: 0 <= k < |groups| ==> WellGathered(env, orders, groups[k]))
            && StationwiseExhaustive(env, orders, groups)
            && multiset(Flatten(groups)) == multiset(Candidates(orders))
            && (forall id: OrderId :: id in Flatten(groups) <==> id < |orders| && Clusterable(orders[id]))
            && (forall i, j :: 0 <= i < j < |Flatten(groups)| ==> Flatten(groups)[i] != Flatten(groups)[j])
  {
    var ids := Candidates(orders);
    var groups := Clusters(env, orders);
    ByStationSorts(orders, ids);
    ClusterAllIsCorrect(env, orders, ByStation(orders, ids));
    CandidatesAreClusterable(orders);
    forall id ensures id in Flatten(groups) <==> id in ids {
      assert id in multiset(Flatten(groups)) <==> id in multiset(ids);
    }
    DistinctMultiset(ids);
    DistinctFromMultiset(Flatten(groups));
  }

  lemma DistinctMultiset(ids: seq<OrderId>)
    requires forall i, j :: 0 <= i < j < |ids| ==> ids[i] < ids[j]
    ensures forall id :: multiset(ids)[id] <= 1
  {
    if ids != [] {
      var n := |ids| - 1;
      assert ids == ids[..n] + [ids[n]];
      DistinctMultiset(ids[..n]);
      assert ids[n] !in ids[..n];
    }
  }

  lemma DistinctFromMultiset(ids: seq<OrderId>)
    requires forall id :: multiset(ids)[id] <= 1
    ensures forall i, j :: 0 <= i < j < |ids| ==> ids[i] != ids[j]
  {
    forall i, j | 0 <= i < j < |ids| ensures ids[i] != ids[j] {
      assert ids == ids[..j] + [ids[j]] + ids[j + 1..];
      assert ids[..j][i] == ids[i];
      assert multiset(ids[..j])[ids[i]] >= 1;
      assert multiset(ids) == multiset(ids[..j]) + multiset{ids[j]} + multiset(ids[j + 1..]);
      assert multiset(ids)[ids[i]] >= multiset(ids[..j])[ids[i]] + multiset{ids[j]}[ids[i]];
    }
  }

  lemma DistinctFlatten(groups: seq<Group>)
    requires forall i, j :: 0 <= i < j < |Flatten(groups)| ==> Flatten(groups)[i] != Flatten(groups)[j]
    ensures forall k, i, j :: 0 <= k < |groups| && 0 <= i < j < |groups[k]| ==> groups[k][i] != groups[k][j]
    ensures forall a, b, id :: 0 <= a < b < |groups| && id in groups[a] ==> id !in groups[b]
  {
    if groups != [] {
      var rest := Flatten(groups[1..]);
      assert Flatten(groups) == groups[0] + rest;
      forall i, j | 0 <= i < j < |rest| ensures rest[i] != rest[j] {
        assert Flatten(groups)[|groups[0]| + i] != Flatten(groups)[|groups[0]| + j];
      }
      DistinctFlatten(groups[1..]);
      forall k, i, j | 0 <= k < |groups| && 0 <= i < j < |groups[k]| ensures groups[k][i] != groups[k][j] {
        if k == 0 {
          assert Flatten(groups)[i] != Flatten(groups)[j];
        } else {
          assert groups[1..][k - 1] == groups[k];
        }
      }
      forall b, id | 1 <= b < |groups| && id in groups[0] ensures id !in groups[b] {
        var i :| 0 <= i < |groups[0]| && groups[0][i] == id;
        forall j | 0 <= j < |rest| ensures rest[j] != id {
          assert Flatten(groups)[i] != Flatten(groups)[|groups[0]| + j];
        }
        if id in groups[b] {
          FlattenMembers(groups[1..], b - 1, id);
        }
      }
    }
  }

  // ---------------------------------------------------------------- centroids

  function Sum(xs: seq<real>): real {
    if xs == [] then 0.0 else Sum(xs[..|xs| - 1]) + xs[|xs| - 1]
  }

  function Lats(orders: seq<Order>, group: Group): seq<real> {
    seq(|group|, i requires 0 <= i < |group| => PlaceOf(orders, group[i]).lat)
  }

  function Lngs(orders: seq<Order>, group: Group): seq<real> {
    seq(|group|, i requires 0 <= i < |group| => PlaceOf(orders, group[i]).lng)
  }

  function Centroid(orders: seq<Order>, group: Group): Coords
    requires group != []
  {
    Coords(Sum(Lats(orders, group)) / (|group| as real), Sum(Lngs(orders, group)) / (|group| as real))
  }

  ghost predicate InBox(c: Coords, low: Coords, high: Coords) {
    low.lat <= c.lat <= high.lat && low.lng <= c.lng <= high.lng
  }

  lemma {:induction false} SumBetween(xs: seq<real>, low: real, high: real)
    requires forall i :: 0 <= i < |xs| ==> low <= xs[i] <= high
    ensures (|xs| as real) * low <= Sum(xs) <= (|xs| as real) * high
  {
    if xs != [] {
      var n := |xs| - 1;
      SumBetween(xs[..n], low, high);
      assert |xs| as real == (n as real) + 1.0;
      assert (|xs| as real) * low == (n as real) * low + low;
      assert (|xs| as real) * high == (n as real) * high + high;
    }
  }

  lemma QuotientBetween(sum: real, n: real, low: real, high: real)
    requires n > 0.0 && n * low <= sum <= n * high
    ensures low <= sum / n <= high
  {
    var q := sum / n;
    assert sum == q * n;
    assert q < low ==> (low - q) * n > 0.0;
    assert q > high ==> (q - high) * n > 0.0;
  }

  lemma MeanBetween(xs: seq<real>, low: real, high: real)
    requires xs != [] && forall i :: 0 <= i < |xs| ==> low <= xs[i] <= high
    ensures low <= Sum(xs) / (|xs| as real) <= high
  {
    SumBetween(xs, low, high);
    QuotientBetween(Sum(xs), |xs| as real, low, high);
  }

  /** The centroid lies in every box that holds the group's members. */
  lemma CentroidInBounds(orders: seq<Order>, group: Group, low: Coords, high: Coords)
    requires group != [] && forall id :: id in group ==> InBox(PlaceOf(orders, id), low, high)
    ensures InBox(Centroid(orders, group), low, high)
  {
    assert forall i :: 0 <= i < |group| ==> group[i] in group;
    MeanBetween(Lats(orders, group), low.lat, high.lat);
    MeanBetween(Lngs(orders, group), low.lng, high.lng);
  }
}
