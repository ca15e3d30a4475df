/** Which orders a group takes: the first waiting order is the seed, the last close ones go with it. */
module GroupOrder {
  import opened Domain
  import opened Clustering

  ghost predicate Ascending(ids: seq<OrderId>) {
    forall i, j :: 0 <= i < j < |ids| ==> ids[i] < ids[j]
  }

  /** The seed comes before everything that is left, and whatever is left close to it comes before what a full
    * group took. */
  ghost predicate TakesLast(env: Env, orders: seq<Order>, group: Group, other: seq<OrderId>) {
    forall id :: id in other ==>
      && Seed(group) < id
      && (Close(env, orders, Seed(group), id) ==>
            |group| == MAX_BATCH_SIZE && forall k :: 1 <= k < |group| ==> id < group[k])
  }

  ghost predicate SeedFirst(group: Group) {
    group != [] && forall k :: 1 <= k < |group| ==> group[0] < group[k]
  }

  lemma {:induction false} GatherTakesLast(env: Env, orders: seq<Order>, group: Group, pool: seq<OrderId>, i: int)
    requires SeedFirst(group) && |group| <= MAX_BATCH_SIZE && -1 <= i < |pool| && Ascending(pool)
    requires forall j :: 0 <= j < |pool| ==> group[0] < pool[j]
    requires forall j :: i + 1 <= j < |pool| ==> !Close(env, orders, group[0], pool[j])
    requires forall k, j :: 1 <= k < |group| && 0 <= j <= i ==> pool[j] < group[k]
    ensures var r := Gather(env, orders, group, pool, i);
            SeedFirst(r.group) && Ascending(r.pool) && r.group[0] == group[0] && TakesLast(env, orders, r.group, r.pool)
    decreases i + 1
  {
    if 0 <= i && |group| < MAX_BATCH_SIZE {
      if Close(env, orders, group[0], pool[i]) {
        var rest := pool[..i] + pool[i + 1..];
        assert forall j :: 0 <= j < i ==> rest[j] == pool[j];
        assert forall j :: i <= j < |rest| ==> rest[j] == pool[j + 1];
        GatherTakesLast(env, orders, group + [pool[i]], rest, i - 1);
      } else {
        GatherTakesLast(env, orders, group, pool, i - 1);
      }
    }
  }

  lemma {:induction false} PoolTakesLast(env: Env, orders: seq<Order>, pool: seq<OrderId>)
    requires Ascending(pool)
    ensures var groups := ClusterPool(env, orders, pool);
            && (forall k :: 0 <= k < |groups| ==> SeedFirst(groups[k]))
            && (forall a, b :: 0 <= a < b < |groups| ==> TakesLast(env, orders, groups[a], groups[b]))
    decreases |pool|
  {
    hide Close, Gather;
    if pool != [] {
      var g := Gather(env, orders, [pool[0]], pool[1..], |pool| - 2);
      GatherShrinks(env, orders, [pool[0]], pool[1..], |pool| - 2);
      GatherTakesLast(env, orders, [pool[0]], pool[1..], |pool| - 2);
      PoolTakesLast(env, orders, g.pool);
      ClusterPoolIsCorrect(env, orders, g.pool);
      var later := ClusterPool(env, orders, g.pool);
      assert ClusterPool(env, orders, pool) == [g.group] + later;
      forall b | 0 <= b < |later| ensures TakesLast(env, orders, g.group, later[b]) {
        forall id | id in later[b] ensures id in g.pool {
          FlattenMembers(later, b, id);
          assert id in multiset(Flatten(later));
        }
      }
    }
  }

  // Pools.

  ghost predicate PoolsAscend(pools: seq<Pool>) {
    forall p :: 0 <= p < |pools| ==> Ascending(pools[p].ids)
  }

  ghost predicate PoolsBelow(pools: seq<Pool>, bound: nat) {
    forall p, id :: 0 <= p < |pools| && id in pools[p].ids ==> id < bound
  }

  lemma {:induction false} AddAscends(pools: seq<Pool>, station: StationId, id: OrderId)
    requires PoolsAscend(pools) && PoolsBelow(pools, id)
    ensures PoolsAscend(AddToPools(pools, station, id)) && PoolsBelow(AddToPools(pools, station, id), id + 1)
  {
    if pools == [] {
    } else if pools[0].station == station {
      assert forall i :: 0 <= i < |pools[0].ids| ==> pools[0].ids[i] in pools[0].ids;
    } else {
      AddAscends(pools[1..], station, id);
      assert AddToPools(pools, station, id) == [pools[0]] + AddToPools(pools[1..], station, id);
    }
  }

  lemma {:induction false} ByStationAscends(orders: seq<Order>, ids: seq<OrderId>, bound: nat)
    requires Ascending(ids) && forall i :: 0 <= i < |ids| ==> ids[i] < bound
    ensures PoolsAscend(ByStation(orders, ids)) && PoolsBelow(ByStation(orders, ids), bound)
  {
    hide AddToPools, StationOf;
    if ids != [] {
      var n := |ids| - 1;
      ByStationAscends(orders, ids[..n], ids[n]);
      AddAscends(ByStation(orders, ids[..n]), StationOf(orders, ids[n]), ids[n]);
    }
  }

  lemma {:induction false} AllTakeLast(env: Env, orders: seq<Order>, pools: seq<Pool>)
    requires PoolsSorted(orders, pools) && PoolsAscend(pools)
    ensures var groups := ClusterAll(env, orders, pools);
            && (forall k :: 0 <= k < |groups| ==> SeedFirst(groups[k]))
            && (forall a, b :: 0 <= a < b < |groups| ==>
                  StationOf(orders, Seed(groups[a])) == StationOf(orders, Seed(groups[b])) ==>
                  TakesLast(env, orders, groups[a], groups[b]))
  {
    hide TakesLast, StationOf, Close;
    if pools != [] {
      var first, rest := ClusterPool(env, orders, pools[0].ids), ClusterAll(env, orders, pools[1..]);
      PoolTakesLast(env, orders, pools[0].ids);
      AllTakeLast(env, orders, pools[1..]);
      ClusterPoolIsCorrect(env, orders, pools[0].ids);
      GroupsOfPool(env, orders, pools[0], first);
      ClusterAllIsCorrect(env, orders, pools[1..]);
      assert ClusterAll(env, orders, pools) == first + rest;
      forall k | 0 <= k < |rest| ensures StationOf(orders, Seed(rest[k])) != pools[0].station {
        var p :| 0 <= p < |pools[1..]| && pools[1..][p].station == StationOf(orders, Seed(rest[k]));
        assert pools[p + 1].station == StationOf(orders, Seed(rest[k]));
      }
    }
  }

  // By columns.

  /** What clustering takes up: a STANDARD order in preparation with no batch, no rider and both coordinates. */
  predicate Waits(o: Order) {
    o.tier == Standard && o.status == Preparing && o.batchId.None? && o.riderId.None? && o.lat.Some? && o.lng.Some?
  }

  /** One to three different orders of one station, the first in the table and others within 3 km of it. */
  ghost predicate IsGroup(env: Env, orders: seq<Order>, group: Group) {
    && 1 <= |group| <= 3 && (forall k :: 0 <= k < |group| ==> group[k] < |orders|)
    && (forall i, j :: 0 <= i < j < |group| ==> group[i] != group[j])
    && forall k :: 1 <= k < |group| ==>
         && group[0] < group[k] && orders[group[k]].station == orders[group[0]].station
         && env.km(Spot(orders[group[0]]), Spot(orders[group[k]])) <= 3.0
  }

  /** What a group left of its station to a later group: orders after its seed, and close ones only if it is full
    * of orders further down the table. */
  ghost predicate LeavesTo(env: Env, orders: seq<Order>, group: Group, later: Group)
    requires IsGroup(env, orders, group)
  {
    forall k :: 0 <= k < |later| && later[k] < |orders| && orders[later[k]].station == orders[group[0]].station ==>
      && group[0] < later[k]
      && (env.km(Spot(orders[group[0]]), Spot(orders[later[k]])) <= 3.0 ==>
            |group| == 3 && forall j :: 1 <= j < |group| ==> later[k] < group[j])
  }

  lemma GroupNotEmpty(env: Env, orders: seq<Order>, group: Group)
    requires WellGathered(env, orders, group)
    ensures group != []
  {
  }

  lemma ClustersTakeLast(env: Env, orders: seq<Order>)
    ensures var groups := Clusters(env, orders);
            && (forall k :: 0 <= k < |groups| ==> SeedFirst(groups[k]))
            && (forall a, b :: 0 <= a < b < |groups| ==>
                  StationOf(orders, Seed(groups[a])) == StationOf(orders, Seed(groups[b])) ==>
                  TakesLast(env, orders, groups[a], groups[b]))
  {
    hide TakesLast, SeedFirst, StationOf, Clusterable;
    var ids := Candidates(orders);
    CandidatesAreClusterable(orders);
    ByStationSorts(orders, ids);
    forall i | 0 <= i < |ids| ensures ids[i] < |orders| { assert ids[i] in ids; }
    ByStationAscends(orders, ids, |orders|);
    AllTakeLast(env, orders, ByStation(orders, ids));
    assert Clusters(env, orders) == ClusterAll(env, orders, ByStation(orders, ids));
  }

  /** Clustering, told by columns: every waiting order is in exactly one group, the groups are as above, and so
    * is what each left to the later ones. */
  lemma ClustersAreExact(env: Env, orders: seq<Order>)
    ensures var groups := Clusters(env, orders);
            && (forall k :: 0 <= k < |groups| ==> IsGroup(env, orders, groups[k]))
            && (forall a, b :: 0 <= a < b < |groups| ==> LeavesTo(env, orders, groups[a], groups[b]))
            && (forall id: OrderId :: id in Flatten(groups) <==> id < |orders| && Waits(orders[id]))
            && (forall i, j :: 0 <= i < j < |Flatten(groups)| ==> Flatten(groups)[i] != Flatten(groups)[j])
  {
    hide Clusters, Candidates, TakesLast, SeedFirst, WellGathered, IsGroup, LeavesTo, OneStation, FullOrFar, Spot;
    var groups := Clusters(env, orders);
    ClusteringIsCorrect(env, orders);
    ClustersTakeLast(env, orders);
    DistinctFlatten(groups);
    forall k | 0 <= k < |groups| ensures IsGroup(env, orders, groups[k]) {
      GroupByColumns(env, orders, groups, k);
    }
    forall a, b | 0 <= a < b < |groups| ensures LeavesTo(env, orders, groups[a], groups[b]) {
      assert OneStation(orders, groups[b], StationOf(orders, Seed(groups[b])));
      assert groups[b] != [] by { GroupNotEmpty(env, orders, groups[b]); }
      LeavesByColumns(env, orders, groups[a], groups[b]);
    }
  }

  lemma GroupByColumns(env: Env, orders: seq<Order>, groups: seq<Group>, k: nat)
    requires k < |groups| && SeedFirst(groups[k]) && WellGathered(env, orders, groups[k])
    requires OneStation(orders, groups[k], StationOf(orders, Seed(groups[k])))
    requires forall id: OrderId :: id in Flatten(groups) <==> id < |orders| && Clusterable(orders[id])
    requires forall i, j :: 0 <= i < j < |groups[k]| ==> groups[k][i] != groups[k][j]
    ensures IsGroup(env, orders, groups[k])
  {
    var group := groups[k];
    forall i | 0 <= i < |group| ensures group[i] < |orders| && StationOf(orders, group[i]) == orders[group[0]].station {
      FlattenMembers(groups, k, group[0]);
      FlattenMembers(groups, k, group[i]);
      assert group[i] in group;
    }
  }

  lemma LeavesByColumns(env: Env, orders: seq<Order>, group: Group, later: Group)
    requires IsGroup(env, orders, group) && later != []
    requires OneStation(orders, later, StationOf(orders, Seed(later)))
    requires StationOf(orders, Seed(group)) == StationOf(orders, Seed(later)) ==> TakesLast(env, orders, group, later)
    ensures LeavesTo(env, orders, group, later)
  {
    forall k | 0 <= k < |later| && later[k] < |orders| && orders[later[k]].station == orders[group[0]].station
      ensures && group[0] < later[k]
              && (env.km(Spot(orders[group[0]]), Spot(orders[later[k]])) <= 3.0 ==>
                    |group| == 3 && forall j :: 1 <= j < |group| ==> later[k] < group[j])
    {
      assert later[k] in later;
    }
  }
}
