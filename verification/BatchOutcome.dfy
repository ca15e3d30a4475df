/** What clustering leaves in the tables, and what the centroid of a batch is. */
module BatchOutcome {
  import opened Prelude
  import opened Domain
  import opened Transactions
  import opened OrderHistory
  import opened RowFrames
  import opened Clustering
  import opened GroupOrder
  import opened Dispatch
  import opened BatchRuns
  import opened Bundling

  // ---------------------------------------------------------------- centroids

  function Coordinate(o: Order, lat: bool): Option<real> {
    if lat then o.lat else o.lng
  }

  /** How far an order of the batch lies off in one coordinate. */
  function Off(batch: BatchId, lat: bool, centre: real): Order -> real {
    (o: Order) =>
      if o.batchId == Some(batch) && Coordinate(o, lat).Some? then Coordinate(o, lat).value - centre else 0.0
  }

  /** The deviations of the batch's orders from this point sum to zero in both coordinates: it is their mean. */
  ghost predicate IsCentre(orders: seq<Order>, batch: BatchId, c: Coords) {
    RealTotal(orders, Off(batch, true, c.lat)) == 0.0 && RealTotal(orders, Off(batch, false, c.lng)) == 0.0
  }

  function Values(orders: seq<Order>, group: Group, lat: bool): seq<real> {
    if lat then Lats(orders, group) else Lngs(orders, group)
  }

  lemma ValuesStep(orders: seq<Order>, group: Group, lat: bool)
    requires group != [] && group[|group| - 1] < |orders| && Coordinate(orders[group[|group| - 1]], lat).Some?
    ensures Sum(Values(orders, group, lat)) ==
            Sum(Values(orders, group[..|group| - 1], lat)) + Coordinate(orders[group[|group| - 1]], lat).value
  {
    assert Values(orders, group, lat)[..|group| - 1] == Values(orders, group[..|group| - 1], lat);
  }

  function Times(n: nat, x: real): real {
    (n as real) * x
  }

  lemma OneTimesMore(n: nat, x: real)
    ensures Times(n + 1, x) == Times(n, x) + x
  {
  }

  /** The last order of the group, tagged. */
  lemma TagLast(orders: seq<Order>, group: Group, batch: BatchId, lat: bool, centre: real)
    requires group != []
    requires var id := group[|group| - 1];
             id < |orders| && orders[id].batchId != Some(batch) && Coordinate(orders[id], lat).Some?
    requires group[|group| - 1] !in group[..|group| - 1]
    ensures var rest, id := Tag(orders, group[..|group| - 1], batch), group[|group| - 1];
            var tagged := rest[id].(batchId := Some(batch));
            && Tag(orders, group, batch) == rest[id := tagged]
            && Off(batch, lat, centre)(rest[id]) == 0.0
            && Off(batch, lat, centre)(tagged) == Coordinate(orders[id], lat).value - centre
  {
    TagRows(orders, group[..|group| - 1], batch);
  }

  lemma {:induction false} TagDeviation(orders: seq<Order>, group: Group, batch: BatchId, lat: bool, centre: real)
    requires forall id :: id in group ==>
               id < |orders| && orders[id].batchId != Some(batch) && Coordinate(orders[id], lat).Some?
    requires forall i, j :: 0 <= i < j < |group| ==> group[i] != group[j]
    ensures RealTotal(Tag(orders, group, batch), Off(batch, lat, centre)) ==
            RealTotal(orders, Off(batch, lat, centre)) + Sum(Values(orders, group, lat)) - Times(|group|, centre)
  {
    if group != [] {
      hide RealTotal, Sum, Values, Lats, Lngs, Tag, Off, Coordinate, Times;
      var n := |group| - 1;
      var rest := Tag(orders, group[..n], batch);
      assert forall id :: id in group[..n] ==> id in group;
      assert group[n] in group && group[n] !in group[..n];
      TagDeviation(orders, group[..n], batch, lat, centre);
      TagLast(orders, group, batch, lat, centre);
      RealTotalUpdate(rest, group[n], rest[group[n]].(batchId := Some(batch)), Off(batch, lat, centre));
      ValuesStep(orders, group, lat);
      OneTimesMore(n, centre);
    } else {
      assert Values(orders, [], lat) == [];
    }
  }

  lemma MeanTimesCount(xs: seq<real>)
    requires xs != []
    ensures Times(|xs|, Sum(xs) / (|xs| as real)) == Sum(xs)
  {
  }

  /** In one coordinate. */
  lemma MeanIsCentre(orders: seq<Order>, tagged: seq<Order>, group: Group, batch: BatchId, lat: bool)
    requires group != [] && forall i, j :: 0 <= i < j < |group| ==> group[i] != group[j]
    requires forall id :: id in group ==> id < |orders| && Coordinate(orders[id], lat).Some?
    requires forall i :: 0 <= i < |orders| ==> orders[i].batchId != Some(batch)
    requires |tagged| == |orders|
    requires forall i :: 0 <= i < |orders| ==> Coordinate(tagged[i], lat) == Coordinate(orders[i], lat)
    requires forall i :: 0 <= i < |orders| ==> (tagged[i].batchId == Some(batch) <==> i in group)
    ensures RealTotal(tagged, Off(batch, lat, Sum(Values(orders, group, lat)) / (|group| as real))) == 0.0
  {
    hide RealTotal, Sum, Coordinate, Tag, Off, Times;
    var values := Values(orders, group, lat);
    var centre := Sum(values) / (|group| as real);
    UntaggedOff(orders, batch, lat, centre);
    TaggedAlike(orders, tagged, group, batch, lat, centre);
    TagDeviation(orders, group, batch, lat, centre);
    MeanTimesCount(values);
    RealTotalCongruent(tagged, Tag(orders, group, batch), Off(batch, lat, centre));
  }

  lemma UntaggedOff(orders: seq<Order>, batch: BatchId, lat: bool, centre: real)
    requires forall i :: 0 <= i < |orders| ==> orders[i].batchId != Some(batch)
    ensures RealTotal(orders, Off(batch, lat, centre)) == 0.0
  {
    RealTotalZero(orders, Off(batch, lat, centre));
  }

  lemma TaggedAlike(orders: seq<Order>, tagged: seq<Order>, group: Group, batch: BatchId, lat: bool, centre: real)
    requires |tagged| == |orders|
    requires forall i :: 0 <= i < |orders| ==> orders[i].batchId != Some(batch)
    requires forall i :: 0 <= i < |orders| ==> Coordinate(tagged[i], lat) == Coordinate(orders[i], lat)
    requires forall i :: 0 <= i < |orders| ==> (tagged[i].batchId == Some(batch) <==> i in group)
    ensures forall i :: 0 <= i < |orders| ==>
              Off(batch, lat, centre)(tagged[i]) == Off(batch, lat, centre)(Tag(orders, group, batch)[i])
  {
    TagRows(orders, group, batch);
  }

  /** The stored centroid is the mean of the group. */
  lemma CentroidIsCentre(orders: seq<Order>, tagged: seq<Order>, group: Group, batch: BatchId)
    requires group != [] && forall i, j :: 0 <= i < j < |group| ==> group[i] != group[j]
    requires forall id :: id in group ==> id < |orders| && orders[id].lat.Some? && orders[id].lng.Some?
    requires forall i :: 0 <= i < |orders| ==> orders[i].batchId != Some(batch)
    requires |tagged| == |orders|
    requires forall i :: 0 <= i < |orders| ==> tagged[i].lat == orders[i].lat && tagged[i].lng == orders[i].lng
    requires forall i :: 0 <= i < |orders| ==> (tagged[i].batchId == Some(batch) <==> i in group)
    ensures IsCentre(tagged, batch, Centroid(orders, group))
  {
    hide RealTotal, Sum, Lats, Lngs;
    MeanIsCentre(orders, tagged, group, batch, true);
    MeanIsCentre(orders, tagged, group, batch, false);
  }

  // ---------------------------------------------------------------- the batches made

  /** `next` is `w` with one open batch for each group, and the group's orders pointing at it. */
  ghost predicate Batched(w: World, next: World, orders: seq<Order>, groups: seq<Group>) {
    && next == w.(orders := next.orders, batches := next.batches)
    && |next.orders| == |w.orders| && |next.batches| == |w.batches| + |groups|
    && (forall b :: 0 <= b < |w.batches| ==> next.batches[b] == w.batches[b])
    && (forall k :: 0 <= k < |groups| ==>
          groups[k] != [] && next.batches[|w.batches| + k] ==
              Batch(None, Open, Centroid(orders, groups[k]), |groups[k]|))
    && (forall i :: 0 <= i < |w.orders| ==> next.orders[i] == w.orders[i].(batchId := next.orders[i].batchId))
    && (forall i :: 0 <= i < |w.orders| && next.orders[i] != w.orders[i] ==>
          exists k :: 0 <= k < |groups| && i in groups[k])
    && (forall k, i :: 0 <= k < |groups| && i in groups[k] && i < |w.orders| ==>
          next.orders[i].batchId == Some(|w.batches| + k))
  }

  lemma OneMore(w: World, next: World, last: World, orders: seq<Order>, groups: seq<Group>)
    requires groups != [] && groups[0] != [] && next == OpenBatch(w, groups[0], Centroid(orders, groups[0]))
    requires Batched(next, last, orders, groups[1..])
    requires forall a, b, id :: 0 <= a < b < |groups| && id in groups[a] ==> id !in groups[b]
    ensures Batched(w, last, orders, groups)
  {
    hide Centroid, Tag;
    TagRows(w.orders, groups[0], |w.batches|);
    assert forall k :: 1 <= k < |groups| ==> groups[1..][k - 1] == groups[k];
    forall k | 0 <= k < |groups|
      ensures groups[k] != [] && last.batches[|w.batches| + k] ==
              Batch(None, Open, Centroid(orders, groups[k]), |groups[k]|)
    {
      if k > 0 { assert groups[1..][k - 1] == groups[k]; }
    }
    forall k, i | 0 <= k < |groups| && i in groups[k] && i < |w.orders|
      ensures last.orders[i].batchId == Some(|w.batches| + k)
    {
      if k > 0 {
        assert groups[1..][k - 1] == groups[k];
      } else {
        assert forall m :: 0 <= m < |groups[1..]| ==> i !in groups[1..][m];
      }
    }
    forall i | 0 <= i < |w.orders| && last.orders[i] != w.orders[i]
      ensures exists k :: 0 <= k < |groups| && i in groups[k]
    {
      if last.orders[i] != next.orders[i] {
        var m :| 0 <= m < |groups[1..]| && i in groups[1..][m];
        assert i in groups[m + 1];
      } else {
        assert i in groups[0];
      }
    }
  }

  lemma {:induction false} BatchCallsMake(env: Env, w: World, orders: seq<Order>, groups: seq<Group>, now: Time)
    requires forall k :: 0 <= k < |groups| ==> groups[k] != []
    requires forall a, b, id :: 0 <= a < b < |groups| && id in groups[a] ==> id !in groups[b]
    ensures Batched(w, Run(env, w, BatchCalls(orders, groups, now)), orders, groups)
    decreases |groups|
  {
    if groups != [] {
      hide Execute, Apply, Batched;
      var head := BatchCalls(orders, groups, now)[0];
      var next := Apply(env, w, head.tx, now);
      MakeBatchStep(env, w, groups[0], head.tx.centroid, now);
      BatchCallsMake(env, next, orders, groups[1..], now);
      RunHead(env, w, head, BatchCalls(orders, groups[1..], now));
      OneMore(w, next, Run(env, next, BatchCalls(orders, groups[1..], now)), orders, groups);
    }
  }

  // ---------------------------------------------------------------- by the tables

  /** The orders of a batch. */
  ghost function Members(orders: seq<Order>, batch: BatchId): set<OrderId> {
    set id: OrderId | id < |orders| && orders[id].batchId == Some(batch)
  }

  /** A new batch: open, with no rider, its orders counted, its centroid their mean; and its orders are a group. */
  ghost predicate IsNewBatch(env: Env, before: World, after: World, batch: BatchId, group: Group)
    requires batch < |after.batches|
  {
    var row := after.batches[batch];
    && row.rider.None? && row.status == Open && row.orderCount == |group| && IsCentre(after.orders, batch, row.centroid)
    && IsGroup(env, before.orders, group)
    && (forall id: OrderId :: id in Members(after.orders, batch) <==> id in group)
  }

  /** What a clustering does to the tables: every waiting order, and no other, gets a new batch. */
  ghost predicate Clustered(env: Env, before: World, after: World, groups: seq<Group>) {
    var n := |before.batches|;
    && after == before.(orders := after.orders, batches := after.batches)
    && |after.orders| == |before.orders| && |after.batches| == n + |groups| && after.batches[..n] == before.batches
    && (forall i :: 0 <= i < |before.orders| ==>
          if Waits(before.orders[i]) then
            && after.orders[i].batchId.Some? && n <= after.orders[i].batchId.value < |after.batches|
            && after.orders[i] == before.orders[i].(batchId := after.orders[i].batchId)
          else after.orders[i] == before.orders[i])
    && (forall k :: 0 <= k < |groups| ==> IsNewBatch(env, before, after, n + k, groups[k]))
    && (forall a, b :: 0 <= a < b < |groups| ==> LeavesTo(env, before.orders, groups[a], groups[b]))
  }

  /** Every batch id in the orders table is one of the batches table. */
  ghost predicate NoStray(w: World) {
    forall i :: 0 <= i < |w.orders| && w.orders[i].batchId.Some? ==> w.orders[i].batchId.value < |w.batches|
  }

  lemma GroupOf(groups: seq<Group>, id: OrderId) returns (k: nat)
    requires id in Flatten(groups)
    ensures k < |groups| && id in groups[k]
  {
    if id in groups[0] {
      k := 0;
    } else {
      var m := GroupOf(groups[1..], id);
      k := m + 1;
    }
  }

  lemma MembersOfNew(orders: seq<Order>, next: seq<Order>, groups: seq<Group>, n: nat, k: nat)
    requires |next| == |orders| && k < |groups|
    requires forall i :: 0 <= i < |orders| && orders[i].batchId.Some? ==> orders[i].batchId.value < n
    requires forall i :: 0 <= i < |orders| && next[i] != orders[i] ==> exists m :: 0 <= m < |groups| && i in groups[m]
    requires forall m, i :: 0 <= m < |groups| && i in groups[m] && i < |orders| ==> next[i].batchId == Some(n + m)
    ensures forall i :: 0 <= i < |orders| ==> (next[i].batchId == Some(n + k) <==> i in groups[k])
  {
    forall i | 0 <= i < |orders| && next[i].batchId == Some(n + k) ensures i in groups[k] {
      assert next[i] != orders[i];
      var m :| 0 <= m < |groups| && i in groups[m];
      assert next[i].batchId == Some(n + m);
    }
  }

  lemma NewBatch(env: Env, before: World, after: World, groups: seq<Group>, k: nat)
    requires NoStray(before) && Batched(before, after, before.orders, groups) && k < |groups|
    requires forall a, b, id :: 0 <= a < b < |groups| && id in groups[a] ==> id !in groups[b]
    requires IsGroup(env, before.orders, groups[k])
    requires forall id :: id in groups[k] ==> id < |before.orders| && Waits(before.orders[id])
    ensures IsNewBatch(env, before, after, |before.batches| + k, groups[k])
  {
    hide Centroid, IsCentre;
    MembersOfNew(before.orders, after.orders, groups, |before.batches|, k);
    CentroidIsCentre(before.orders, after.orders, groups[k], |before.batches| + k);
    forall id | id in groups[k] ensures id in Members(after.orders, |before.batches| + k) {
    }
  }

  /** An undisturbed clustering comes to that. */
  lemma {:induction false} ClusteringIsExact(env: Env, w: World, now: Time)
    requires NoStray(w)
    ensures Clustered(env, w, Run(env, w, ClusterCalls(env, w, now)), Clusters(env, w.orders))
  {
    hide Execute, Apply, Run, Clusters, Batched, IsGroup, LeavesTo, IsNewBatch, Waits, BatchCalls, NoStray;
    var groups, next := Clusters(env, w.orders), Run(env, w, ClusterCalls(env, w, now));
    ClustersAreExact(env, w.orders);
    DistinctFlatten(groups);
    forall k | 0 <= k < |groups| ensures groups[k] != [] { NoGroupIsEmpty(env, w.orders, groups[k]); }
    BatchCallsMake(env, w, w.orders, groups, now);
    RowsClustered(w, next, groups);
    forall k | 0 <= k < |groups| ensures IsNewBatch(env, w, next, |w.batches| + k, groups[k]) {
      forall id | id in groups[k] ensures id < |w.orders| && Waits(w.orders[id]) { FlattenMembers(groups, k, id); }
      NewBatch(env, w, next, groups, k);
    }
  }

  lemma NoGroupIsEmpty(env: Env, orders: seq<Order>, group: Group)
    requires IsGroup(env, orders, group)
    ensures group != []
  {
  }

  lemma RowsClustered(w: World, next: World, groups: seq<Group>)
    requires Batched(w, next, w.orders, groups)
    requires forall id: OrderId :: id in Flatten(groups) <==> id < |w.orders| && Waits(w.orders[id])
    ensures var n := |w.batches|;
            && next == w.(orders := next.orders, batches := next.batches)
            && |next.orders| == |w.orders| && |next.batches| == n + |groups| && next.batches[..n] == w.batches
            && forall i :: 0 <= i < |w.orders| ==>
                 if Waits(w.orders[i]) then
                   && next.orders[i].batchId.Some? && n <= next.orders[i].batchId.value < |next.batches|
                   && next.orders[i] == w.orders[i].(batchId := next.orders[i].batchId)
                 else next.orders[i] == w.orders[i]
  {
    forall i: OrderId | i < |w.orders|
      ensures if Waits(w.orders[i]) then
                && next.orders[i].batchId.Some? && |w.batches| <= next.orders[i].batchId.value < |next.batches|
              else next.orders[i] == w.orders[i]
    {
      if Waits(w.orders[i]) {
        var k := GroupOf(groups, i);
        assert next.orders[i].batchId == Some(|w.batches| + k);
      } else if next.orders[i] != w.orders[i] {
        var k :| 0 <= k < |groups| && i in groups[k];
        FlattenMembers(groups, k, i);
      }
    }
  }

  // ---------------------------------------------------------------- matching

  /** The rider found gets every free order of the batch, is BUSY if there was one, and the batch is his. */
  ghost predicate GivenTo(before: World, after: World, batch: BatchId, rider: RiderId, now: Time)
    requires batch < |before.batches|
  {
    && rider < |before.riders|
    && after == before.(orders := after.orders, riders := after.riders,
           batches := before.batches[batch := before.batches[batch].(rider := Some(rider), status := Assigned)])
    && |after.orders| == |before.orders|
    && (forall i :: 0 <= i < |before.orders| ==>
          after.orders[i] ==
            if before.orders[i].batchId == Some(batch) && Free(before.orders, i)
            then Taken(before.orders[i], rider, now)
            else before.orders[i])
    && after.riders == Engaged(before.riders, rider,
                               exists i :: 0 <= i < |before.orders| && before.orders[i].batchId == Some(batch)
                                           && Free(before.orders, i))
  }

  /** What one undisturbed round of matching does: the nearest matchable rider gets the batch, or nothing
    * happens. */
  ghost predicate IsMatched(env: Env, before: World, after: World, batch: BatchId, now: Time)
    requires batch < |before.batches|
  {
    exists found ::
      && IsNearest(env, before.riders, before.batches[batch].centroid, found)
      && if found.None? then after == before else GivenTo(before, after, batch, found.value, now)
  }

  lemma {:induction false} MembersDistinct(orders: seq<Order>, batch: BatchId)
    ensures forall id :: id in BatchMembers(orders, batch) ==> id < |orders|
    ensures Ascending(BatchMembers(orders, batch))
  {
    if orders != [] {
      var rest := BatchMembers(orders[..|orders| - 1], batch);
      MembersDistinct(orders[..|orders| - 1], batch);
      assert forall i :: 0 <= i < |rest| ==> rest[i] in rest;
    }
  }

  lemma RoundGives(env: Env, w: World, batch: BatchId, rider: RiderId, now: Time)
    requires batch < |w.batches| && rider < |w.riders| && w.riders[rider].status == Available
    ensures var after := Run(env, w, MatchLoop(env, w, BatchMembers(w.orders, batch), rider, false, now));
            GivenTo(w, Apply(env, after, CloseBatch(batch, rider), now), batch, rider, now)
  {
    hide Execute, Apply, Run, Taken, Free;
    var ids := BatchMembers(w.orders, batch);
    var after := Run(env, w, MatchLoop(env, w, ids, rider, false, now));
    MembersOfBatch(w.orders, batch);
    MembersDistinct(w.orders, batch);
    MatchLoopTakes(env, w, ids, rider, false, now);
    CloseIs(env, after, batch, rider, now);
    var taken := FreeAmong(w.orders, ids);
    forall id: OrderId ensures id in taken <==>
        id < |w.orders| && w.orders[id].batchId == Some(batch) && Free(w.orders, id) {
    }
    if i :| 0 <= i < |w.orders| && w.orders[i].batchId == Some(batch) && Free(w.orders, i) {
      assert i in taken;
    } else {
      assert taken == {};
    }
  }

  /** An undisturbed round of matching comes to that. */
  lemma {:induction false} MatchingIsExact(env: Env, w: World, batch: BatchId, now: Time)
    requires batch < |w.batches| && w.batches[batch].status == Open
    ensures IsMatched(env, w, Run(env, w, MatchCalls(env, w, batch, now)), batch, now)
  {
    hide Execute, Apply, GivenTo, IsNearest;
    var found := Nearest(env, w.riders, w.batches[batch].centroid);
    NearestIsNearest(env, w.riders, w.batches[batch].centroid);
    if found.Some? {
      RoundGives(env, w, batch, found.value, now);
      MatchRound(env, w, batch, found.value, now);
    }
  }

  // ---------------------------------------------------------------- over runs

  /** Every batch's centroid is the mean of its orders. */
  ghost predicate CentresExact(w: World) {
    forall b :: 0 <= b < |w.batches| ==> IsCentre(w.orders, b, w.batches[b].centroid)
  }

  /** The same orders in the same batches at the same places. */
  lemma SameRowsSameCentre(orders: seq<Order>, next: seq<Order>, batch: BatchId, c: Coords)
    requires IsCentre(orders, batch, c) && |next| >= |orders|
    requires forall i :: 0 <= i < |orders| ==>
               && next[i].lat == orders[i].lat && next[i].lng == orders[i].lng
               && (next[i].batchId == Some(batch) <==> orders[i].batchId == Some(batch))
    requires forall i :: |orders| <= i < |next| ==> next[i].batchId != Some(batch)
    ensures IsCentre(next, batch, c)
  {
    RealTotalPadded(orders, next, Off(batch, true, c.lat));
    RealTotalPadded(orders, next, Off(batch, false, c.lng));
  }

  lemma {:induction false} RealTotalPadded(rows: seq<Order>, next: seq<Order>, f: Order -> real)
    requires |next| >= |rows| && forall i :: 0 <= i < |rows| ==> f(next[i]) == f(rows[i])
    requires forall i :: |rows| <= i < |next| ==> f(next[i]) == 0.0
    ensures RealTotal(next, f) == RealTotal(rows, f)
  {
    if |next| == |rows| {
      RealTotalCongruent(rows, next, f);
    } else {
      RealTotalPadded(rows, next[..|next| - 1], f);
    }
  }

  lemma CentroidsStay(env: Env, w: World, tx: Tx, now: Time)
    requires !tx.MakeBatch?
    ensures var next := Apply(env, w, tx, now);
            |next.batches| == |w.batches|
            && forall b :: 0 <= b < |w.batches| ==> next.batches[b].centroid == w.batches[b].centroid
  {
    if !tx.CloseBatch? { BatchesStay(env, w, tx, now); }
  }

  lemma CallKeepsCentres(env: Env, w: World, tx: Tx, now: Time)
    requires CentresExact(w) && !tx.MakeBatch?
    ensures CentresExact(Apply(env, w, tx, now))
  {
    hide Execute, Apply, IsCentre;
    var next := Apply(env, w, tx, now);
    CentroidsStay(env, w, tx, now);
    NewRows(env, w, tx, now);
    forall i | 0 <= i < |w.orders|
      ensures next.orders[i].lat == w.orders[i].lat && next.orders[i].lng == w.orders[i].lng
              && next.orders[i].batchId == w.orders[i].batchId
    {
      RowFrame(env, w, tx, now, i);
    }
    forall b | 0 <= b < |next.batches| ensures IsCentre(next.orders, b, next.batches[b].centroid) {
      SameRowsSameCentre(w.orders, next.orders, b, w.batches[b].centroid);
    }
  }

  lemma {:induction false} CallsKeepCentres(env: Env, w: World, calls: seq<Call>)
    requires CentresExact(w) && forall k :: 0 <= k < |calls| ==> !calls[k].tx.MakeBatch?
    ensures CentresExact(Run(env, w, calls))
  {
    hide Execute, Apply, CentresExact;
    if calls != [] {
      var n := |calls| - 1;
      CallsKeepCentres(env, w, calls[..n]);
      CallKeepsCentres(env, Run(env, w, calls[..n]), calls[n].tx, calls[n].now);
    }
  }

  lemma ClusteringKeepsCentres(env: Env, w: World, next: World, groups: seq<Group>)
    requires CentresExact(w) && NoStray(w) && Clustered(env, w, next, groups)
    ensures CentresExact(next)
  {
    hide IsCentre, IsGroup, LeavesTo;
    var n := |w.batches|;
    forall b | 0 <= b < |next.batches| ensures IsCentre(next.orders, b, next.batches[b].centroid) {
      if b < n {
        assert next.batches[..n][b] == w.batches[b];
        SameRowsSameCentre(w.orders, next.orders, b, w.batches[b].centroid);
      } else {
        assert IsNewBatch(env, w, next, n + (b - n), groups[b - n]);
      }
    }
  }

  lemma {:induction false} JobKeepsCentres(env: Env, w: World, job: Job)
    requires CentresExact(w) && NoStray(w) && Atomic(w, job.op)
    ensures CentresExact(Perform(env, w, job))
  {
    hide Execute, Apply, Run, CentresExact, Clustered;
    match job.op {
      case Direct(tx) => CallsKeepCentres(env, w, [Call(tx, job.now)]);
      case Accept(order, rider) =>
        AcceptCallsAssign(env, w, order, rider, job.now);
        CallsKeepCentres(env, w, AcceptCalls(env, w, order, rider, job.now));
      case ClusterPending =>
        ClusteringIsExact(env, w, job.now);
        ClusteringKeepsCentres(env, w, Perform(env, w, job), Clusters(env, w.orders));
      case MatchBatch(batch) =>
        MatchCallsMakeNone(env, w, batch, job.now);
        CallsKeepCentres(env, w, MatchCalls(env, w, batch, job.now));
    }
  }

  lemma MatchCallsMakeNone(env: Env, w: World, batch: BatchId, now: Time)
    ensures forall k :: 0 <= k < |MatchCalls(env, w, batch, now)| ==> !MatchCalls(env, w, batch, now)[k].tx.MakeBatch?
  {
    hide Execute, Apply;
    if batch < |w.batches| && w.batches[batch].status == Open
       && Nearest(env, w.riders, w.batches[batch].centroid).Some?
    {
      MatchLoopAssigns(env, w, BatchMembers(w.orders, batch), Nearest(env, w.riders, w.batches[batch].centroid).value,
                       false, now);
    }
  }

  /** Over every atomic run the centroid that a batch is matched from is the mean of its orders' coordinates. */
  lemma {:induction false} CentroidsAreMeans(env: Env, w: World, jobs: seq<Job>)
    requires Initial(w) && AtomicRun(env, w, jobs)
    ensures CentresExact(RunJobs(env, w, jobs))
  {
    hide Execute, CentresExact;
    if jobs != [] {
      var n := |jobs| - 1;
      AtomicPrefix(env, w, jobs, n);
      CentroidsAreMeans(env, w, jobs[..n]);
      NoOrderIsStranded(env, w, jobs[..n]);
      JobKeepsCentres(env, RunJobs(env, w, jobs[..n]), jobs[n]);
    } else {
      EmptyIsExact(w);
    }
  }

  lemma EmptyIsExact(w: World)
    requires w.batches == []
    ensures CentresExact(w)
  {
  }
}
