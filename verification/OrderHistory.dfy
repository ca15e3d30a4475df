/** Status history and row consistency of every order: what a serial transaction keeps. */
module OrderHistory {
  import opened Prelude
  import opened Domain
  import opened Lifecycle
  import opened Transactions

  /** Occurs in the history as a status entered. */
  ghost predicate Entered(o: Order, s: Status) {
    exists k :: 0 <= k < |o.history| && o.history[k].to == s
  }

  /** The history is a path of legal moves from nothing to the current status, and its k-th
    * entry enters the k-th status of the lifecycle unless it is the final cancellation. */
  ghost predicate FaithfulPath(o: Order) {
    && 1 <= |o.history|
    && o.history[0].from == None && o.history[0].to == Pending
    && o.history[|o.history| - 1].to == o.status
    && (forall k :: 1 <= k < |o.history| ==>
          o.history[k].from == Some(o.history[k - 1].to) && Edge(o.history[k - 1].to, o.history[k].to))
    && (forall k :: 0 <= k < |o.history| ==>
          Rank(o.history[k].to) == k || (k == |o.history| - 1 && o.status == Cancelled && k < 7))
  }

  /** The eight milestone columns are set exactly for the milestones entered. */
  ghost predicate StampsMatch(o: Order) {
    forall s :: s in o.stamps <==> Milestone(s) && Entered(o, s)
  }

  /** What the other columns say about how far the order has come. */
  ghost predicate ColumnsAgree(o: Order) {
    && (o.riderId.Some? ==> |o.history| >= 5)
    && (o.batchId.Some? ==> |o.history| >= 4)
    && (o.cancellationReason.Some? ==> o.status == Cancelled)
  }

  ghost predicate Sound(o: Order) {
    FaithfulPath(o) && StampsMatch(o) && ColumnsAgree(o)
  }

  ghost predicate AllSound(w: World) {
    forall i :: 0 <= i < |w.orders| ==> Sound(w.orders[i])
  }

  lemma AdvanceExtendsPath(o: Order, to: Status, actor: Option<UserId>, now: Time)
    requires FaithfulPath(o) && Edge(o.status, to)
    ensures FaithfulPath(Advance(o, o.status, to, actor, now))
  {
    EdgesFollowTheChain(o.status, to);
    assert o.history[|o.history| - 1].to == o.status;
    assert Rank(o.status) == |o.history| - 1;
  }

  lemma AdvanceEnters(o: Order, to: Status, actor: Option<UserId>, now: Time)
    ensures forall s :: Entered(Advance(o, o.status, to, actor, now), s) <==> Entered(o, s) || s == to
  {
    var next := Advance(o, o.status, to, actor, now);
    assert next.history[|o.history|].to == to;
    forall s | Entered(o, s) ensures Entered(next, s) {
      var k :| 0 <= k < |o.history| && o.history[k].to == s;
      assert next.history[k].to == s;
    }
  }

  lemma AdvanceKeepsSound(o: Order, to: Status, actor: Option<UserId>, now: Time)
    requires FaithfulPath(o) && StampsMatch(o) && Edge(o.status, to)
    ensures FaithfulPath(Advance(o, o.status, to, actor, now))
    ensures StampsMatch(Advance(o, o.status, to, actor, now))
  {
    AdvanceExtendsPath(o, to, actor, now);
    AdvanceEnters(o, to, actor, now);
  }

  /** A new status whose entry count fits it: what the guards on the columns need. */
  lemma EntryCountUnlessCancelled(o: Order)
    requires FaithfulPath(o)
    ensures o.status != Cancelled ==> |o.history| == Rank(o.status) + 1
    ensures o.status == Cancelled ==> |o.history| <= 8
  {
  }

  lemma {:induction false} TagRows(orders: seq<Order>, group: seq<OrderId>, batch: BatchId)
    ensures forall i :: 0 <= i < |orders| ==>
      Tag(orders, group, batch)[i] == if i in group then orders[i].(batchId := Some(batch)) else orders[i]
  {
    if group != [] {
      var n := |group| - 1;
      TagRows(orders, group[..n], batch);
      assert group == group[..n] + [group[n]];
    }
  }

  /** A row whose status, history and milestone times are as before. */
  ghost predicate SameHistory(o: Order, next: Order) {
    next.status == o.status && next.history == o.history && next.stamps == o.stamps
  }

  lemma SameHistoryKeepsPath(o: Order, next: Order)
    requires SameHistory(o, next) && FaithfulPath(o) && StampsMatch(o)
    ensures FaithfulPath(next) && StampsMatch(next)
  {
    assert forall s :: Entered(next, s) <==> Entered(o, s);
  }

  /** One status write on one row, by whichever writer. */
  ghost predicate Moved(o: Order, next: Order, now: Time) {
    && |next.history| == |o.history| + 1
    && Edge(o.status, next.status)
    && SameHistory(Advance(o, o.status, next.status, next.history[|o.history|].changedBy, now), next)
    && next.items == o.items && next.batchId == o.batchId
    && (next.riderId == o.riderId || (o.riderId.None? && next.status == RiderAssigned))
    && (next.cancellationReason == o.cancellationReason || next.status == Cancelled)
  }

  /** The only row that a serial status write touches makes one legal move. */
  lemma StatusWriteMovesOneRow(env: Env, w: World, tx: Tx, now: Time)
    requires Serial(w, tx) && EntersStatus(tx) && Execute(env, w, tx, now).Done?
    ensures tx.order < |w.orders| == |Apply(env, w, tx, now).orders|
    ensures Apply(env, w, tx, now).orders == w.orders[tx.order := Apply(env, w, tx, now).orders[tx.order]]
    ensures Moved(w.orders[tx.order], Apply(env, w, tx, now).orders[tx.order], now)
  {
    hide IsValidTransition, Cancellable, MayWrite, Milestone;
    FixedEdges();
  }

  lemma {:induction false} MoveKeepsSound(o: Order, next: Order, now: Time)
    requires Sound(o) && Moved(o, next, now)
    ensures Sound(next)
  {
    EntryCountUnlessCancelled(o);
    EdgesFollowTheChain(o.status, next.status);
    var actor := next.history[|o.history|].changedBy;
    AdvanceKeepsSound(o, next.status, actor, now);
    SameHistoryKeepsPath(Advance(o, o.status, next.status, actor, now), next);
  }

  lemma {:induction false} StatusWritersKeepSound(env: Env, w: World, tx: Tx, now: Time)
    requires AllSound(w) && Serial(w, tx) && EntersStatus(tx) && Execute(env, w, tx, now).Done?
    ensures AllSound(Apply(env, w, tx, now))
  {
    StatusWriteMovesOneRow(env, w, tx, now);
    MoveKeepsSound(w.orders[tx.order], Apply(env, w, tx, now).orders[tx.order], now);
  }

  lemma BatchingKeepsSound(w: World, group: seq<OrderId>, centroid: Coords)
    requires AllSound(w) && FreshGroup(w, group)
    ensures AllSound(OpenBatch(w, group, centroid))
  {
    var next := OpenBatch(w, group, centroid);
    TagRows(w.orders, group, |w.batches|);
    forall i | 0 <= i < |next.orders| ensures Sound(next.orders[i]) {
      SameHistoryKeepsPath(w.orders[i], next.orders[i]);
      if i in group { EntryCountUnlessCancelled(w.orders[i]); }
    }
  }

  lemma PaymentKeepsSound(w: World, d: nat)
    requires AllSound(w) && Add(w, d).Done?
    ensures AllSound(Add(w, d).world)
  {
    hide Execute;
    var next := Add(w, d).world;
    forall i | 0 <= i < |next.orders| ensures Sound(next.orders[i]) {
      SameHistoryKeepsPath(w.orders[i], next.orders[i]);
    }
  }

  lemma NewOrderIsSound(w: World, d: Draft)
    requires AllSound(w) && PlaceOrder(w, d).Done?
    ensures AllSound(PlaceOrder(w, d).world)
  {
    var o := NewOrder(d);
    assert o.history[0].to == Pending;
    assert Sound(o);
  }

  lemma {:induction false} KeepsSound(env: Env, w: World, tx: Tx, now: Time)
    requires AllSound(w) && Serial(w, tx)
    ensures AllSound(Apply(env, w, tx, now))
  {
    if LeavesOrders(tx) {
      OrdersLeft(env, w, tx, now);
    } else if Execute(env, w, tx, now).Done? {
      if EntersStatus(tx) {
        StatusWritersKeepSound(env, w, tx, now);
      } else if tx.CreateOrder? {
        NewOrderIsSound(w, tx.draft);
      } else if tx.MakeBatch? {
        BatchingKeepsSound(w, tx.group, tx.centroid);
      } else {
        PaymentKeepsSound(w, tx.delivery);
      }
    }
  }

  lemma {:induction false} SoundOverRuns(env: Env, w: World, calls: seq<Call>)
    requires Initial(w) && SerialRun(env, w, calls)
    ensures AllSound(Run(env, w, calls))
  {
    hide Execute;
    if calls != [] {
      var n := |calls| - 1;
      SerialPrefix(env, w, calls, n);
      SoundOverRuns(env, w, calls[..n]);
      KeepsSound(env, Run(env, w, calls[..n]), calls[n].tx, calls[n].now);
    }
  }

  lemma RanksGrow(o: Order)
    requires FaithfulPath(o)
    ensures forall j, k :: 0 <= j < k < |o.history| ==> Rank(o.history[j].to) < Rank(o.history[k].to)
    ensures |o.history| <= 15
  {
    var n := |o.history|;
    if n > 1 {
      assert o.history[n - 1].from == Some(o.history[n - 2].to);
      EdgesFollowTheChain(o.history[n - 2].to, o.history[n - 1].to);
      assert Rank(o.history[n - 2].to) == n - 2;
    }
  }

  lemma NeverRefundedNorLateCancelled(o: Order)
    requires FaithfulPath(o)
    ensures !Entered(o, Refunded)
    ensures !(Entered(o, CylinderPickedUp) && Entered(o, Cancelled))
  {
    RanksGrow(o);
    if Entered(o, Refunded) {
      var k :| 0 <= k < |o.history| && o.history[k].to == Refunded;
      EdgesFollowTheChain(o.history[k - 1].to, o.history[k].to);
    }
  }

  lemma MoveKeepsPath(o: Order, next: Order, now: Time)
    requires FaithfulPath(o) && Moved(o, next, now)
    ensures FaithfulPath(next)
  {
    AdvanceExtendsPath(o, next.status, next.history[|o.history|].changedBy, now);
  }

  /** The status writers check nothing when they write: the path survives a status write exactly when
    * the status that the writer read is still there. */
  lemma {:induction false} PathSurvivesIff(env: Env, w: World, tx: Tx, now: Time)
    requires EntersStatus(tx) && Execute(env, w, tx, now).Done?
    requires tx.order < |w.orders| && FaithfulPath(w.orders[tx.order])
    ensures tx.order < |Apply(env, w, tx, now).orders|
    ensures FaithfulPath(Apply(env, w, tx, now).orders[tx.order]) <==> Serial(w, tx)
  {
    hide Execute;
    if Serial(w, tx) {
      StatusWriteMovesOneRow(env, w, tx, now);
      MoveKeepsPath(w.orders[tx.order], Apply(env, w, tx, now).orders[tx.order], now);
    } else {
      StaleWriteBreaksChain(env, w, tx, now);
    }
  }

  lemma StaleWriteBreaksChain(env: Env, w: World, tx: Tx, now: Time)
    requires EntersStatus(tx) && !Serial(w, tx) && Execute(env, w, tx, now).Done?
    requires tx.order < |w.orders| && FaithfulPath(w.orders[tx.order])
    ensures tx.order < |Apply(env, w, tx, now).orders|
    ensures !FaithfulPath(Apply(env, w, tx, now).orders[tx.order])
  {
    var o, next := w.orders[tx.order], Apply(env, w, tx, now).orders[tx.order];
    var n := |o.history|;
    assert next.history[..n] == o.history && next.history[n].from != Some(o.status);
    assert next.history[n - 1] == o.history[n - 1];
  }

  // ---------------------------------------------------------------- milestone times

  /** With `clock` not before any stamp: milestone times follow the lifecycle order. */
  ghost predicate TimesOrdered(o: Order, clock: Time) {
    && (forall s :: s in o.stamps ==> o.stamps[s] <= clock)
    && (forall a, b :: a in o.stamps && b in o.stamps && Rank(a) <= Rank(b) ==> o.stamps[a] <= o.stamps[b])
  }

  lemma StampedRanks(o: Order)
    requires FaithfulPath(o) && StampsMatch(o) && o.status != Cancelled
    ensures forall s :: s in o.stamps ==> Rank(s) <= Rank(o.status)
  {
    forall s | s in o.stamps ensures Rank(s) <= Rank(o.status) {
      var k :| 0 <= k < |o.history| && o.history[k].to == s;
    }
  }

  lemma {:induction false} AdvanceKeepsTimes(o: Order, to: Status, actor: Option<UserId>, now: Time, clock: Time)
    requires FaithfulPath(o) && StampsMatch(o) && Edge(o.status, to)
    requires TimesOrdered(o, clock) && clock <= now
    ensures TimesOrdered(Advance(o, o.status, to, actor, now), now)
  {
    hide Execute;
    EdgesFollowTheChain(o.status, to);
    StampedRanks(o);
  }

  lemma MoveKeepsTimes(o: Order, next: Order, now: Time, clock: Time)
    requires FaithfulPath(o) && StampsMatch(o) && Moved(o, next, now) && TimesOrdered(o, clock) && clock <= now
    ensures TimesOrdered(next, now)
  {
    AdvanceKeepsTimes(o, next.status, next.history[|o.history|].changedBy, now, clock);
  }

  /** The clock of a run never goes back. */
  ghost predicate MonotoneClock(calls: seq<Call>) {
    forall j, k :: 0 <= j < k < |calls| ==> calls[j].now <= calls[k].now
  }
}
