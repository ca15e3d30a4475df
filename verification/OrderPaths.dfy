/** The history of one order: over every run, and over runs in which the order's own status writes are
  * serial, whatever the rest of the system does. */
module OrderPaths {
  import opened Prelude
  import opened Domain
  import opened Lifecycle
  import opened Transactions
  import opened OrderHistory
  import opened RowFrames

  // ---------------------------------------------------------------- over every run

  /** From nothing to PENDING, then legal moves only, the last one to the current status. */
  ghost predicate LegalHistory(o: Order) {
    && 1 <= |o.history|
    && o.history[0].from == None && o.history[0].to == Pending
    && o.history[|o.history| - 1].to == o.status
    && (forall k :: 1 <= k < |o.history| ==>
          o.history[k].from.Some? && Edge(o.history[k].from.value, o.history[k].to))
  }

  /** What `Entered` says after one more entry. */
  lemma EnteredAfter(o: Order, n: Order)
    requires |n.history| == |o.history| + 1 && o.history <= n.history
    ensures forall s :: Entered(n, s) <==> Entered(o, s) || s == n.history[|o.history|].to
  {
    assert Entered(n, n.history[|o.history|].to);
    forall s | Entered(o, s) ensures Entered(n, s) {
      var k :| 0 <= k < |o.history| && o.history[k].to == s;
      assert n.history[k].to == s;
    }
  }

  lemma StatusWriteKeepsRecord(env: Env, w: World, tx: Tx, now: Time)
    requires EntersStatus(tx) && Execute(env, w, tx, now).Done?
    requires tx.order < |w.orders| && LegalHistory(w.orders[tx.order]) && StampsMatch(w.orders[tx.order])
    ensures tx.order < |Apply(env, w, tx, now).orders|
    ensures LegalHistory(Apply(env, w, tx, now).orders[tx.order])
            && StampsMatch(Apply(env, w, tx, now).orders[tx.order])
  {
    hide Execute, Apply;
    StatusWriteRow(env, w, tx, now);
    StatusWriteEntry(env, w, tx, now);
    EnteredAfter(w.orders[tx.order], Apply(env, w, tx, now).orders[tx.order]);
  }

  lemma NewOrderRecord(d: Draft)
    ensures LegalHistory(NewOrder(d)) && StampsMatch(NewOrder(d)) && FaithfulPath(NewOrder(d))
    ensures NewOrder(d).stamps == map[]
  {
    assert NewOrder(d).history[0].to == Pending;
  }

  /** The row of an order before the last call, or its creation. */
  lemma RowBefore(env: Env, w: World, tx: Tx, now: Time, id: OrderId)
    requires id < |Apply(env, w, tx, now).orders|
    ensures id >= |w.orders| ==> tx.CreateOrder? && Apply(env, w, tx, now).orders[id] == NewOrder(tx.draft)
  {
    hide Execute, Apply;
    NewRows(env, w, tx, now);
  }

  lemma KeepsRecord(env: Env, w: World, tx: Tx, now: Time, id: OrderId)
    requires id < |Apply(env, w, tx, now).orders|
    requires id < |w.orders| ==> LegalHistory(w.orders[id]) && StampsMatch(w.orders[id])
    ensures LegalHistory(Apply(env, w, tx, now).orders[id]) && StampsMatch(Apply(env, w, tx, now).orders[id])
  {
    hide Execute, Apply;
    RowBefore(env, w, tx, now, id);
    if id >= |w.orders| {
      NewOrderRecord(tx.draft);
    } else {
      RowFrame(env, w, tx, now, id);
      var o, n := w.orders[id], Apply(env, w, tx, now).orders[id];
      if SameHistory(o, n) {
        assert forall s :: Entered(n, s) <==> Entered(o, s);
      } else {
        StatusWriteKeepsRecord(env, w, tx, now);
      }
    }
  }

  lemma NeverRefunded(o: Order)
    requires LegalHistory(o)
    ensures !Entered(o, Refunded)
  {
    forall k | 0 <= k < |o.history| ensures o.history[k].to != Refunded {
      if k > 0 { EdgesFollowTheChain(o.history[k].from.value, o.history[k].to); }
    }
  }

  /** Over every run, however stale the writers: every history starts at null to PENDING, makes legal
    * moves only, ends at the current status and never reaches REFUNDED; and each of the eight milestone
    * columns is set exactly when the history has its status. */
  lemma {:induction false} HistoryIsLegal(env: Env, w: World, calls: seq<Call>, id: OrderId)
    requires Initial(w) && id < |Run(env, w, calls).orders|
    ensures var o := Run(env, w, calls).orders[id];
            && LegalHistory(o) && !Entered(o, Refunded)
            && (forall s :: s in o.stamps <==>
                  s in {Accepted, RiderAssigned, RiderArrivedPickup, CylinderPickedUp, AtStation, RiderArrivedDelivery,
                        Delivered, Completed} && Entered(o, s))
  {
    hide Execute;
    if calls != [] {
      var n := |calls| - 1;
      if id < |Run(env, w, calls[..n]).orders| { HistoryIsLegal(env, w, calls[..n], id); }
      KeepsRecord(env, Run(env, w, calls[..n]), calls[n].tx, calls[n].now, id);
      NeverRefunded(Run(env, w, calls).orders[id]);
    }
  }

  // ---------------------------------------------------------------- statuses that were really read

  /** The status that a write says it read is one the order has had, however long ago. */
  ghost predicate ReallyRead(w: World, tx: Tx) {
    (tx.UpdateStatus? || tx.ConfirmDelivery? || tx.CancelOrder?) && tx.order < |w.orders| ==>
      Entered(w.orders[tx.order], tx.seen)
  }

  /** Every write of the run acts on a status that its order really had at some time. */
  ghost predicate RealReads(env: Env, w: World, calls: seq<Call>) {
    forall k :: 0 <= k < |calls| ==> ReallyRead(Run(env, w, calls[..k]), calls[k].tx)
  }

  lemma RealReadsPrefix(env: Env, w: World, calls: seq<Call>, n: nat)
    requires RealReads(env, w, calls) && n <= |calls|
    ensures RealReads(env, w, calls[..n])
  {
    hide Execute;
    forall k | 0 <= k < n ensures ReallyRead(Run(env, w, calls[..n][..k]), calls[..n][k].tx) {
      assert calls[..n][..k] == calls[..k];
    }
  }

  /** Every entry leaves a status that an earlier entry entered. */
  ghost predicate Closed(o: Order) {
    forall k :: 1 <= k < |o.history| ==> EnteredBefore(o, k)
  }

  ghost predicate EnteredBefore(o: Order, k: nat)
    requires k < |o.history|
  {
    exists j :: 0 <= j < k && o.history[k].from == Some(o.history[j].to)
  }

  /** Handlers only work on orders that were confirmed. */
  ghost predicate HandledWereConfirmed(w: World) {
    forall i :: 0 <= i < |w.handlers| ==>
      w.handlers[i].order < |w.orders| && Entered(w.orders[w.handlers[i].order], CustomerConfirmed)
  }

  ghost predicate AllClosed(w: World) {
    && (forall i :: 0 <= i < |w.orders| ==>
          LegalHistory(w.orders[i]) && StampsMatch(w.orders[i]) && Closed(w.orders[i]))
    && HandledWereConfirmed(w)
  }

  /** The status that a status write leaves is one the order has had. */
  lemma LeftWasEntered(env: Env, w: World, tx: Tx, now: Time)
    requires AllClosed(w) && ReallyRead(w, tx) && EntersStatus(tx) && Execute(env, w, tx, now).Done?
    ensures tx.order < |w.orders| && tx.order < |Apply(env, w, tx, now).orders|
    ensures var o, n := w.orders[tx.order], Apply(env, w, tx, now).orders[tx.order];
            && |n.history| == |o.history| + 1
            && n.history[|o.history|].from.Some? && Entered(o, n.history[|o.history|].from.value)
  {
    hide IsValidTransition, Transitions, Cancellable, MayWrite, Milestone;
    var o := w.orders[tx.order];
    if tx.AssignRider? {
      assert o.history[|o.history| - 1].to == Preparing;
    } else if tx.BookSettlement? {
      assert w.handlers[tx.handler].order == tx.order;
    }
  }

  lemma StatusWriteKeepsClosed(env: Env, w: World, tx: Tx, now: Time)
    requires AllClosed(w) && ReallyRead(w, tx) && EntersStatus(tx) && Execute(env, w, tx, now).Done?
    ensures tx.order < |Apply(env, w, tx, now).orders| && Closed(Apply(env, w, tx, now).orders[tx.order])
  {
    hide Execute, Apply;
    LeftWasEntered(env, w, tx, now);
    StatusWriteRow(env, w, tx, now);
    var o, n := w.orders[tx.order], Apply(env, w, tx, now).orders[tx.order];
    forall k | 1 <= k < |n.history| ensures EnteredBefore(n, k) {
      if k < |o.history| {
        assert EnteredBefore(o, k);
        var j :| 0 <= j < k && o.history[k].from == Some(o.history[j].to);
        assert n.history[k].from == Some(n.history[j].to);
      } else {
        var j :| 0 <= j < |o.history| && o.history[j].to == n.history[k].from.value;
        assert n.history[k].from == Some(n.history[j].to);
      }
    }
  }

  lemma SameHistoryKeepsClosed(o: Order, n: Order)
    requires Closed(o) && SameHistory(o, n)
    ensures Closed(n)
  {
    forall k | 1 <= k < |n.history| ensures EnteredBefore(n, k) {
      assert EnteredBefore(o, k);
      var j :| 0 <= j < k && o.history[k].from == Some(o.history[j].to);
      assert n.history[k].from == Some(n.history[j].to);
    }
  }

  /** A row's history only grows. */
  lemma HistoryGrows(env: Env, w: World, tx: Tx, now: Time, id: OrderId)
    requires id < |w.orders|
    ensures id < |Apply(env, w, tx, now).orders| && w.orders[id].history <= Apply(env, w, tx, now).orders[id].history
    ensures forall s :: Entered(w.orders[id], s) ==> Entered(Apply(env, w, tx, now).orders[id], s)
  {
    hide Execute, Apply;
    RowFrame(env, w, tx, now, id);
    var o, n := w.orders[id], Apply(env, w, tx, now).orders[id];
    if EntersStatus(tx) && tx.order == id && Execute(env, w, tx, now).Done? { StatusWriteRow(env, w, tx, now); }
    forall s | Entered(o, s) ensures Entered(n, s) {
      var k :| 0 <= k < |o.history| && o.history[k].to == s;
      assert n.history[k].to == s;
    }
  }

  lemma NewHandlersOfConfirmed(env: Env, w: World, tx: Tx, now: Time)
    requires forall i :: 0 <= i < |w.orders| ==> LegalHistory(w.orders[i])
    ensures var next := Apply(env, w, tx, now);
            forall i :: 0 <= i < |next.handlers| ==>
              (i < |w.handlers| && next.handlers[i].order == w.handlers[i].order)
              || (next.handlers[i].order < |w.orders| && Entered(w.orders[next.handlers[i].order], CustomerConfirmed))
  {
    hide Execute, Apply;
    if tx.CommitItem? || tx.BookSettlement? || tx.CreditPayee? {
      HandlersStayPut(env, w, tx, now);
    } else {
      NewHandlers(env, w, tx, now);
      var next := Apply(env, w, tx, now).handlers;
      if next != w.handlers {
        var o := w.orders[tx.order];
        assert o.history[|o.history| - 1].to == CustomerConfirmed;
        assert forall i :: 0 <= i < |w.handlers| ==> next[i] == next[..|w.handlers|][i];
      }
    }
  }

  lemma KeepsHandledConfirmed(env: Env, w: World, tx: Tx, now: Time)
    requires AllClosed(w)
    ensures HandledWereConfirmed(Apply(env, w, tx, now))
  {
    hide Execute, Apply;
    NewHandlersOfConfirmed(env, w, tx, now);
    var next := Apply(env, w, tx, now);
    forall i | 0 <= i < |next.handlers|
      ensures next.handlers[i].order < |next.orders| && Entered(next.orders[next.handlers[i].order], CustomerConfirmed)
    {
      HistoryGrows(env, w, tx, now, next.handlers[i].order);
    }
  }

  lemma RowKeepsClosed(env: Env, w: World, tx: Tx, now: Time, id: OrderId)
    requires AllClosed(w) && ReallyRead(w, tx) && id < |Apply(env, w, tx, now).orders|
    ensures Closed(Apply(env, w, tx, now).orders[id])
  {
    hide Execute, Apply;
    RowBefore(env, w, tx, now, id);
    if id < |w.orders| {
      RowFrame(env, w, tx, now, id);
      if SameHistory(w.orders[id], Apply(env, w, tx, now).orders[id]) {
        SameHistoryKeepsClosed(w.orders[id], Apply(env, w, tx, now).orders[id]);
      } else {
        StatusWriteKeepsClosed(env, w, tx, now);
      }
    }
  }

  lemma KeepsAllClosed(env: Env, w: World, tx: Tx, now: Time)
    requires AllClosed(w) && ReallyRead(w, tx)
    ensures AllClosed(Apply(env, w, tx, now))
  {
    hide Execute, Apply, ReallyRead;
    KeepsHandledConfirmed(env, w, tx, now);
    forall id: OrderId | id < |Apply(env, w, tx, now).orders|
      ensures var n := Apply(env, w, tx, now).orders[id]; LegalHistory(n) && StampsMatch(n) && Closed(n)
    {
      KeepsRecord(env, w, tx, now, id);
      RowKeepsClosed(env, w, tx, now, id);
    }
  }

  lemma {:induction false} ClosedOverRuns(env: Env, w: World, calls: seq<Call>)
    requires Initial(w) && RealReads(env, w, calls)
    ensures AllClosed(Run(env, w, calls))
  {
    hide Execute, ReallyRead;
    if calls != [] {
      var n := |calls| - 1;
      RealReadsPrefix(env, w, calls, n);
      ClosedOverRuns(env, w, calls[..n]);
      KeepsAllClosed(env, Run(env, w, calls[..n]), calls[n].tx, calls[n].now);
    }
  }

  /** A status of the main chain. */
  predicate OnChain(s: Status) {
    s != Cancelled && s != Refunded
  }

  /** From any status entered, the history leads back through every status of the chain before it. */
  lemma {:induction false} EveryEarlierStatus(o: Order, s: Status, t: Status)
    requires LegalHistory(o) && Closed(o) && Entered(o, s) && OnChain(s) && OnChain(t) && Rank(t) <= Rank(s)
    ensures Entered(o, t)
    decreases Rank(s)
  {
    if Rank(t) < Rank(s) {
      var k :| 0 <= k < |o.history| && o.history[k].to == s;
      EdgesFollowTheChain(o.history[k].from.value, s);
      assert EnteredBefore(o, k);
      var j :| 0 <= j < k && o.history[k].from == Some(o.history[j].to);
      assert Entered(o, o.history[j].to);
      EveryEarlierStatus(o, o.history[j].to, t);
    }
  }

  // ---------------------------------------------------------------- the order's own writes serial

  /** The status writes of this one order are serial. */
  ghost predicate SerialFor(env: Env, w: World, calls: seq<Call>, id: OrderId) {
    forall k :: 0 <= k < |calls| && EntersStatus(calls[k].tx) && calls[k].tx.order == id ==>
      Serial(Run(env, w, calls[..k]), calls[k].tx)
  }

  lemma SerialForPrefix(env: Env, w: World, calls: seq<Call>, id: OrderId, n: nat)
    requires SerialFor(env, w, calls, id) && n <= |calls|
    ensures SerialFor(env, w, calls[..n], id)
  {
    hide Execute, Serial;
    forall k | 0 <= k < n && EntersStatus(calls[..n][k].tx) && calls[..n][k].tx.order == id
      ensures Serial(Run(env, w, calls[..n][..k]), calls[..n][k].tx)
    {
      assert calls[..n][..k] == calls[..k];
    }
  }

  lemma KeepsPath(env: Env, w: World, tx: Tx, now: Time, id: OrderId)
    requires id < |Apply(env, w, tx, now).orders| && (id < |w.orders| ==> FaithfulPath(w.orders[id]))
    requires EntersStatus(tx) && tx.order == id ==> Serial(w, tx)
    ensures FaithfulPath(Apply(env, w, tx, now).orders[id])
  {
    hide Execute, Apply, Serial;
    RowBefore(env, w, tx, now, id);
    if id >= |w.orders| {
      NewOrderRecord(tx.draft);
    } else {
      RowFrame(env, w, tx, now, id);
      if !SameHistory(w.orders[id], Apply(env, w, tx, now).orders[id]) {
        StatusWriteMovesOneRow(env, w, tx, now);
        MoveKeepsPath(w.orders[id], Apply(env, w, tx, now).orders[id], now);
      }
    }
  }

  lemma {:induction false} PathOverRuns(env: Env, w: World, calls: seq<Call>, id: OrderId)
    requires Initial(w) && SerialFor(env, w, calls, id) && id < |Run(env, w, calls).orders|
    ensures FaithfulPath(Run(env, w, calls).orders[id])
  {
    hide Execute, Serial;
    if calls != [] {
      var n := |calls| - 1;
      SerialForPrefix(env, w, calls, id, n);
      if id < |Run(env, w, calls[..n]).orders| { PathOverRuns(env, w, calls[..n], id); }
      KeepsPath(env, Run(env, w, calls[..n]), calls[n].tx, calls[n].now, id);
    }
  }

  /** Over all six status writers, when those of this order are serial: its history chains, its rank
    * grows, so it has at most fifteen entries and never reaches CANCELLED once the cylinder was picked
    * up. */
  lemma {:induction false} HistoryIsFaithful(env: Env, w: World, calls: seq<Call>, id: OrderId)
    requires Initial(w) && SerialFor(env, w, calls, id) && id < |Run(env, w, calls).orders|
    ensures var o := Run(env, w, calls).orders[id];
            && FaithfulPath(o)
            && (forall j, k :: 0 <= j < k < |o.history| ==> Rank(o.history[j].to) < Rank(o.history[k].to))
            && |o.history| <= 15
            && !(Entered(o, CylinderPickedUp) && Entered(o, Cancelled))
  {
    hide Execute, Serial;
    PathOverRuns(env, w, calls, id);
    RanksGrow(Run(env, w, calls).orders[id]);
    NeverRefundedNorLateCancelled(Run(env, w, calls).orders[id]);
  }

  // ---------------------------------------------------------------- milestone times

  lemma KeepsTimes(env: Env, w: World, tx: Tx, now: Time, id: OrderId, clock: Time)
    requires id < |Apply(env, w, tx, now).orders| && clock <= now
    requires id < |w.orders| ==>
               FaithfulPath(w.orders[id]) && StampsMatch(w.orders[id]) && TimesOrdered(w.orders[id], clock)
    requires EntersStatus(tx) && tx.order == id ==> Serial(w, tx)
    ensures TimesOrdered(Apply(env, w, tx, now).orders[id], now)
  {
    hide Execute, Apply, Serial;
    RowBefore(env, w, tx, now, id);
    if id < |w.orders| {
      RowFrame(env, w, tx, now, id);
      if !SameHistory(w.orders[id], Apply(env, w, tx, now).orders[id]) {
        StatusWriteMovesOneRow(env, w, tx, now);
        MoveKeepsTimes(w.orders[id], Apply(env, w, tx, now).orders[id], now, clock);
      }
    }
  }

  /** When the order's own status writes are serial and the clock never goes back, later milestones never
    * carry earlier times. */
  lemma {:induction false} MilestonesAreOrdered(env: Env, w: World, calls: seq<Call>, id: OrderId)
    requires Initial(w) && SerialFor(env, w, calls, id) && MonotoneClock(calls)
    requires id < |Run(env, w, calls).orders|
    ensures calls != [] && TimesOrdered(Run(env, w, calls).orders[id], calls[|calls| - 1].now)
  {
    hide Execute, Serial;
    if calls != [] {
      var n := |calls| - 1;
      SerialForPrefix(env, w, calls, id, n);
      if id < |Run(env, w, calls[..n]).orders| {
        MilestonesAreOrdered(env, w, calls[..n], id);
        PathOverRuns(env, w, calls[..n], id);
        HistoryIsLegal(env, w, calls[..n], id);
      }
      var clock := if n == 0 then calls[n].now else calls[n - 1].now;
      KeepsTimes(env, Run(env, w, calls[..n]), calls[n].tx, calls[n].now, id, clock);
    }
  }
}
