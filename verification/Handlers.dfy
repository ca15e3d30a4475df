/** The executions of `settle`: what each may be, how many an order gets, and exactly when it gets a second
  * one. */
module Handlers {
  import opened Prelude
  import opened Domain
  import opened Transactions
  import opened OrderHistory
  import opened RowFrames
  import opened OrderPaths

  /** A handler works on its own order's station and items. */
  ghost predicate HandlerFits(w: World, h: Handler) {
    && h.order < |w.orders|
    && h.station == w.orders[h.order].station && h.items == w.orders[h.order].items
    && h.done <= |h.items| && (h.stage.Booked? ==> h.done == |h.items|) && (h.credited ==> h.stage.Booked?)
  }

  ghost predicate HandlersFit(w: World) {
    forall i :: 0 <= i < |w.handlers| ==> HandlerFits(w, w.handlers[i])
  }

  /** The transactions of `settle`. */
  predicate StepsHandler(tx: Tx) {
    tx.LoadSettlement? || tx.CommitItem? || tx.BookSettlement? || tx.CreditPayee?
  }

  lemma HandlersLeft(env: Env, w: World, tx: Tx, now: Time)
    requires !StepsHandler(tx)
    ensures Apply(env, w, tx, now).handlers == w.handlers
  {
    hide Execute, Apply;
    Frames(env, w, tx, now);
  }

  /** One step of one handler: what it read stays, its progress only grows. */
  ghost predicate HandlerGrows(h: Handler, n: Handler) {
    && n.order == h.order && n.station == h.station && n.items == h.items
    && n.split == h.split && n.total == h.total && n.payee == h.payee
    && h.done <= n.done && (!h.stage.Committing? ==> n.stage == h.stage && n.done == h.done)
    && (h.credited ==> n.credited)
  }

  lemma HandlerStep(env: Env, w: World, tx: Tx, now: Time, i: nat)
    requires i < |w.handlers|
    ensures i < |Apply(env, w, tx, now).handlers|
    ensures HandlerGrows(w.handlers[i], Apply(env, w, tx, now).handlers[i])
  {
    if !StepsHandler(tx) {
      hide Execute, Apply;
      HandlersLeft(env, w, tx, now);
    } else {
      StepGrows(env, w, tx, now, i);
    }
  }

  lemma StepGrows(env: Env, w: World, tx: Tx, now: Time, i: nat)
    requires i < |w.handlers| && StepsHandler(tx)
    ensures i < |Apply(env, w, tx, now).handlers|
    ensures HandlerGrows(w.handlers[i], Apply(env, w, tx, now).handlers[i])
  {
    hide CreditTo, AddRevenue;
  }

  lemma KeepsHandlersFit(env: Env, w: World, tx: Tx, now: Time)
    requires HandlersFit(w)
    ensures HandlersFit(Apply(env, w, tx, now))
  {
    var next := Apply(env, w, tx, now);
    NewRows(env, w, tx, now);
    forall i | 0 <= i < |w.handlers| ensures HandlerFits(next, w.handlers[i]) {
      RowFrame(env, w, tx, now, w.handlers[i].order);
    }
    if !StepsHandler(tx) {
      HandlersLeft(env, w, tx, now);
    } else {
      StepsFit(env, w, tx, now);
    }
  }

  lemma StepsFit(env: Env, w: World, tx: Tx, now: Time)
    requires StepsHandler(tx) && HandlersFit(w)
    requires forall i :: 0 <= i < |w.handlers| ==> HandlerFits(Apply(env, w, tx, now), w.handlers[i])
    ensures HandlersFit(Apply(env, w, tx, now))
  {
  }

  /** Over every run a handler's order, station and items are its order's. */
  lemma {:induction false} HandlersFitOverRuns(env: Env, w: World, calls: seq<Call>)
    requires Initial(w)
    ensures HandlersFit(Run(env, w, calls))
  {
    hide Execute;
    if calls != [] {
      var n := |calls| - 1;
      HandlersFitOverRuns(env, w, calls[..n]);
      KeepsHandlersFit(env, Run(env, w, calls[..n]), calls[n].tx, calls[n].now);
    }
  }

  // ---------------------------------------------------------------- how often an order is confirmed

  lemma {:induction false} ConfirmationsOfPrefix(o: Order, k: nat)
    requires FaithfulPath(o) && k <= |o.history|
    ensures Confirmations(o.history[..k]) == if k > 13 then 1 else 0
  {
    if k > 0 {
      ConfirmationsOfPrefix(o, k - 1);
      assert o.history[..k][..k - 1] == o.history[..k - 1];
    }
  }

  /** A faithful history has one confirmation from CUSTOMER_CONFIRMED on, and none before. */
  lemma ConfirmationsOfPath(o: Order)
    requires FaithfulPath(o)
    ensures Confirmations(o.history) == if o.status == CustomerConfirmed || o.status == Completed then 1 else 0
  {
    ConfirmationsOfPrefix(o, |o.history|);
    assert o.history[..|o.history|] == o.history;
    EntryCountUnlessCancelled(o);
  }

  /** The writes that enter CUSTOMER_CONFIRMED and emit its event. */
  predicate Confirms(tx: Tx) {
    tx.ConfirmDelivery? || (tx.UpdateStatus? && tx.to == CustomerConfirmed)
  }

  lemma StatusWriteCounts(env: Env, w: World, tx: Tx, now: Time)
    requires EntersStatus(tx) && Execute(env, w, tx, now).Done?
    ensures tx.order < |w.orders| == |Apply(env, w, tx, now).orders|
    ensures Confirmations(Apply(env, w, tx, now).orders[tx.order].history) ==
            Confirmations(w.orders[tx.order].history) + (if Confirms(tx) then 1 else 0)
  {
    StatusWriteRow(env, w, tx, now);
    var o, n := w.orders[tx.order], Apply(env, w, tx, now).orders[tx.order];
    assert n.history[..|o.history|] == o.history;
  }

  /** The other transactions confirm nothing. */
  lemma ConfirmationsStay(env: Env, w: World, tx: Tx, now: Time, id: OrderId)
    requires id < |w.orders|
    ensures id < |Apply(env, w, tx, now).orders|
    ensures Confirmations(Apply(env, w, tx, now).orders[id].history) ==
            Confirmations(w.orders[id].history)
            + (if Confirms(tx) && tx.order == id && Execute(env, w, tx, now).Done? then 1 else 0)
  {
    hide Execute;
    RowFrame(env, w, tx, now, id);
    if EntersStatus(tx) && Execute(env, w, tx, now).Done? {
      StatusWriteCounts(env, w, tx, now);
      StatusWriteRow(env, w, tx, now);
    }
  }

  /** What `confirmDelivery` and `updateStatus` test before they write CUSTOMER_CONFIRMED: the customer, the
    * status that was read, and the code; or the status that was read. Not what the status is. */
  predicate MayConfirm(w: World, tx: Tx, id: OrderId)
    requires id < |w.orders|
  {
    match tx
    case ConfirmDelivery(order, seen, user, code) =>
      order == id && user == w.orders[id].customer && seen == Delivered && code == w.orders[id].otp
    case UpdateStatus(order, seen, to, _, _) => order == id && seen == Delivered && to == CustomerConfirmed
    case _ => false
  }

  lemma GuardsConfirm(env: Env, w: World, tx: Tx, now: Time, id: OrderId)
    requires id < |w.orders|
    ensures MayConfirm(w, tx, id) <==> Confirms(tx) && tx.order == id && Execute(env, w, tx, now).Done?
  {
  }

  /** In any database a confirmed order is confirmed again, and its event emitted again, exactly when the
    * writer passes the guards of `confirmDelivery` or `updateStatus`; and on a faithful history it then acts
    * on a stale read. */
  lemma {:induction false} ConfirmedAgainIff(env: Env, w: World, tx: Tx, now: Time, id: OrderId)
    requires id < |w.orders| && Confirmations(w.orders[id].history) >= 1
    ensures id < |Apply(env, w, tx, now).orders|
    ensures Confirmations(Apply(env, w, tx, now).orders[id].history) > Confirmations(w.orders[id].history)
            <==> MayConfirm(w, tx, id)
    ensures FaithfulPath(w.orders[id]) && MayConfirm(w, tx, id) ==> !Serial(w, tx)
  {
    hide Execute, Apply;
    ConfirmationsStay(env, w, tx, now, id);
    GuardsConfirm(env, w, tx, now, id);
    if FaithfulPath(w.orders[id]) { ConfirmationsOfPath(w.orders[id]); }
  }

  // ---------------------------------------------------------------- as many handlers as events

  /** The confirmation events of an order so far. */
  function EventsOf(w: World, id: OrderId): nat {
    if id < |w.orders| then Confirmations(w.orders[id].history) else 0
  }

  lemma LoadAdds(env: Env, w: World, tx: Tx, now: Time)
    requires tx.LoadSettlement?
    ensures var next := Apply(env, w, tx, now).handlers;
            if Execute(env, w, tx, now).Done? then
              |next| == |w.handlers| + 1 && next == w.handlers + [next[|w.handlers|]]
              && next[|w.handlers|].order == tx.order && next[|w.handlers|].stage.Committing?
              && tx.order < |w.orders| && w.orders[tx.order].status == CustomerConfirmed
            else next == w.handlers
  {
  }

  lemma HandlerCountStep(env: Env, w: World, tx: Tx, now: Time, id: OrderId)
    ensures Total(Apply(env, w, tx, now).handlers, HandlerOf(id)) ==
            Total(w.handlers, HandlerOf(id))
            + (if tx.LoadSettlement? && tx.order == id && Execute(env, w, tx, now).Done? then 1 else 0)
  {
    hide Execute, Apply;
    var next := Apply(env, w, tx, now).handlers;
    if !StepsHandler(tx) {
      HandlersLeft(env, w, tx, now);
    } else if tx.LoadSettlement? {
      LoadAdds(env, w, tx, now);
      if next != w.handlers { TotalAppend(w.handlers, next[|w.handlers|], HandlerOf(id)); }
    } else {
      HandlersStayPut(env, w, tx, now);
      TotalCongruent(w.handlers, next, HandlerOf(id));
    }
  }

  lemma EventsStep(env: Env, w: World, tx: Tx, now: Time, id: OrderId)
    ensures EventsOf(Apply(env, w, tx, now), id) >= EventsOf(w, id)
    ensures tx.LoadSettlement? ==> EventsOf(Apply(env, w, tx, now), id) == EventsOf(w, id)
  {
    hide Execute, Apply;
    if id < |w.orders| {
      ConfirmationsStay(env, w, tx, now, id);
    } else if tx.LoadSettlement? {
      OrdersLeft(env, w, tx, now);
    }
  }

  /** `settle` of this order starts although each of its events has started one. */
  predicate Oversettles(w: World, tx: Tx, id: OrderId) {
    && tx.LoadSettlement? && tx.order == id
    && id < |w.orders| && w.orders[id].status == CustomerConfirmed && !EventLeft(w, id)
  }

  /** In any database with no more handlers of an order than events: a transaction leaves it so exactly when
    * it does not start `settle` with no event left. */
  lemma {:induction false} EventBoundSurvivesIff(env: Env, w: World, tx: Tx, now: Time, id: OrderId)
    requires Total(w.handlers, HandlerOf(id)) <= EventsOf(w, id)
    ensures Total(Apply(env, w, tx, now).handlers, HandlerOf(id)) <= EventsOf(Apply(env, w, tx, now), id)
            <==> !Oversettles(w, tx, id)
  {
    hide Apply, Confirmations;
    HandlerCountStep(env, w, tx, now, id);
    EventsStep(env, w, tx, now, id);
    assert tx.LoadSettlement? ==>
        (Execute(env, w, tx, now).Done? <==> tx.order < |w.orders| && w.orders[tx.order].status == CustomerConfirmed);
  }

  /** In any database: `settle` starts on any order that is CUSTOMER_CONFIRMED, whatever was settled before;
    * so an order with one handler gets its second exactly when `settle` runs on it while its status is
    * CUSTOMER_CONFIRMED. */
  lemma {:induction false} SecondHandlerIff(env: Env, w: World, tx: Tx, now: Time, id: OrderId)
    requires Total(w.handlers, HandlerOf(id)) == 1
    ensures Total(Apply(env, w, tx, now).handlers, HandlerOf(id)) > 1 <==>
            tx.LoadSettlement? && tx.order == id && id < |w.orders| && w.orders[id].status == CustomerConfirmed
  {
    HandlerCountStep(env, w, tx, now, id);
  }

  /** Every `settle` of this order that starts is for an event that had started none. */
  ghost predicate OneLoadPerEvent(env: Env, w: World, calls: seq<Call>, id: OrderId) {
    forall k :: 0 <= k < |calls| ==> !Oversettles(Run(env, w, calls[..k]), calls[k].tx, id)
  }

  lemma OneLoadPerEventPrefix(env: Env, w: World, calls: seq<Call>, id: OrderId, n: nat)
    requires OneLoadPerEvent(env, w, calls, id) && n <= |calls|
    ensures OneLoadPerEvent(env, w, calls[..n], id)
  {
    hide Execute, Oversettles;
    forall k | 0 <= k < n ensures !Oversettles(Run(env, w, calls[..n][..k]), calls[..n][k].tx, id) {
      assert calls[..n][..k] == calls[..k];
    }
  }

  /** Over every run in which each event of the order starts at most one `settle`, whatever else is stale or
    * overlaps: the order is settled at most as often as it was confirmed. */
  lemma {:induction false} HandlersWithinEvents(env: Env, w: World, calls: seq<Call>, id: OrderId)
    requires Initial(w) && OneLoadPerEvent(env, w, calls, id)
    ensures Total(Run(env, w, calls).handlers, HandlerOf(id)) <= EventsOf(Run(env, w, calls), id)
  {
    hide Execute, Oversettles, EventsOf;
    if calls != [] {
      var n := |calls| - 1;
      OneLoadPerEventPrefix(env, w, calls, id, n);
      HandlersWithinEvents(env, w, calls[..n], id);
      EventBoundSurvivesIff(env, Run(env, w, calls[..n]), calls[n].tx, calls[n].now, id);
    }
  }

  /** If the order's own status writes are serial as well, no order is ever settled by two. */
  lemma {:induction false} OneHandlerPerOrder(env: Env, w: World, calls: seq<Call>, id: OrderId)
    requires Initial(w) && SerialFor(env, w, calls, id) && OneLoadPerEvent(env, w, calls, id)
    ensures Total(Run(env, w, calls).handlers, HandlerOf(id)) <= 1
  {
    hide Execute, Serial, Oversettles;
    HandlersWithinEvents(env, w, calls, id);
    if id < |Run(env, w, calls).orders| {
      PathOverRuns(env, w, calls, id);
      ConfirmationsOfPath(Run(env, w, calls).orders[id]);
    }
  }

  // ---------------------------------------------------------------- serial transactions

  /** The handled orders are confirmed, those with a booked handler completed, and no order has more
    * handlers than confirmations. */
  ghost predicate HandlersSound(w: World) {
    && HandlersFit(w)
    && (forall i :: 0 <= i < |w.handlers| ==>
          && w.orders[w.handlers[i].order].status in {CustomerConfirmed, Completed}
          && (w.handlers[i].stage.Booked? ==> w.orders[w.handlers[i].order].status == Completed))
    && (forall id :: 0 <= id < |w.orders| ==> Total(w.handlers, HandlerOf(id)) <= Confirmations(w.orders[id].history))
  }

  lemma NoHandlerBeyond(w: World, id: OrderId)
    requires HandlersFit(w) && id >= |w.orders|
    ensures Total(w.handlers, HandlerOf(id)) == 0
  {
    TotalZero(w.handlers, HandlerOf(id));
  }

  /** A confirmed order stays confirmed or completed under serial transactions. */
  lemma ConfirmedStays(env: Env, w: World, tx: Tx, now: Time, id: OrderId)
    requires AllSound(w) && Serial(w, tx) && id < |w.orders|
    requires w.orders[id].status in {CustomerConfirmed, Completed}
    ensures id < |Apply(env, w, tx, now).orders|
    ensures Apply(env, w, tx, now).orders[id].status == w.orders[id].status
            || Apply(env, w, tx, now).orders[id].status == Completed
  {
    hide Execute;
    RowFrame(env, w, tx, now, id);
    if EntersStatus(tx) && Execute(env, w, tx, now).Done? {
      StatusWriteMovesOneRow(env, w, tx, now);
    }
  }

  /** What a serial transaction does to the orders leaves the handlers of `w` sound. */
  ghost predicate OrdersKept(w: World, next: World) {
    && |w.orders| <= |next.orders|
    && (forall id :: 0 <= id < |w.orders| ==>
          && next.orders[id].station == w.orders[id].station && next.orders[id].items == w.orders[id].items
          && Confirmations(w.orders[id].history) <= Confirmations(next.orders[id].history)
          && (w.orders[id].status in {CustomerConfirmed, Completed} ==>
                next.orders[id].status == w.orders[id].status || next.orders[id].status == Completed))
    && (forall id :: |w.orders| <= id < |next.orders| ==> Confirmations(next.orders[id].history) >= 0)
  }

  lemma SerialKeepsOrders(env: Env, w: World, tx: Tx, now: Time)
    requires AllSound(w) && Serial(w, tx)
    ensures OrdersKept(w, Apply(env, w, tx, now))
  {
    hide Execute, Apply, Serial;
    NewRows(env, w, tx, now);
    forall id | 0 <= id < |w.orders|
      ensures var o, n := w.orders[id], Apply(env, w, tx, now).orders[id];
              && n.station == o.station && n.items == o.items
              && Confirmations(o.history) <= Confirmations(n.history)
              && (o.status in {CustomerConfirmed, Completed} ==> n.status == o.status || n.status == Completed)
    {
      RowFrame(env, w, tx, now, id);
      ConfirmationsStay(env, w, tx, now, id);
      if w.orders[id].status in {CustomerConfirmed, Completed} {
        ConfirmedStays(env, w, tx, now, id);
      }
    }
  }

  /** The same handlers over kept orders. */
  lemma SameHandlersSound(w: World, next: World)
    requires HandlersSound(w) && OrdersKept(w, next) && next.handlers == w.handlers
    ensures HandlersSound(next)
  {
    forall id | 0 <= id < |next.orders|
      ensures Total(next.handlers, HandlerOf(id)) <= Confirmations(next.orders[id].history)
    {
      if id >= |w.orders| { NoHandlerBeyond(w, id); }
    }
  }

  /** One handler replaced by a later state of itself. */
  lemma UpdatedHandlersSound(w: World, next: World, i: nat)
    requires HandlersSound(w) && OrdersKept(w, next) && HandlersFit(next) && i < |w.handlers| == |next.handlers|
    requires next.handlers == w.handlers[i := next.handlers[i]]
    requires next.handlers[i].order == w.handlers[i].order
    requires next.handlers[i].stage.Booked? ==> next.orders[w.handlers[i].order].status == Completed
    ensures HandlersSound(next)
  {
    forall id | 0 <= id < |next.orders|
      ensures Total(next.handlers, HandlerOf(id)) <= Confirmations(next.orders[id].history)
    {
      TotalUpdate(w.handlers, i, next.handlers[i], HandlerOf(id));
      if id >= |w.orders| { NoHandlerBeyond(w, id); }
    }
  }

  lemma LoadKeepsSound(env: Env, w: World, tx: Tx, now: Time)
    requires HandlersSound(w) && Serial(w, tx) && tx.LoadSettlement? && Execute(env, w, tx, now).Done?
    ensures HandlersSound(Apply(env, w, tx, now))
  {
    hide Execute, Apply, HandlerFits, Confirmations;
    var next := Apply(env, w, tx, now);
    var n := |w.handlers|;
    LoadAdds(env, w, tx, now);
    OrdersLeft(env, w, tx, now);
    KeepsHandlersFit(env, w, tx, now);
    assert forall i :: 0 <= i < n ==> next.handlers[i] == w.handlers[i];
    forall id | 0 <= id < |next.orders|
      ensures Total(next.handlers, HandlerOf(id)) <= Confirmations(next.orders[id].history)
    {
      TotalAppend(w.handlers, next.handlers[n], HandlerOf(id));
    }
  }

  lemma StepWritesOne(env: Env, w: World, tx: Tx, now: Time)
    requires (tx.CommitItem? || tx.BookSettlement? || tx.CreditPayee?) && Execute(env, w, tx, now).Done?
    ensures var next := Apply(env, w, tx, now);
            && tx.handler < |w.handlers| == |next.handlers|
            && next.handlers == w.handlers[tx.handler := next.handlers[tx.handler]]
            && next.handlers[tx.handler].order == w.handlers[tx.handler].order
            && (tx.BookSettlement? ==> tx.order == w.handlers[tx.handler].order < |next.orders|
                                       && next.orders[tx.order].status == Completed)
            && (!tx.BookSettlement? ==>
                  next.orders == w.orders
                  && (next.handlers[tx.handler].stage.Booked? ==>
                     next.handlers[tx.handler].stage == w.handlers[tx.handler].stage))
  {
  }

  lemma KeepsHandlersSound(env: Env, w: World, tx: Tx, now: Time)
    requires AllSound(w) && HandlersSound(w) && Serial(w, tx)
    ensures HandlersSound(Apply(env, w, tx, now))
  {
    hide Execute, Serial;
    SerialKeepsOrders(env, w, tx, now);
    if !StepsHandler(tx) {
      HandlersLeft(env, w, tx, now);
      SameHandlersSound(w, Apply(env, w, tx, now));
    } else if Execute(env, w, tx, now).Done? {
      if tx.LoadSettlement? {
        LoadKeepsSound(env, w, tx, now);
      } else {
        KeepsHandlersFit(env, w, tx, now);
        StepWritesOne(env, w, tx, now);
        UpdatedHandlersSound(w, Apply(env, w, tx, now), tx.handler);
      }
    }
  }

  lemma {:induction false} HandlersSoundOverRuns(env: Env, w: World, calls: seq<Call>)
    requires Initial(w) && SerialRun(env, w, calls)
    ensures HandlersSound(Run(env, w, calls))
  {
    hide Execute, Serial;
    if calls != [] {
      var n := |calls| - 1;
      SerialPrefix(env, w, calls, n);
      HandlersSoundOverRuns(env, w, calls[..n]);
      SoundOverRuns(env, w, calls[..n]);
      KeepsHandlersSound(env, Run(env, w, calls[..n]), calls[n].tx, calls[n].now);
    }
  }

  lemma AtMostOneHandler(w: World, id: OrderId)
    requires AllSound(w) && HandlersSound(w)
    ensures Total(w.handlers, HandlerOf(id)) <= 1
  {
    if id < |w.orders| {
      ConfirmationsOfPath(w.orders[id]);
    } else {
      NoHandlerBeyond(w, id);
    }
  }
}
