/** What any transaction, with reads as stale as may be, can do to an existing orders row. */
module RowFrames {
  import opened Prelude
  import opened Domain
  import opened Lifecycle
  import opened Transactions
  import opened OrderHistory

  /** The columns written once, at creation. */
  ghost predicate SameFacts(o: Order, n: Order) {
    && n.customer == o.customer && n.station == o.station && n.tier == o.tier && n.lat == o.lat && n.lng == o.lng
    && n.items == o.items && n.otp == o.otp && n.deliveryFee == o.deliveryFee && n.surcharge == o.surcharge
  }

  ghost predicate SameAmounts(o: Order, n: Order) {
    n.subtotal == o.subtotal && n.total == o.total
  }

  /** The same status, history, rider, shares and confirmation. */
  ghost predicate SameProgress(o: Order, n: Order) {
    && SameHistory(o, n) && n.riderId == o.riderId && n.shares == o.shares
    && n.otpVerified == o.otpVerified && n.cancellationReason == o.cancellationReason
  }

  lemma StatusWriteRow(env: Env, w: World, tx: Tx, now: Time)
    requires EntersStatus(tx) && Execute(env, w, tx, now).Done?
    ensures tx.order < |w.orders|
    ensures var next := Apply(env, w, tx, now);
            var o, n := w.orders[tx.order], next.orders[tx.order];
            && next.orders == w.orders[tx.order := n]
            && SameFacts(o, n) && SameAmounts(o, n) && n.batchId == o.batchId
            && |n.history| == |o.history| + 1
            && n.history == o.history + [Entry(n.history[|o.history|].from, n.status, n.history[|o.history|].changedBy)]
            && n.riderId == (if tx.AssignRider? then Some(tx.rider) else o.riderId)
            && (tx.AssignRider? ==> o.riderId.None?)
            && (!tx.BookSettlement? ==> n.shares == o.shares)
            && (!tx.ConfirmDelivery? ==> n.otpVerified == o.otpVerified)
            && (!tx.CancelOrder? ==> n.cancellationReason == o.cancellationReason)
  {
  }

  /** The entry that a status write appends is a legal move, and stamped. */
  lemma StatusWriteEntry(env: Env, w: World, tx: Tx, now: Time)
    requires EntersStatus(tx) && Execute(env, w, tx, now).Done?
    ensures tx.order < |w.orders| && tx.order < |Apply(env, w, tx, now).orders|
    ensures var o, n := w.orders[tx.order], Apply(env, w, tx, now).orders[tx.order];
            && |n.history| == |o.history| + 1
            && n.history[|o.history|].from.Some? && Edge(n.history[|o.history|].from.value, n.status)
            && n.stamps == Stamp(o.stamps, n.status, now)
  {
    hide IsValidTransition, Cancellable, MayWrite, Milestone;
    FixedEdges();
  }

  /** At a checkpoint it is the write of an `updateStatus` whose check was open. */
  lemma CheckpointEntry(env: Env, w: World, tx: Tx, now: Time)
    requires EntersStatus(tx) && Execute(env, w, tx, now).Done?
    ensures tx.order < |w.orders| && tx.order < |Apply(env, w, tx, now).orders|
    ensures var o, n := w.orders[tx.order], Apply(env, w, tx, now).orders[tx.order];
            Gated(n.status) ==>
              && tx.UpdateStatus? && MayWrite(w, tx.order, tx.seen, tx.to, tx.check) && tx.to == n.status
              && n.history == o.history + [Entry(Some(tx.seen), tx.to, Some(tx.user))]
  {
  }

  /** Handlers are only added, each by a `settle` that found its order CUSTOMER_CONFIRMED. */
  lemma NewHandlers(env: Env, w: World, tx: Tx, now: Time)
    requires !tx.CommitItem? && !tx.BookSettlement? && !tx.CreditPayee?
    ensures var next := Apply(env, w, tx, now).handlers;
            || next == w.handlers
            || (&& tx.LoadSettlement? && tx.order < |w.orders| && w.orders[tx.order].status == CustomerConfirmed
                && |next| == |w.handlers| + 1 && next[..|w.handlers|] == w.handlers
                && next[|w.handlers|].order == tx.order)
  {
  }

  /** The later steps of a handler keep it to its order. */
  lemma HandlersStayPut(env: Env, w: World, tx: Tx, now: Time)
    requires tx.CommitItem? || tx.BookSettlement? || tx.CreditPayee?
    ensures var next := Apply(env, w, tx, now).handlers;
            && |next| == |w.handlers|
            && forall i :: 0 <= i < |w.handlers| ==> next[i].order == w.handlers[i].order
  {
  }

  lemma AddRow(w: World, d: nat, i: OrderId)
    requires Add(w, d).Done? && i < |w.orders|
    ensures |Add(w, d).world.orders| == |w.orders|
    ensures var o, n := w.orders[i], Add(w, d).world.orders[i];
            && SameFacts(o, n) && SameProgress(o, n) && n.batchId == o.batchId
            && (w.deliveries[d].order != i ==> n == o)
  {
  }

  lemma CreateRow(w: World, d: Draft)
    requires PlaceOrder(w, d).Done?
    ensures PlaceOrder(w, d).world.orders == w.orders + [NewOrder(d)]
  {
  }

  /** Creation, batching and approved amounts move no status, rider or share. */
  lemma OtherWriterRow(env: Env, w: World, tx: Tx, now: Time, i: OrderId)
    requires (tx.CreateOrder? || tx.MakeBatch? || tx.AddAmount?) && Execute(env, w, tx, now).Done? && i < |w.orders|
    ensures i < |Apply(env, w, tx, now).orders|
    ensures var o, n := w.orders[i], Apply(env, w, tx, now).orders[i];
            && SameFacts(o, n) && SameProgress(o, n)
            && (tx.AddAmount? || SameAmounts(o, n))
            && (tx.MakeBatch? || n.batchId == o.batchId)
  {
    if tx.CreateOrder? {
      CreateRow(w, tx.draft);
    } else if tx.MakeBatch? {
      TagRows(w.orders, tx.group, |w.batches|);
    } else {
      AddRow(w, tx.delivery, i);
    }
  }

  /** The general frame of one row under one transaction. */
  lemma {:induction false} RowFrame(env: Env, w: World, tx: Tx, now: Time, i: OrderId)
    requires i < |w.orders|
    ensures i < |Apply(env, w, tx, now).orders|
    ensures var o, n := w.orders[i], Apply(env, w, tx, now).orders[i];
            && SameFacts(o, n)
            && (tx.AddAmount? || SameAmounts(o, n))
            && (SameHistory(o, n) || (EntersStatus(tx) && tx.order == i && Execute(env, w, tx, now).Done?))
            && (n.riderId == o.riderId
               || (o.riderId.None? && tx.AssignRider? && tx.order == i && n.riderId == Some(tx.rider)
                                           && Execute(env, w, tx, now).Done?))
            && (SameProgress(o, n) || (EntersStatus(tx) && tx.order == i))
            && (tx.MakeBatch? || n.batchId == o.batchId)
  {
    hide Execute;
    if LeavesOrders(tx) {
      OrdersLeft(env, w, tx, now);
    } else if Execute(env, w, tx, now).Done? {
      if EntersStatus(tx) {
        StatusWriteRow(env, w, tx, now);
      } else {
        OtherWriterRow(env, w, tx, now, i);
      }
    }
  }

  lemma CreateApplies(env: Env, w: World, d: Draft, now: Time)
    ensures var next := Apply(env, w, CreateOrder(d), now);
            next.orders == w.orders || next.orders == w.orders + [NewOrder(d)]
  {
    if PlaceOrder(w, d).Done? { CreateRow(w, d); }
  }

  lemma NoNewRows(env: Env, w: World, tx: Tx, now: Time)
    requires tx.MakeBatch? || tx.AddAmount?
    ensures |Apply(env, w, tx, now).orders| == |w.orders|
  {
  }

  /** Rows appear only through `create`, one at a time and at the end. */
  lemma NewRows(env: Env, w: World, tx: Tx, now: Time)
    ensures var next := Apply(env, w, tx, now);
            && |w.orders| <= |next.orders| <= |w.orders| + 1
            && (|next.orders| > |w.orders| ==> tx.CreateOrder? && next.orders[|w.orders|] == NewOrder(tx.draft))
  {
    hide Execute;
    if LeavesOrders(tx) {
      OrdersLeft(env, w, tx, now);
    } else if EntersStatus(tx) {
      if Execute(env, w, tx, now).Done? { StatusWriteRow(env, w, tx, now); }
    } else if tx.CreateOrder? {
      CreateApplies(env, w, tx.draft, now);
    } else {
      NoNewRows(env, w, tx, now);
    }
  }

  /** Rows never disappear. */
  lemma {:induction false} RowsGrow(env: Env, w: World, calls: seq<Call>, n: nat)
    requires n <= |calls|
    ensures |Run(env, w, calls[..n]).orders| <= |Run(env, w, calls).orders|
    decreases |calls| - n
  {
    hide Execute;
    if n < |calls| {
      RowsGrow(env, w, calls, n + 1);
      assert calls[..n + 1][..n] == calls[..n];
      NewRows(env, Run(env, w, calls[..n]), calls[n].tx, calls[n].now);
    } else {
      assert calls[..n] == calls;
    }
  }
}
