/** Order totals, and what the settlement split does and does not contain. */
module OrderTotals {
  import opened Prelude
  import opened Domain
  import opened Pricing
  import opened Transactions
  import opened RowFrames
  import opened OrderPaths
  import opened ChangeRequests
  import opened Handlers

  // ---------------------------------------------------------------- over every run

  /** The amounts of an order add up, and so do those that a delivery has read of it. */
  ghost predicate AddsUp(w: World) {
    && (forall i :: 0 <= i < |w.orders| ==>
          var o := w.orders[i];
          && o.deliveryFee == DELIVERY_FEE && o.surcharge == Surcharge(ItemsTotal(o.items), o.tier)
          && o.total == o.subtotal + o.deliveryFee + o.surcharge)
    && (forall d :: 0 <= d < |w.deliveries| ==> ReadAddsUp(w, w.deliveries[d]))
  }

  ghost predicate ReadAddsUp(w: World, d: Delivery) {
    && d.order < |w.orders|
    && (d.progress.ReadBack? ==>
          d.progress.total == d.progress.subtotal + w.orders[d.order].deliveryFee + w.orders[d.order].surcharge)
  }

  /** The transactions that add or move a delivery. */
  lemma DeliveriesLeft(env: Env, w: World, tx: Tx, now: Time)
    requires !Delivers(tx)
    ensures Apply(env, w, tx, now).deliveries == w.deliveries
  {
    hide Execute, Apply;
    Frames(env, w, tx, now);
  }

  lemma MatchAddsUp(w: World, event: nat)
    requires AddsUp(w) && ChangesConsistent(w) && Match(w, event).Done?
    ensures AddsUp(Match(w, event).world)
  {
    var next := Match(w, event).world;
    MatchKeepsConsistent(w, event);
    assert DeliveryAgrees(next, next.deliveries[|w.deliveries|]);
    forall i | 0 <= i < |w.deliveries| ensures ReadAddsUp(next, next.deliveries[i]) {
      assert ReadAddsUp(w, w.deliveries[i]);
    }
  }

  lemma AddAddsUp(w: World, d: nat)
    requires AddsUp(w) && Add(w, d).Done?
    ensures AddsUp(Add(w, d).world)
  {
    var next := Add(w, d).world;
    assert ReadAddsUp(w, w.deliveries[d]);
    forall i | 0 <= i < |w.deliveries| ensures ReadAddsUp(next, next.deliveries[i]) {
      assert ReadAddsUp(w, w.deliveries[i]);
    }
  }

  lemma DeliveryStepsAddUp(env: Env, w: World, tx: Tx, now: Time)
    requires AddsUp(w) && ChangesConsistent(w) && Delivers(tx)
    ensures AddsUp(Apply(env, w, tx, now))
  {
    hide ChangesConsistent;
    if tx.MatchCompletion? && Execute(env, w, tx, now).Done? {
      MatchAddsUp(w, tx.event);
    } else if tx.AddAmount? && Execute(env, w, tx, now).Done? {
      AddAddsUp(w, tx.delivery);
    }
  }

  lemma KeepsAddsUp(env: Env, w: World, tx: Tx, now: Time)
    requires AddsUp(w) && ChangesConsistent(w)
    ensures AddsUp(Apply(env, w, tx, now))
  {
    hide Execute;
    if Delivers(tx) {
      DeliveryStepsAddUp(env, w, tx, now);
    } else {
      var next := Apply(env, w, tx, now);
      NewRows(env, w, tx, now);
      DeliveriesLeft(env, w, tx, now);
      forall i | 0 <= i < |w.orders|
        ensures SameFacts(w.orders[i], next.orders[i]) && SameAmounts(w.orders[i], next.orders[i])
      {
        RowFrame(env, w, tx, now, i);
      }
      forall d | 0 <= d < |next.deliveries| ensures ReadAddsUp(next, next.deliveries[d]) {
        assert ReadAddsUp(w, w.deliveries[d]);
      }
    }
  }

  lemma {:induction false} AddsUpOverRuns(env: Env, w: World, calls: seq<Call>)
    requires Initial(w)
    ensures AddsUp(Run(env, w, calls))
  {
    hide Execute;
    if calls != [] {
      var n := |calls| - 1;
      AddsUpOverRuns(env, w, calls[..n]);
      ConsistentOverRuns(env, w, calls[..n]);
      KeepsAddsUp(env, Run(env, w, calls[..n]), calls[n].tx, calls[n].now);
    }
  }

  /** Over every run, lost updates included, the amounts of every order add up: the fee is 10.00, an EXPRESS
    * order's surcharge is the nearest cent to a fifth of its lines, and the total is the sum of the three. */
  lemma AmountsAddUp(env: Env, w: World, calls: seq<Call>, id: OrderId)
    requires Initial(w) && id < |Run(env, w, calls).orders|
    ensures var o := Run(env, w, calls).orders[id];
            && o.deliveryFee == 1000 && IsSurcharge(o.surcharge, Total(o.items, LineTotal()), o.tier)
            && o.total == o.subtotal + o.deliveryFee + o.surcharge
  {
    hide Execute;
    AddsUpOverRuns(env, w, calls);
    var o := Run(env, w, calls).orders[id];
    ItemsTotalIsSum(o.items);
    SurchargeIsNearest(ItemsTotal(o.items), o.tier);
  }

  // ---------------------------------------------------------------- the sums of one order

  /** What one change request of the order is worth once approved. */
  function ApprovedFor(id: OrderId): Change -> int {
    (c: Change) => if c.order == id && c.status == Approved then c.amount else 0
  }

  /** What one finished delivery added to the order. */
  function AddedFor(id: OrderId): Delivery -> int {
    (d: Delivery) => if d.order == id && d.progress.Added? then d.amount else 0
  }

  /** What one delivery has approved but not yet added to the order. */
  function UnaddedFor(id: OrderId): Delivery -> int {
    (d: Delivery) => if d.order == id && (d.progress.Marked? || d.progress.ReadBack?) then d.amount else 0
  }

  /** The total is the price at creation plus what deliveries added, and they approved what is approved. */
  ghost predicate TotalAgrees(w: World, id: OrderId)
    requires id < |w.orders|
  {
    var o := w.orders[id];
    && o.subtotal == ItemsTotal(o.items) + Total(w.deliveries, AddedFor(id))
    && o.total == PriceOf(o.items, o.tier) + Total(w.deliveries, AddedFor(id))
    && Total(w.changes, ApprovedFor(id)) == Total(w.deliveries, AddedFor(id)) + Total(w.deliveries, UnaddedFor(id))
  }

  /** What the write read does not matter to the sums of this order: an amount is added to the amounts the
    * order still has, and what is approved or rejected is not approved already (or is worth nothing). */
  predicate SumsFit(w: World, tx: Tx, id: OrderId) {
    match tx
    case AddAmount(d) =>
      CanAdd(w, d) && w.deliveries[d].order == id ==>
        var o, read := w.orders[id], w.deliveries[d].progress;
        o.subtotal == read.subtotal && o.total == read.total
    case ApproveMatched(d) =>
      Stands(w, d, Matched) && w.deliveries[d].order == id && w.deliveries[d].change < |w.changes| ==>
        w.changes[w.deliveries[d].change].status != Approved || w.deliveries[d].amount == 0
    case RejectChange(c, seen) =>
      c < |w.changes| && w.changes[c].order == id && seen == Raised ==>
        w.changes[c].status != Approved || w.changes[c].amount == 0
    case _ => true
  }

  // The three writers of the sums.

  lemma AddAt(w: World, d: nat, id: OrderId)
    requires CanAdd(w, d) && id < |w.orders| && TotalAgrees(w, id)
    ensures TotalAgrees(Add(w, d).world, id) <==> SumsFit(w, AddAmount(d), id)
  {
    hide ItemsTotal, PriceOf;
    var next := Add(w, d).world;
    TotalUpdate(w.deliveries, d, next.deliveries[d], AddedFor(id));
    TotalUpdate(w.deliveries, d, next.deliveries[d], UnaddedFor(id));
  }

  lemma MarkAt(w: World, d: nat, id: OrderId)
    requires Mark(w, d).Done? && DeliveryAgrees(w, w.deliveries[d]) && id < |w.orders| && TotalAgrees(w, id)
    ensures TotalAgrees(Mark(w, d).world, id) <==> SumsFit(w, ApproveMatched(d), id)
  {
    var next, c := Mark(w, d).world, w.deliveries[d].change;
    TotalUpdate(w.changes, c, next.changes[c], ApprovedFor(id));
    TotalUpdate(w.deliveries, d, next.deliveries[d], AddedFor(id));
    TotalUpdate(w.deliveries, d, next.deliveries[d], UnaddedFor(id));
  }

  lemma RejectAt(w: World, c: ChangeId, id: OrderId)
    requires c < |w.changes| && id < |w.orders| && TotalAgrees(w, id)
    ensures TotalAgrees(Reject(w, c, Raised).world, id) <==> SumsFit(w, RejectChange(c, Raised), id)
  {
    TotalUpdate(w.changes, c, Reject(w, c, Raised).world.changes[c], ApprovedFor(id));
  }

  lemma ReadKeepsTotals(w: World, d: nat, id: OrderId)
    requires ReadAmounts(w, d).Done? && id < |w.orders| && TotalAgrees(w, id)
    ensures TotalAgrees(ReadAmounts(w, d).world, id)
  {
    var next := ReadAmounts(w, d).world;
    TotalUpdate(w.deliveries, d, next.deliveries[d], AddedFor(id));
    TotalUpdate(w.deliveries, d, next.deliveries[d], UnaddedFor(id));
  }

  lemma MatchKeepsTotals(w: World, event: nat, id: OrderId)
    requires Match(w, event).Done? && id < |w.orders| && TotalAgrees(w, id)
    ensures TotalAgrees(Match(w, event).world, id)
  {
    var next := Match(w, event).world;
    assert next.orders == w.orders && next.changes == w.changes;
    TotalAppend(w.deliveries, next.deliveries[|w.deliveries|], AddedFor(id));
    TotalAppend(w.deliveries, next.deliveries[|w.deliveries|], UnaddedFor(id));
  }

  lemma RaisingApprovesNothing(w: World, order: OrderId, station: StationId, amount: nat, id: OrderId)
    requires Raise(w, order, station, amount).Done?
    ensures Total(Raise(w, order, station, amount).world.changes, ApprovedFor(id)) == Total(w.changes, ApprovedFor(id))
  {
    TotalAppend(w.changes, Change(order, station, amount, Raised, None), ApprovedFor(id));
  }

  lemma StoringApprovesNothing(w: World, c: ChangeId, p: PaymentId, id: OrderId)
    requires Store(w, c, p).Done?
    ensures Total(Store(w, c, p).world.changes, ApprovedFor(id)) == Total(w.changes, ApprovedFor(id))
  {
    TotalUpdate(w.changes, c, Store(w, c, p).world.changes[c], ApprovedFor(id));
  }

  /** Only the other transactions of these services write the requests. */
  lemma ChangesLeft(env: Env, w: World, tx: Tx, now: Time)
    requires !tx.ApproveMatched? && !tx.RejectChange? && !tx.RaiseChange? && !tx.StoreReference?
    ensures Apply(env, w, tx, now).changes == w.changes
  {
    hide Execute, Apply;
    Frames(env, w, tx, now);
  }

  /** Only approvals and rejections move what is approved. */
  lemma {:induction false} ApprovalsStay(env: Env, w: World, tx: Tx, now: Time, id: OrderId)
    requires !tx.ApproveMatched? && !tx.RejectChange?
    ensures Total(Apply(env, w, tx, now).changes, ApprovedFor(id)) == Total(w.changes, ApprovedFor(id))
  {
    if tx.RaiseChange? {
      if Raise(w, tx.order, tx.station, tx.extra).Done? {
        RaisingApprovesNothing(w, tx.order, tx.station, tx.extra, id);
      }
    } else if tx.StoreReference? {
      if Store(w, tx.change, tx.payment).Done? { StoringApprovesNothing(w, tx.change, tx.payment, id); }
    } else {
      hide Execute;
      ChangesLeft(env, w, tx, now);
    }
  }

  lemma NewOrderAgrees(w: World, d: Draft)
    requires ChangesConsistent(w) && PlaceOrder(w, d).Done?
    ensures |PlaceOrder(w, d).world.orders| == |w.orders| + 1 && TotalAgrees(PlaceOrder(w, d).world, |w.orders|)
  {
    var n := |w.orders|;
    CreateRow(w, d);
    forall i | 0 <= i < |w.deliveries| ensures w.deliveries[i].order != n {
      assert DeliveryAgrees(w, w.deliveries[i]);
    }
    TotalZero(w.changes, ApprovedFor(n));
    TotalZero(w.deliveries, AddedFor(n));
    TotalZero(w.deliveries, UnaddedFor(n));
  }

  lemma CreateAgrees(env: Env, w: World, d: Draft, now: Time)
    requires ChangesConsistent(w) && |Apply(env, w, CreateOrder(d), now).orders| > |w.orders|
    ensures TotalAgrees(Apply(env, w, CreateOrder(d), now), |w.orders|)
  {
    hide TotalAgrees, ChangesConsistent;
    if PlaceOrder(w, d).Done? { NewOrderAgrees(w, d); }
  }

  lemma OthersKeepTotals(env: Env, w: World, tx: Tx, now: Time, id: OrderId)
    requires id < |w.orders| && TotalAgrees(w, id) && !Delivers(tx) && !tx.RejectChange?
    ensures id < |Apply(env, w, tx, now).orders| && TotalAgrees(Apply(env, w, tx, now), id)
  {
    hide Execute, Apply;
    DeliveriesLeft(env, w, tx, now);
    RowFrame(env, w, tx, now, id);
    ApprovalsStay(env, w, tx, now, id);
  }

  lemma DeliveriesIff(env: Env, w: World, tx: Tx, now: Time, id: OrderId)
    requires ChangesConsistent(w) && Delivers(tx) && Execute(env, w, tx, now).Done?
    requires id < |w.orders| && TotalAgrees(w, id)
    ensures id < |Apply(env, w, tx, now).orders|
    ensures TotalAgrees(Apply(env, w, tx, now), id) <==> SumsFit(w, tx, id)
  {
    hide TotalAgrees;
    match tx {
      case MatchCompletion(event) => MatchKeepsTotals(w, event, id);
      case ApproveMatched(d) => assert DeliveryAgrees(w, w.deliveries[d]); MarkAt(w, d, id);
      case ReadTotal(d) => ReadKeepsTotals(w, d, id);
      case AddAmount(d) => AddAt(w, d, id);
    }
  }

  lemma FailedFits(env: Env, w: World, tx: Tx, now: Time, id: OrderId)
    requires ChangesConsistent(w) && Execute(env, w, tx, now).Failed?
    ensures SumsFit(w, tx, id)
  {
  }

  lemma SerialFits(w: World, tx: Tx, id: OrderId)
    requires Serial(w, tx)
    ensures SumsFit(w, tx, id)
  {
  }

  /** The sums of an order survive a transaction exactly when its stale read does not matter to them; and a
    * read that still holds never matters. */
  lemma {:induction false} TotalsSurviveIff(env: Env, w: World, tx: Tx, now: Time, id: OrderId)
    requires ChangesConsistent(w) && id < |w.orders| && TotalAgrees(w, id)
    ensures id < |Apply(env, w, tx, now).orders|
    ensures TotalAgrees(Apply(env, w, tx, now), id) <==> SumsFit(w, tx, id)
    ensures Serial(w, tx) ==> SumsFit(w, tx, id)
  {
    hide TotalAgrees, ChangesConsistent, Serial;
    if Serial(w, tx) { SerialFits(w, tx, id); }
    if Execute(env, w, tx, now).Failed? {
      FailedFits(env, w, tx, now, id);
    } else if Delivers(tx) {
      DeliveriesIff(env, w, tx, now, id);
    } else if tx.RejectChange? {
      RejectAt(w, tx.change, id);
    } else {
      OthersKeepTotals(env, w, tx, now, id);
    }
  }

  /** No write of the run that touches the sums of this order acted on a stale read that matters to them. */
  ghost predicate SumsFitThroughout(env: Env, w: World, calls: seq<Call>, id: OrderId) {
    forall k :: 0 <= k < |calls| ==> SumsFit(Run(env, w, calls[..k]), calls[k].tx, id)
  }

  lemma SumsFitPrefix(env: Env, w: World, calls: seq<Call>, id: OrderId, n: nat)
    requires SumsFitThroughout(env, w, calls, id) && n <= |calls|
    ensures SumsFitThroughout(env, w, calls[..n], id)
  {
    hide Execute, SumsFit;
    forall k | 0 <= k < n ensures SumsFit(Run(env, w, calls[..n][..k]), calls[..n][k].tx, id) {
      assert calls[..n][..k] == calls[..k];
    }
  }

  lemma KeepsTotal(env: Env, w: World, tx: Tx, now: Time, id: OrderId)
    requires ChangesConsistent(w) && SumsFit(w, tx, id) && id < |Apply(env, w, tx, now).orders|
    requires id < |w.orders| ==> TotalAgrees(w, id)
    ensures TotalAgrees(Apply(env, w, tx, now), id)
  {
    hide Execute, Apply, TotalAgrees, ChangesConsistent, SumsFit;
    if id < |w.orders| {
      TotalsSurviveIff(env, w, tx, now, id);
    } else {
      RowBefore(env, w, tx, now, id);
      NewRows(env, w, tx, now);
      CreateAgrees(env, w, tx.draft, now);
    }
  }

  lemma {:induction false} TotalOverRuns(env: Env, w: World, calls: seq<Call>, id: OrderId)
    requires Initial(w) && SumsFitThroughout(env, w, calls, id) && id < |Run(env, w, calls).orders|
    ensures TotalAgrees(Run(env, w, calls), id)
  {
    hide Execute, SumsFit, TotalAgrees;
    if calls != [] {
      var n := |calls| - 1;
      SumsFitPrefix(env, w, calls, id, n);
      ConsistentOverRuns(env, w, calls[..n]);
      if id < |Run(env, w, calls[..n]).orders| { TotalOverRuns(env, w, calls[..n], id); }
      KeepsTotal(env, Run(env, w, calls[..n]), calls[n].tx, calls[n].now, id);
    }
  }

  /** When no write to the sums of this order acted on a stale read that matters: its total is the sum of its
    * lines, the fee, the surcharge and its approved change requests, less those approved by a delivery that
    * has yet to add them. */
  lemma {:induction false} TotalIsPricePlusApproved(env: Env, w: World, calls: seq<Call>, id: OrderId)
    requires Initial(w) && SumsFitThroughout(env, w, calls, id) && id < |Run(env, w, calls).orders|
    ensures var next := Run(env, w, calls);
            var o := next.orders[id];
            && o.subtotal == Total(o.items, LineTotal())
               + Total(next.changes, ApprovedFor(id)) - Total(next.deliveries, UnaddedFor(id))
            && o.total == o.subtotal + 1000 + o.surcharge
            && IsSurcharge(o.surcharge, Total(o.items, LineTotal()), o.tier)
  {
    hide Execute, SumsFit;
    TotalOverRuns(env, w, calls, id);
    AmountsAddUp(env, w, calls, id);
    ItemsTotalIsSum(Run(env, w, calls).orders[id].items);
  }

  // ---------------------------------------------------------------- shares

  /** This handler has booked its settlement of the order. */
  predicate BookedOf(w: World, i: nat, id: OrderId) {
    i < |w.handlers| && w.handlers[i].order == id && w.handlers[i].stage.Booked?
  }

  /** The shares in the row are those of a handler that booked it, if any did. */
  ghost predicate SharesAgree(w: World, id: OrderId)
    requires id < |w.orders|
  {
    (exists i: nat :: BookedOf(w, i, id)) ==>
      exists i: nat :: BookedOf(w, i, id) && w.orders[id].shares == w.handlers[i].split
  }

  lemma BookWritesShares(env: Env, w: World, tx: Tx, now: Time, id: OrderId)
    requires id < |w.orders| && SharesAgree(w, id) && tx.BookSettlement? && Execute(env, w, tx, now).Done?
    ensures id < |Apply(env, w, tx, now).orders| && SharesAgree(Apply(env, w, tx, now), id)
  {
    var next := Apply(env, w, tx, now);
    if tx.order == id {
      assert BookedOf(next, tx.handler, id) && next.orders[id].shares == next.handlers[tx.handler].split;
    } else {
      assert next.orders[id] == w.orders[id];
      assert forall i: nat :: BookedOf(next, i, id) <==> BookedOf(w, i, id);
      assert forall i: nat :: BookedOf(w, i, id) ==> next.handlers[i].split == w.handlers[i].split;
    }
  }

  lemma SharesLeft(env: Env, w: World, tx: Tx, now: Time, id: OrderId)
    requires id < |w.orders| && SharesAgree(w, id) && !tx.BookSettlement?
    ensures id < |Apply(env, w, tx, now).orders| && SharesAgree(Apply(env, w, tx, now), id)
  {
    hide Execute, Apply;
    var next := Apply(env, w, tx, now);
    RowFrame(env, w, tx, now, id);
    if Execute(env, w, tx, now).Failed? { FailedChangesNothing(env, w, tx, now); }
    if EntersStatus(tx) && Execute(env, w, tx, now).Done? { StatusWriteRow(env, w, tx, now); }
    BookedStay(env, w, tx, now);
    forall i: nat | BookedOf(w, i, id) ensures BookedOf(next, i, id) && next.handlers[i].split == w.handlers[i].split {
      HandlerStep(env, w, tx, now, i);
    }
    assert forall i: nat :: BookedOf(next, i, id) ==> BookedOf(w, i, id);
  }

  lemma BookedStay(env: Env, w: World, tx: Tx, now: Time)
    requires !tx.BookSettlement?
    ensures var next := Apply(env, w, tx, now).handlers;
            forall i :: 0 <= i < |next| && next[i].stage.Booked? ==>
              i < |w.handlers| && w.handlers[i].stage.Booked? && next[i].order == w.handlers[i].order
              && next[i].split == w.handlers[i].split
  {
    if !StepsHandler(tx) { HandlersLeft(env, w, tx, now); }
  }

  lemma KeepsShares(env: Env, w: World, tx: Tx, now: Time, id: OrderId)
    requires HandlersFit(w) && id < |Apply(env, w, tx, now).orders|
    requires id < |w.orders| ==> SharesAgree(w, id)
    ensures SharesAgree(Apply(env, w, tx, now), id)
  {
    hide Execute, Apply, SharesAgree;
    if id >= |w.orders| {
      NewOrderHasNoShares(env, w, tx, now, id);
    } else if tx.BookSettlement? && Execute(env, w, tx, now).Done? {
      BookWritesShares(env, w, tx, now, id);
    } else if tx.BookSettlement? {
      FailedChangesNothing(env, w, tx, now);
    } else {
      SharesLeft(env, w, tx, now, id);
    }
  }

  lemma FailedChangesNothing(env: Env, w: World, tx: Tx, now: Time)
    requires Execute(env, w, tx, now).Failed?
    ensures Apply(env, w, tx, now) == w
  {
    hide Execute;
  }

  lemma NewOrderHasNoShares(env: Env, w: World, tx: Tx, now: Time, id: OrderId)
    requires HandlersFit(w) && |w.orders| <= id < |Apply(env, w, tx, now).orders|
    ensures SharesAgree(Apply(env, w, tx, now), id)
  {
    hide Execute, Apply;
    RowBefore(env, w, tx, now, id);
    HandlersLeft(env, w, tx, now);
    assert forall i: nat :: !BookedOf(Apply(env, w, tx, now), i, id);
  }

  /** Over every run: the shares of an order with a booked settlement are those that one of its booked
    * settlements computed. */
  lemma {:induction false} SharesAreOfABooking(env: Env, w: World, calls: seq<Call>, id: OrderId)
    requires Initial(w) && id < |Run(env, w, calls).orders|
    ensures SharesAgree(Run(env, w, calls), id)
  {
    hide Execute, SharesAgree;
    if calls != [] {
      var n := |calls| - 1;
      if id < |Run(env, w, calls[..n]).orders| { SharesAreOfABooking(env, w, calls[..n], id); }
      HandlersFitOverRuns(env, w, calls[..n]);
      KeepsShares(env, Run(env, w, calls[..n]), calls[n].tx, calls[n].now, id);
    }
  }

  /** What a handler read at the start stays. */
  lemma {:induction false} HandlerGrowsOverRuns(env: Env, w: World, calls: seq<Call>, h: nat)
    requires h < |w.handlers|
    ensures h < |Run(env, w, calls).handlers| && HandlerGrows(w.handlers[h], Run(env, w, calls).handlers[h])
  {
    hide Execute;
    if calls != [] {
      var n := |calls| - 1;
      HandlerGrowsOverRuns(env, w, calls[..n], h);
      HandlerStep(env, Run(env, w, calls[..n]), calls[n].tx, calls[n].now, h);
    }
  }

  /** The columns written at creation never change. */
  lemma {:induction false} FactsOverRuns(env: Env, w: World, calls: seq<Call>, id: OrderId)
    requires id < |w.orders|
    ensures id < |Run(env, w, calls).orders| && SameFacts(w.orders[id], Run(env, w, calls).orders[id])
  {
    hide Execute;
    if calls != [] {
      var n := |calls| - 1;
      FactsOverRuns(env, w, calls[..n], id);
      RowFrame(env, Run(env, w, calls[..n]), calls[n].tx, calls[n].now, id);
    }
  }

  /** What the load of a handler reads, and that it leaves the orders alone. */
  lemma LoadReads(env: Env, w: World, load: Call)
    requires load.tx.LoadSettlement? && Execute(env, w, load.tx, load.now).Done?
    ensures load.tx.order < |w.orders|
    ensures var loaded := Apply(env, w, load.tx, load.now);
            && loaded.orders == w.orders && |loaded.handlers| == |w.handlers| + 1
            && var h := loaded.handlers[|w.handlers|];
            && h.order == load.tx.order && h.total == w.orders[load.tx.order].total
            && h.split.commission + h.split.station + h.split.rider == h.total
  {
    var o := w.orders[load.tx.order];
    SplitIsExact(o.total, o.deliveryFee, CommissionRate(w.rules, o.station, env.fallbackRate), load.tx.tieUp);
  }

  /** When no write to the sums of this order acted on a stale read that matters, and one settlement booked
    * it: its total minus its three shares is exactly what was added since that settlement read it. Money
    * added after that read is in the total but in nobody's share. */
  lemma {:induction false} SharesMissLaterApprovals(env: Env, w: World, before: seq<Call>, load: Call, after: seq<Call>)
    requires Initial(w) && load.tx.LoadSettlement? && Execute(env, Run(env, w, before), load.tx, load.now).Done?
    requires SumsFitThroughout(env, w, before + [load] + after, load.tx.order)
    requires forall i: nat :: BookedOf(Run(env, w, before + [load] + after), i, load.tx.order) <==>
                         i == |Run(env, w, before).handlers|
    ensures load.tx.order < |Run(env, w, before + [load] + after).orders|
    ensures var earlier, next := Run(env, w, before), Run(env, w, before + [load] + after);
            var o := next.orders[load.tx.order];
            o.total - (o.shares.commission + o.shares.station + o.shares.rider)
              == Total(next.deliveries, AddedFor(load.tx.order)) - Total(earlier.deliveries, AddedFor(load.tx.order))
  {
    hide Execute, SumsFit, Apply, Run;
    var all, id := before + [load] + after, load.tx.order;
    var earlier, h := Run(env, w, before), |Run(env, w, before).handlers|;
    var loaded, next := Apply(env, earlier, load.tx, load.now), Run(env, w, all);
    RunSnoc(env, w, before, load);
    RunConcat(env, w, before + [load], after);
    assert all[..|before|] == before;
    SumsFitPrefix(env, w, all, id, |before|);
    LoadReads(env, earlier, load);
    HandlerGrowsOverRuns(env, loaded, after, h);
    FactsOverRuns(env, loaded, after, id);
    SharesAreOfABooking(env, w, all, id);
    assert BookedOf(next, h, id);
    TotalOverRuns(env, w, before, id);
    TotalOverRuns(env, w, all, id);
  }
}
