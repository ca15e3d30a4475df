/** The reservation ledger: what the reserved counts of the inventory rows mean over whole runs. */
module StockLedger {
  import opened Prelude
  import opened Domain
  import opened StockLevels
  import opened Transactions
  import opened OrderHistory
  import opened RowFrames
  import opened Handlers

  // ---------------------------------------------------------------- what an order holds

  /** Cylinders of a row that the order asked for. */
  function Wanted(o: Order, slot: Slot): nat {
    if o.station == slot.station then Demand(o.items, slot.kind) else 0
  }

  /** Cylinders of a row that a handler of the order has committed. */
  function SoldFor(id: OrderId, slot: Slot): Handler -> int {
    (h: Handler) =>
      if h.order == id && h.station == slot.station && h.done <= |h.items|
      then Demand(h.items[..h.done], slot.kind)
      else 0
  }

  /** Cylinders of a row that an order still holds: those it asked for, unless `cancel` released them,
    * less those its settlement has committed. */
  function HeldAt(w: World, slot: Slot): OrderId -> int {
    (id: OrderId) =>
      if id >= |w.orders| || w.orders[id].cancellationReason.Some? then 0
      else Wanted(w.orders[id], slot) - Total(w.handlers, SoldFor(id, slot))
  }

  predicate Live(o: Order) {
    o.status != Cancelled && o.status != Completed
  }

  /** Cylinders of a row that a live order needs. */
  function LiveAt(w: World, slot: Slot): OrderId -> int {
    (id: OrderId) => if id < |w.orders| && Live(w.orders[id]) then HeldAt(w, slot)(id) else 0
  }

  /** Cylinders of a row that an order holds although it has ended. */
  function StrandedAt(w: World, slot: Slot): OrderId -> int {
    (id: OrderId) => if id < |w.orders| && !Live(w.orders[id]) then HeldAt(w, slot)(id) else 0
  }

  ghost predicate AllRowsExist(w: World) {
    forall i :: 0 <= i < |w.orders| ==> RowsExist(w.stock, w.orders[i].station, w.orders[i].items)
  }

  /** Every reserved count is exactly the sum of what the orders hold. */
  ghost predicate Ledger(w: World) {
    && (forall slot :: slot in w.stock ==> w.stock[slot].reserved == SumTo(|w.orders|, HeldAt(w, slot)))
    && AllRowsExist(w)
  }

  /** The invariants of serial runs that the ledger rests on. */
  ghost predicate Settled(w: World) {
    AllSound(w) && HandlersSound(w)
  }

  lemma DemandOfPart(items: seq<Item>, n: nat, kind: TypeId)
    requires n <= |items|
    ensures Demand(items[..n], kind) <= Demand(items, kind)
  {
    DemandSplits(items, n, kind);
  }

  /** A sum over handlers of one order, when there is at most one. */
  lemma {:induction false} SumOfAtMostOne(handlers: seq<Handler>, id: OrderId, f: Handler -> int, bound: nat)
    requires Total(handlers, HandlerOf(id)) <= 1
    requires forall i :: 0 <= i < |handlers| ==>
               0 <= f(handlers[i]) <= bound && (handlers[i].order != id ==> f(handlers[i]) == 0)
    ensures 0 <= Total(handlers, f) <= bound
    ensures Total(handlers, HandlerOf(id)) == 0 ==> Total(handlers, f) == 0
    ensures forall i :: 0 <= i < |handlers| && handlers[i].order == id ==> Total(handlers, f) == f(handlers[i])
  {
    if handlers != [] {
      var n := |handlers| - 1;
      TotalNonNegative(handlers[..n], HandlerOf(id));
      SumOfAtMostOne(handlers[..n], id, f, bound);
      forall i | 0 <= i < n && handlers[i].order == id ensures Total(handlers[..n], HandlerOf(id)) >= 1 {
        TotalCovers(handlers[..n], i, HandlerOf(id));
      }
    }
  }

  lemma SoldIsBounded(w: World, id: OrderId, slot: Slot)
    requires Settled(w) && id < |w.orders|
    ensures var sold := Total(w.handlers, SoldFor(id, slot));
            && 0 <= sold <= Wanted(w.orders[id], slot)
            && (Total(w.handlers, HandlerOf(id)) == 0 ==> sold == 0)
            && (forall i :: 0 <= i < |w.handlers| && w.handlers[i].order == id ==>
               sold == SoldFor(id, slot)(w.handlers[i]))
  {
    AtMostOneHandler(w, id);
    forall i | 0 <= i < |w.handlers| ensures 0 <= SoldFor(id, slot)(w.handlers[i]) <= Wanted(w.orders[id], slot) {
      var h := w.handlers[i];
      assert HandlerFits(w, h);
      DemandOfPart(h.items, h.done, slot.kind);
    }
    SumOfAtMostOne(w.handlers, id, SoldFor(id, slot), Wanted(w.orders[id], slot));
  }

  lemma HeldNonNegative(w: World, slot: Slot)
    requires Settled(w)
    ensures forall id: OrderId :: id < |w.orders| ==> HeldAt(w, slot)(id) >= 0
  {
    forall id: OrderId | id < |w.orders| ensures HeldAt(w, slot)(id) >= 0 {
      SoldIsBounded(w, id, slot);
    }
  }

  /** What an order holds is covered by the reserved count. */
  lemma HeldIsReserved(w: World, id: OrderId, slot: Slot)
    requires Settled(w) && Ledger(w) && id < |w.orders| && slot in w.stock
    ensures w.stock[slot].reserved >= HeldAt(w, slot)(id) >= 0
  {
    HeldNonNegative(w, slot);
    SumCovers(|w.orders|, HeldAt(w, slot), id);
  }

  // ---------------------------------------------------------------- frames

  /** Every order holds what it held. */
  ghost predicate SameHolds(w: World, next: World) {
    && |next.orders| == |w.orders|
    && (forall i :: 0 <= i < |w.orders| ==>
          next.orders[i].station == w.orders[i].station && next.orders[i].items == w.orders[i].items)
    && (forall id: OrderId, slot: Slot :: id < |w.orders| ==> HeldAt(next, slot)(id) == HeldAt(w, slot)(id))
  }

  /** Whatever leaves the counts and every hold alone keeps the ledger. */
  lemma FrameKeepsLedger(w: World, next: World)
    requires Ledger(w) && SameHolds(w, next) && next.stock.Keys == w.stock.Keys
    requires forall slot :: slot in w.stock ==> next.stock[slot].reserved == w.stock[slot].reserved
    ensures Ledger(next)
  {
    forall slot | slot in next.stock ensures next.stock[slot].reserved == SumTo(|next.orders|, HeldAt(next, slot)) {
      SumCongruent(|w.orders|, HeldAt(w, slot), HeldAt(next, slot));
    }
  }

  /** The transactions that move stock or end a hold. */
  predicate MovesStock(tx: Tx) {
    tx.CreateOrder? || tx.CancelOrder? || tx.CommitItem? || tx.AdjustStock? || tx.UpsertInventory?
  }

  lemma StockLeft(env: Env, w: World, tx: Tx, now: Time)
    requires !MovesStock(tx)
    ensures Apply(env, w, tx, now).stock == w.stock
  {
    hide Execute, Apply;
    Frames(env, w, tx, now);
  }

  lemma SoldStays(env: Env, w: World, tx: Tx, now: Time, id: OrderId, slot: Slot)
    requires !tx.CommitItem?
    ensures Total(Apply(env, w, tx, now).handlers, SoldFor(id, slot)) == Total(w.handlers, SoldFor(id, slot))
  {
    var next := Apply(env, w, tx, now).handlers;
    if !StepsHandler(tx) {
      HandlersLeft(env, w, tx, now);
    } else if Execute(env, w, tx, now).Done? {
      if tx.LoadSettlement? {
        TotalAppend(w.handlers, next[|w.handlers|], SoldFor(id, slot));
      } else {
        TotalUpdate(w.handlers, tx.handler, next[tx.handler], SoldFor(id, slot));
      }
    }
  }

  /** The columns that a hold depends on. */
  lemma HoldColumnsStay(env: Env, w: World, tx: Tx, now: Time, id: OrderId)
    requires !tx.CancelOrder? && id < |w.orders|
    ensures id < |Apply(env, w, tx, now).orders|
    ensures var o, n := w.orders[id], Apply(env, w, tx, now).orders[id];
            n.station == o.station && n.items == o.items && n.cancellationReason == o.cancellationReason
  {
    hide Execute;
    RowFrame(env, w, tx, now, id);
    if EntersStatus(tx) && Execute(env, w, tx, now).Done? { StatusWriteRow(env, w, tx, now); }
  }

  lemma HoldsStay(env: Env, w: World, tx: Tx, now: Time, id: OrderId, slot: Slot)
    requires !tx.CancelOrder? && !tx.CommitItem? && id < |w.orders|
    ensures HeldAt(Apply(env, w, tx, now), slot)(id) == HeldAt(w, slot)(id)
  {
    hide Execute, Apply;
    HoldColumnsStay(env, w, tx, now, id);
    SoldStays(env, w, tx, now, id, slot);
  }

  lemma OthersKeepLedger(env: Env, w: World, tx: Tx, now: Time)
    requires Ledger(w) && (!MovesStock(tx) || tx.AdjustStock?)
    ensures Ledger(Apply(env, w, tx, now))
  {
    var next := Apply(env, w, tx, now);
    if tx.AdjustStock? {
      assert next.orders == w.orders && next.handlers == w.handlers;
    } else {
      StockLeft(env, w, tx, now);
    }
    OthersHoldTheSame(env, w, tx, now);
    FrameKeepsLedger(w, next);
  }

  lemma OthersHoldTheSame(env: Env, w: World, tx: Tx, now: Time)
    requires !tx.CreateOrder? && !tx.CancelOrder? && !tx.CommitItem?
    ensures SameHolds(w, Apply(env, w, tx, now))
  {
    hide Execute, Apply;
    NewRows(env, w, tx, now);
    forall id: OrderId | id < |w.orders|
      ensures Apply(env, w, tx, now).orders[id].station == w.orders[id].station
              && Apply(env, w, tx, now).orders[id].items == w.orders[id].items
    {
      HoldColumnsStay(env, w, tx, now, id);
    }
    forall id: OrderId, slot: Slot | id < |w.orders|
      ensures HeldAt(Apply(env, w, tx, now), slot)(id) == HeldAt(w, slot)(id)
    {
      HoldsStay(env, w, tx, now, id, slot);
    }
  }

  // ---------------------------------------------------------------- creation and new rows

  lemma CreateKeepsLedger(w: World, d: Draft)
    requires HandlersFit(w) && Ledger(w) && PlaceOrder(w, d).Done?
    ensures Ledger(PlaceOrder(w, d).world)
  {
    var next, n := PlaceOrder(w, d).world, |w.orders|;
    ReserveNeedsEveryRow(w.stock, d.station, d.items);
    ReserveRefinesAggregate(w.stock, d.station, d.items);
    forall slot | slot in next.stock ensures next.stock[slot].reserved == SumTo(n + 1, HeldAt(next, slot)) {
      TotalZero(w.handlers, SoldFor(n, slot));
      SumCongruent(n, HeldAt(w, slot), HeldAt(next, slot));
    }
  }

  lemma UpsertKeepsLedger(w: World, slot: Slot)
    requires HandlersFit(w) && Ledger(w)
    ensures Ledger(Upsert(w, slot))
  {
    var next := Upsert(w, slot);
    if slot !in w.stock {
      forall id: OrderId | id < |w.orders| ensures HeldAt(next, slot)(id) == 0 {
        NothingAtNewRow(w, id, slot);
      }
      SumZeroIff(|w.orders|, HeldAt(next, slot));
    }
    forall other | other in w.stock ensures next.stock[other].reserved == SumTo(|next.orders|, HeldAt(next, other)) {
      SumCongruent(|w.orders|, HeldAt(w, other), HeldAt(next, other));
    }
  }

  lemma NothingAtNewRow(w: World, id: OrderId, slot: Slot)
    requires HandlersFit(w) && AllRowsExist(w) && slot !in w.stock && id < |w.orders|
    ensures Wanted(w.orders[id], slot) == 0 && Total(w.handlers, SoldFor(id, slot)) == 0
  {
    if w.orders[id].station == slot.station {
      DemandOfAbsent(w.orders[id].items, slot.kind);
    }
    forall i | 0 <= i < |w.handlers| ensures SoldFor(id, slot)(w.handlers[i]) == 0 {
      var h := w.handlers[i];
      assert HandlerFits(w, h);
      if h.order == id && h.station == slot.station { DemandOfPart(h.items, h.done, slot.kind); }
    }
    TotalZero(w.handlers, SoldFor(id, slot));
  }

  // ---------------------------------------------------------------- cancellations

  /** What a committed cancellation does, however stale: the order holds nothing any more, and every row
    * loses what the loop drains from it. */
  lemma CancelWrites(env: Env, w: World, tx: Tx, now: Time)
    requires tx.CancelOrder? && Execute(env, w, tx, now).Done?
    ensures tx.order < |w.orders|
    ensures var o, next := w.orders[tx.order], Apply(env, w, tx, now);
            && |next.orders| == |w.orders| && next.handlers == w.handlers
            && next.stock == ReleaseAll(w.stock, o.station, o.items)
            && next.orders == w.orders[tx.order := next.orders[tx.order]]
            && SameFacts(o, next.orders[tx.order])
            && next.orders[tx.order].cancellationReason.Some?
  {
  }

  /** The loop takes off each row exactly what the order holds there. */
  ghost predicate DrainsWhatIsHeld(w: World, id: OrderId)
    requires id < |w.orders|
  {
    var o := w.orders[id];
    forall slot :: slot in w.stock && slot.station == o.station ==>
      Drained(o.items, slot.kind, w.stock[slot].reserved) == HeldAt(w, slot)(id)
  }

  lemma CancelMovesSums(w: World, next: World, id: OrderId, slot: Slot)
    requires id < |w.orders| == |next.orders| && next.handlers == w.handlers
    requires next.orders == w.orders[id := next.orders[id]] && next.orders[id].cancellationReason.Some?
    ensures SumTo(|w.orders|, HeldAt(next, slot)) == SumTo(|w.orders|, HeldAt(w, slot)) - HeldAt(w, slot)(id)
  {
    SumChangesAt(|w.orders|, HeldAt(w, slot), HeldAt(next, slot), id);
  }

  /** The ledger survives a cancellation, serial or stale, exactly when the release loop takes off each
    * row what the order still holds there. */
  lemma CancelKeepsLedgerIff(env: Env, w: World, tx: Tx, now: Time)
    requires HandlersFit(w) && Ledger(w) && tx.CancelOrder? && Execute(env, w, tx, now).Done?
    ensures tx.order < |w.orders|
    ensures Ledger(Apply(env, w, tx, now)) <==> DrainsWhatIsHeld(w, tx.order)
  {
    hide Execute, Apply;
    CancelWrites(env, w, tx, now);
    var next, o := Apply(env, w, tx, now), w.orders[tx.order];
    ReleaseDrains(w.stock, o.station, o.items);
    forall slot | slot in w.stock
      ensures next.stock[slot].reserved == SumTo(|next.orders|, HeldAt(next, slot)) <==>
              (slot.station == o.station ==>
                 Drained(o.items, slot.kind, w.stock[slot].reserved) == HeldAt(w, slot)(tx.order))
    {
      CancelMovesSums(w, next, tx.order, slot);
      if slot.station != o.station { SoldElsewhere(w, tx.order, slot); }
    }
  }

  /** An order holds nothing at another station. */
  lemma SoldElsewhere(w: World, id: OrderId, slot: Slot)
    requires HandlersFit(w) && id < |w.orders| && slot.station != w.orders[id].station
    ensures HeldAt(w, slot)(id) == 0
  {
    forall i | 0 <= i < |w.handlers| ensures SoldFor(id, slot)(w.handlers[i]) == 0 {
      assert HandlerFits(w, w.handlers[i]);
    }
    TotalZero(w.handlers, SoldFor(id, slot));
  }

  /** An item that the release loop skips, or that is worth nothing. */
  predicate PassedOver(w: World, o: Order, item: Item) {
    item.quantity == 0
    || (Slot(o.station, item.kind) in w.stock && w.stock[Slot(o.station, item.kind)].reserved < item.quantity)
  }

  /** For an order none of whose items is committed: the ledger survives a cancellation exactly when the
    * order was not cancelled already or the loop skips every item. */
  lemma StaleCancelIff(env: Env, w: World, tx: Tx, now: Time)
    requires Settled(w) && Ledger(w) && tx.CancelOrder? && Execute(env, w, tx, now).Done?
    requires forall slot :: Total(w.handlers, SoldFor(tx.order, slot)) == 0
    ensures tx.order < |w.orders|
    ensures Ledger(Apply(env, w, tx, now)) <==>
            var o := w.orders[tx.order];
            o.cancellationReason.None? || forall item :: item in o.items ==> PassedOver(w, o, item)
  {
    hide Execute, Apply;
    CancelKeepsLedgerIff(env, w, tx, now);
    var id, o := tx.order, w.orders[tx.order];
    if o.cancellationReason.None? {
      forall slot | slot in w.stock && slot.station == o.station
        ensures Drained(o.items, slot.kind, w.stock[slot].reserved) == HeldAt(w, slot)(id)
      {
        HeldIsReserved(w, id, slot);
        DrainsDemand(o.items, slot.kind, w.stock[slot].reserved);
      }
    } else {
      forall slot | slot in w.stock && slot.station == o.station
        ensures Drained(o.items, slot.kind, w.stock[slot].reserved) == 0 <==>
                forall item :: item in o.items && item.kind == slot.kind ==> PassedOver(w, o, item)
      {
        DrainsNothingIff(o.items, slot.kind, w.stock[slot].reserved);
      }
      SkippedByRow(w, o);
    }
  }

  lemma SkippedByRow(w: World, o: Order)
    requires RowsExist(w.stock, o.station, o.items)
    ensures (forall item :: item in o.items ==> PassedOver(w, o, item)) <==>
            forall slot :: slot in w.stock && slot.station == o.station ==>
              forall item :: item in o.items && item.kind == slot.kind ==> PassedOver(w, o, item)
  {
    if forall slot :: slot in w.stock && slot.station == o.station ==>
         forall item :: item in o.items && item.kind == slot.kind ==> PassedOver(w, o, item)
    {
      forall item | item in o.items ensures PassedOver(w, o, item) {
        assert Slot(o.station, item.kind) in w.stock;
      }
    }
  }

  /** A serial cancellation takes off exactly the order's demand: the guard of the release loop
    * never skips an item and its `Math.max` never clips. */
  lemma CancelReleasesExactly(env: Env, w: World, tx: Tx, now: Time)
    requires Settled(w) && Ledger(w) && tx.CancelOrder? && Serial(w, tx) && Execute(env, w, tx, now).Done?
    ensures tx.order < |w.orders| && w.orders[tx.order].cancellationReason.None?
    ensures forall slot :: Total(w.handlers, SoldFor(tx.order, slot)) == 0
    ensures Shifted(w.stock, Apply(env, w, tx, now).stock, w.orders[tx.order].station, w.orders[tx.order].items, -1)
  {
    CancellableUntouched(env, w, tx, now);
    CancelWrites(env, w, tx, now);
    var o := w.orders[tx.order];
    forall item | item in o.items
      ensures w.stock[Slot(o.station, item.kind)].reserved >= Demand(o.items, item.kind)
    {
      HeldIsReserved(w, tx.order, Slot(o.station, item.kind));
    }
    ReleaseTakesExactlyTheDemand(w.stock, o.station, o.items);
  }

  lemma CancellableUntouched(env: Env, w: World, tx: Tx, now: Time)
    requires Settled(w) && tx.CancelOrder? && Serial(w, tx) && Execute(env, w, tx, now).Done?
    ensures tx.order < |w.orders| && w.orders[tx.order].cancellationReason.None?
    ensures forall slot :: Total(w.handlers, SoldFor(tx.order, slot)) == 0
  {
    var o := w.orders[tx.order];
    assert ColumnsAgree(o);
    ConfirmationsOfPath(o);
    TotalNonNegative(w.handlers, HandlerOf(tx.order));
    forall slot ensures Total(w.handlers, SoldFor(tx.order, slot)) == 0 {
      SoldIsBounded(w, tx.order, slot);
    }
  }

  // ---------------------------------------------------------------- commits

  /** What the handler's order still holds covers the item it commits next. */
  lemma NextItemIsHeld(w: World, h: nat)
    requires Settled(w) && Serial(w, CommitItem(h)) && CanCommit(w, h)
    ensures var handler := w.handlers[h];
            var item := handler.items[handler.done];
            && handler.order < |w.orders| && handler.items == w.orders[handler.order].items
            && handler.station == w.orders[handler.order].station
            && HeldAt(w, Slot(handler.station, item.kind))(handler.order) >= item.quantity
  {
    var handler := w.handlers[h];
    var o, n := w.orders[handler.order], handler.done;
    var kind := handler.items[n].kind;
    assert HandlerFits(w, handler);
    assert ColumnsAgree(o);
    SoldIsBounded(w, handler.order, Slot(handler.station, kind));
    DemandOfNext(o.items, n, kind);
    DemandOfPart(o.items, n + 1, kind);
  }

  /** A serial commit finds its row and never clips: both counts drop by the quantity. */
  lemma CommitTakesExactly(w: World, h: nat)
    requires Settled(w) && Ledger(w) && Serial(w, CommitItem(h)) && CanCommit(w, h)
    ensures var handler := w.handlers[h];
            var item := handler.items[handler.done];
            var slot := Slot(handler.station, item.kind);
            && slot in w.stock && w.stock[slot].reserved >= item.quantity
            && CommitNext(w, h) ==
               Done(w.(stock := w.stock[slot := Inventory(w.stock[slot].filled - item.quantity, w.stock[slot].empty,
                                                          w.stock[slot].reserved - item.quantity,
                                                          w.stock[slot].version + 1)],
                       handlers := w.handlers[h := handler.(done := handler.done + 1)]))
  {
    hide Settled, HeldAt;
    var handler := w.handlers[h];
    NextItemIsHeld(w, h);
    assert handler.items[handler.done] in w.orders[handler.order].items;
    HeldIsReserved(w, handler.order, Slot(handler.station, handler.items[handler.done].kind));
  }

  /** The row of the next item that the handler commits. */
  function NextSlot(w: World, h: nat): Slot
    requires CanCommit(w, h)
  {
    Slot(w.handlers[h].station, w.handlers[h].items[w.handlers[h].done].kind)
  }

  function NextQuantity(w: World, h: nat): nat
    requires CanCommit(w, h)
  {
    w.handlers[h].items[w.handlers[h].done].quantity
  }

  /** In any database: every commit finds its row, and takes the quantity off the shelf and, clipped at zero,
    * off the reserved count. */
  lemma CommitFindsRow(w: World, h: nat)
    requires HandlersFit(w) && AllRowsExist(w) && CanCommit(w, h)
    ensures NextSlot(w, h) in w.stock
    ensures var slot, handler := NextSlot(w, h), w.handlers[h];
            CommitNext(w, h) ==
            Done(w.(stock := w.stock[slot := CommitRow(w.stock[slot], NextQuantity(w, h))],
                    handlers := w.handlers[h := handler.(done := handler.done + 1)]))
  {
    var handler := w.handlers[h];
    assert HandlerFits(w, handler);
    assert handler.items[handler.done] in w.orders[handler.order].items;
  }

  /** A commit lowers what its order holds at the row by the quantity, if it still holds anything, and no
    * other hold. */
  lemma CommitMovesHold(w: World, h: nat, id: OrderId, slot: Slot)
    requires HandlersFit(w) && AllRowsExist(w) && CanCommit(w, h) && id < |w.orders|
    ensures CommitNext(w, h).Done?
    ensures HeldAt(CommitNext(w, h).world, slot)(id) == HeldAt(w, slot)(id)
              - (if id == w.handlers[h].order && slot == NextSlot(w, h) && w.orders[id].cancellationReason.None?
                 then NextQuantity(w, h) else 0)
  {
    var handler := w.handlers[h];
    CommitFindsRow(w, h);
    DemandOfNext(handler.items, handler.done, slot.kind);
    TotalUpdate(w.handlers, h, handler.(done := handler.done + 1), SoldFor(id, slot));
  }

  /** The reserved count moves as the hold does: covered by it, or, for an order that was cancelled, not at
    * all. */
  predicate CommitFits(w: World, h: nat)
    requires CanCommit(w, h)
  {
    var handler := w.handlers[h];
    handler.order < |w.orders| && NextSlot(w, h) in w.stock ==>
      var reserved, quantity := w.stock[NextSlot(w, h)].reserved, NextQuantity(w, h);
      if w.orders[handler.order].cancellationReason.None? then reserved >= quantity
      else reserved == 0 || (quantity == 0 && reserved >= 0)
  }

  /** The sums of the holds after a commit. */
  lemma CommitMovesSums(w: World, h: nat, slot: Slot)
    requires HandlersFit(w) && AllRowsExist(w) && CanCommit(w, h)
    ensures CommitNext(w, h).Done? && w.handlers[h].order < |w.orders|
    ensures SumTo(|w.orders|, HeldAt(CommitNext(w, h).world, slot)) == SumTo(|w.orders|, HeldAt(w, slot))
              - (if slot == NextSlot(w, h) && w.orders[w.handlers[h].order].cancellationReason.None?
                 then NextQuantity(w, h) else 0)
  {
    hide CommitNext, HeldAt, NextQuantity, NextSlot;
    CommitFindsRow(w, h);
    var next, id := CommitNext(w, h).world, w.handlers[h].order;
    assert HandlerFits(w, w.handlers[h]);
    forall i: OrderId | i < |w.orders| && i != id ensures HeldAt(w, slot)(i) == HeldAt(next, slot)(i) {
      CommitMovesHold(w, h, i, slot);
    }
    CommitMovesHold(w, h, id, slot);
    SumChangesAt(|w.orders|, HeldAt(w, slot), HeldAt(next, slot), id);
  }

  /** The ledger survives a commit exactly when the reserved count moves as the hold does. */
  lemma CommitKeepsLedgerIff(w: World, h: nat)
    requires HandlersFit(w) && Ledger(w) && CanCommit(w, h)
    ensures CommitNext(w, h).Done?
    ensures Ledger(CommitNext(w, h).world) <==> CommitFits(w, h)
  {
    hide CommitNext, HeldAt, NextQuantity;
    CommitFindsRow(w, h);
    var next := CommitNext(w, h).world;
    assert HandlerFits(w, w.handlers[h]);
    forall slot | slot in w.stock
      ensures next.stock[slot].reserved == SumTo(|next.orders|, HeldAt(next, slot)) <==>
              slot != NextSlot(w, h) || CommitFits(w, h)
    {
      CommitMovesSums(w, h, slot);
    }
    assert next.orders == w.orders;
  }

  // ---------------------------------------------------------------- over every run

  /** What a transaction that writes late may spoil: a cancellation drains what the order holds, a commit
    * takes what it holds. */
  ghost predicate LedgerFits(env: Env, w: World, tx: Tx, now: Time) {
    && (tx.CancelOrder? && Execute(env, w, tx, now).Done? ==> tx.order < |w.orders| && DrainsWhatIsHeld(w, tx.order))
    && (tx.CommitItem? && CanCommit(w, tx.handler) ==> CommitFits(w, tx.handler))
  }

  /** In any database the ledger survives a transaction exactly then; all but cancellations and commits always
    * keep it. */
  lemma {:induction false} LedgerSurvivesIff(env: Env, w: World, tx: Tx, now: Time)
    requires HandlersFit(w) && Ledger(w)
    ensures Ledger(Apply(env, w, tx, now)) <==> LedgerFits(env, w, tx, now)
  {
    hide Ledger, HandlersFit, DrainsWhatIsHeld, CommitFits;
    if tx.CancelOrder? {
      if Execute(env, w, tx, now).Done? { CancelKeepsLedgerIff(env, w, tx, now); }
    } else if tx.CommitItem? {
      if CanCommit(w, tx.handler) { CommitKeepsLedgerIff(w, tx.handler); }
    } else if Execute(env, w, tx, now).Done? {
      if tx.CreateOrder? {
        CreateKeepsLedger(w, tx.draft);
      } else if tx.UpsertInventory? {
        UpsertKeepsLedger(w, tx.slot);
      } else {
        OthersKeepLedger(env, w, tx, now);
      }
    }
  }

  /** Over every run whose cancellations and commits fit, whatever else is stale or overlaps: each reserved
    * count is exactly the sum of what the orders hold. */
  lemma {:induction false} LedgerWhileItFits(env: Env, w: World, calls: seq<Call>)
    requires Initial(w)
    requires forall k :: 0 <= k < |calls| ==> LedgerFits(env, Run(env, w, calls[..k]), calls[k].tx, calls[k].now)
    ensures Ledger(Run(env, w, calls))
  {
    hide Execute, LedgerFits;
    if calls != [] {
      var n := |calls| - 1;
      forall k | 0 <= k < n ensures LedgerFits(env, Run(env, w, calls[..n][..k]), calls[..n][k].tx, calls[..n][k].now) {
        assert calls[..n][..k] == calls[..k];
      }
      LedgerWhileItFits(env, w, calls[..n]);
      HandlersFitOverRuns(env, w, calls[..n]);
      LedgerSurvivesIff(env, Run(env, w, calls[..n]), calls[n].tx, calls[n].now);
    }
  }

  lemma RowsStayInStock(env: Env, w: World, tx: Tx, now: Time)
    ensures w.stock.Keys <= Apply(env, w, tx, now).stock.Keys
  {
    if !MovesStock(tx) {
      StockLeft(env, w, tx, now);
    } else if tx.CreateOrder? {
      if PlaceOrder(w, tx.draft).Done? {
        ReserveNeedsEveryRow(w.stock, tx.draft.station, tx.draft.items);
        ReserveRefinesAggregate(w.stock, tx.draft.station, tx.draft.items);
      }
    } else if tx.CancelOrder? && Execute(env, w, tx, now).Done? {
      CancelWrites(env, w, tx, now);
      ReleaseDrains(w.stock, w.orders[tx.order].station, w.orders[tx.order].items);
    }
  }

  lemma NewOrderHasRows(env: Env, w: World, d: Draft, now: Time)
    requires |Apply(env, w, CreateOrder(d), now).orders| > |w.orders|
    ensures RowsExist(w.stock, d.station, d.items)
  {
    if PlaceOrder(w, d).Done? { ReserveNeedsEveryRow(w.stock, d.station, d.items); }
  }

  lemma KeepsRowsExist(env: Env, w: World, tx: Tx, now: Time)
    requires AllRowsExist(w)
    ensures AllRowsExist(Apply(env, w, tx, now))
  {
    hide Execute, Apply;
    var next := Apply(env, w, tx, now);
    RowsStayInStock(env, w, tx, now);
    NewRows(env, w, tx, now);
    forall i | 0 <= i < |next.orders| ensures RowsExist(next.stock, next.orders[i].station, next.orders[i].items) {
      if i < |w.orders| {
        RowFrame(env, w, tx, now, i);
      } else {
        NewOrderHasRows(env, w, tx.draft, now);
      }
    }
  }

  /** Over every run every order's inventory rows exist. */
  lemma {:induction false} RowsExistOverRuns(env: Env, w: World, calls: seq<Call>)
    requires Initial(w)
    ensures AllRowsExist(Run(env, w, calls))
  {
    hide Execute;
    if calls != [] {
      var n := |calls| - 1;
      RowsExistOverRuns(env, w, calls[..n]);
      KeepsRowsExist(env, Run(env, w, calls[..n]), calls[n].tx, calls[n].now);
    }
  }

  // ---------------------------------------------------------------- serial runs

  /** A serial transaction always fits. */
  lemma SerialFitsLedger(env: Env, w: World, tx: Tx, now: Time)
    requires Settled(w) && Ledger(w) && Serial(w, tx)
    ensures LedgerFits(env, w, tx, now)
  {
    if tx.CancelOrder? && Execute(env, w, tx, now).Done? {
      hide Ledger;
      CancellableUntouched(env, w, tx, now);
      StaleCancelIff(env, w, tx, now);
      CancelKeepsLedgerIff(env, w, tx, now);
    } else if tx.CommitItem? && CanCommit(w, tx.handler) {
      var handler := w.handlers[tx.handler];
      CommitTakesExactly(w, tx.handler);
      assert HandlerFits(w, handler);
      assert ColumnsAgree(w.orders[handler.order]);
    }
  }

  lemma KeepsLedger(env: Env, w: World, tx: Tx, now: Time)
    requires Settled(w) && Ledger(w) && Serial(w, tx)
    ensures Ledger(Apply(env, w, tx, now))
  {
    hide Ledger, Serial, Execute, AllSound, HandlersSound, LedgerFits;
    SerialFitsLedger(env, w, tx, now);
    assert HandlersFit(w) by { SettledFits(w); }
    LedgerSurvivesIff(env, w, tx, now);
  }

  lemma SettledFits(w: World)
    requires Settled(w)
    ensures HandlersFit(w)
  {
  }

  lemma {:induction false} SettledOverRuns(env: Env, w: World, calls: seq<Call>)
    requires Initial(w) && SerialRun(env, w, calls)
    ensures Settled(Run(env, w, calls))
  {
    hide Execute;
    SoundOverRuns(env, w, calls);
    HandlersSoundOverRuns(env, w, calls);
  }

  lemma {:induction false} LedgerOverRuns(env: Env, w: World, calls: seq<Call>)
    requires Initial(w) && SerialRun(env, w, calls)
    ensures Ledger(Run(env, w, calls))
  {
    hide Execute, Serial, Settled;
    if calls != [] {
      var n := |calls| - 1;
      SerialPrefix(env, w, calls, n);
      LedgerOverRuns(env, w, calls[..n]);
      SettledOverRuns(env, w, calls[..n]);
      KeepsLedger(env, Run(env, w, calls[..n]), calls[n].tx, calls[n].now);
    }
  }

  lemma HeldIsLiveOrStranded(w: World, slot: Slot)
    requires Settled(w)
    ensures SumTo(|w.orders|, HeldAt(w, slot)) ==
            SumTo(|w.orders|, LiveAt(w, slot)) + SumTo(|w.orders|, StrandedAt(w, slot))
    ensures SumTo(|w.orders|, LiveAt(w, slot)) >= 0 && SumTo(|w.orders|, StrandedAt(w, slot)) >= 0
    ensures SumTo(|w.orders|, StrandedAt(w, slot)) == 0 <==>
            forall id: OrderId :: id < |w.orders| ==> StrandedAt(w, slot)(id) == 0
  {
    HeldNonNegative(w, slot);
    SumSplits(|w.orders|, HeldAt(w, slot), LiveAt(w, slot), StrandedAt(w, slot));
    SumNonNegative(|w.orders|, LiveAt(w, slot));
    SumNonNegative(|w.orders|, StrandedAt(w, slot));
    SumZeroIff(|w.orders|, StrandedAt(w, slot));
  }

  /** Over every serial run: the reserved count of a row is what the live orders need plus what ended
    * orders have left stranded, so it always covers the live demand and equals it exactly when no ended
    * order holds anything of the row. */
  lemma {:induction false} ReservedIsLivePlusStranded(env: Env, w: World, calls: seq<Call>, slot: Slot)
    requires Initial(w) && SerialRun(env, w, calls) && slot in Run(env, w, calls).stock
    ensures var next := Run(env, w, calls);
            var n, reserved := |next.orders|, next.stock[slot].reserved;
            && reserved == SumTo(n, HeldAt(next, slot))
            && reserved == SumTo(n, LiveAt(next, slot)) + SumTo(n, StrandedAt(next, slot))
            && reserved >= SumTo(n, LiveAt(next, slot)) >= 0
            && (reserved == SumTo(n, LiveAt(next, slot)) <==>
               forall id: OrderId :: id < n ==> StrandedAt(next, slot)(id) == 0)
  {
    hide Execute, Serial;
    LedgerOverRuns(env, w, calls);
    SettledOverRuns(env, w, calls);
    HeldIsLiveOrStranded(Run(env, w, calls), slot);
  }

  // ---------------------------------------------------------------- who strands what

  /** No order that has ended holds anything. */
  ghost predicate NothingStranded(w: World) {
    forall id: OrderId, slot: Slot :: id < |w.orders| && !Live(w.orders[id]) ==> HeldAt(w, slot)(id) == 0
  }

  /** `updateStatus` ending an order by itself, with no stock or money effect. */
  predicate Bypass(tx: Tx) {
    tx.UpdateStatus? && (tx.to == Cancelled || tx.to == Completed)
  }

  /** The order holds something of some row. */
  ghost predicate HoldsSomething(w: World, id: OrderId) {
    exists slot: Slot :: HeldAt(w, slot)(id) != 0
  }

  /** A written row: its new status, when it was not the transaction's to end it. */
  lemma LiveRows(env: Env, w: World, tx: Tx, now: Time, id: OrderId)
    requires AllSound(w) && Serial(w, tx) && !Bypass(tx) && !tx.CancelOrder? && !tx.BookSettlement?
    requires id < |w.orders| && Live(w.orders[id])
    ensures id < |Apply(env, w, tx, now).orders| && Live(Apply(env, w, tx, now).orders[id])
  {
    hide Execute, Serial;
    RowFrame(env, w, tx, now, id);
    if EntersStatus(tx) && tx.order == id && Execute(env, w, tx, now).Done? { PlainWriteIsLive(env, w, tx, now); }
  }

  lemma PlainWriteIsLive(env: Env, w: World, tx: Tx, now: Time)
    requires EntersStatus(tx) && !Bypass(tx) && !tx.CancelOrder? && !tx.BookSettlement?
            && Execute(env, w, tx, now).Done?
    ensures tx.order < |Apply(env, w, tx, now).orders| && Live(Apply(env, w, tx, now).orders[tx.order])
  {
  }

  lemma EndedRows(env: Env, w: World, tx: Tx, now: Time, id: OrderId)
    requires AllSound(w) && Serial(w, tx) && id < |w.orders| && id < |Apply(env, w, tx, now).orders|
    requires Live(w.orders[id]) && !Live(Apply(env, w, tx, now).orders[id])
    ensures Execute(env, w, tx, now).Done? && EntersStatus(tx) && tx.order == id
    ensures Bypass(tx) || tx.CancelOrder? || tx.BookSettlement?
  {
    hide Execute, Serial;
    RowFrame(env, w, tx, now, id);
    if !(Bypass(tx) || tx.CancelOrder? || tx.BookSettlement?) { LiveRows(env, w, tx, now, id); }
  }

  /** Booking and cancelling leave the order nothing. */
  lemma EndingHoldsNothing(env: Env, w: World, tx: Tx, now: Time, slot: Slot)
    requires Settled(w) && (tx.CancelOrder? || tx.BookSettlement?) && Execute(env, w, tx, now).Done?
    ensures HeldAt(Apply(env, w, tx, now), slot)(tx.order) == 0
  {
    hide Execute, Apply, AllSound;
    if tx.BookSettlement? {
      BookedAll(env, w, tx, now);
      var handler := w.handlers[tx.handler];
      assert HandlerFits(w, handler);
      assert handler.items[..handler.done] == handler.items;
      SoldIsBounded(w, tx.order, slot);
      HoldsStay(env, w, tx, now, tx.order, slot);
    } else {
      CancelWrites(env, w, tx, now);
    }
  }

  lemma BookedAll(env: Env, w: World, tx: Tx, now: Time)
    requires tx.BookSettlement? && Execute(env, w, tx, now).Done?
    ensures CanBook(w, tx.order, tx.handler)
  {
  }

  lemma CancelHoldsNothing(env: Env, w: World, tx: Tx, now: Time, id: OrderId, slot: Slot)
    requires Settled(w) && tx.CancelOrder? && id < |w.orders|
    ensures HeldAt(Apply(env, w, tx, now), slot)(id) <= HeldAt(w, slot)(id)
  {
    hide Execute;
    SoldIsBounded(w, id, slot);
    if Execute(env, w, tx, now).Done? { CancelWrites(env, w, tx, now); }
  }

  lemma HoldsOnlyShrink(env: Env, w: World, tx: Tx, now: Time, id: OrderId, slot: Slot)
    requires Settled(w) && Ledger(w) && id < |w.orders|
    ensures HeldAt(Apply(env, w, tx, now), slot)(id) <= HeldAt(w, slot)(id)
  {
    hide HeldAt;
    if tx.CommitItem? {
      hide CommitNext, AllSound;
      CommitIs(env, w, tx, now);
      if CanCommit(w, tx.handler) { CommitMovesHold(w, tx.handler, id, slot); }
    } else if tx.CancelOrder? {
      CancelHoldsNothing(env, w, tx, now, id, slot);
    } else {
      hide Execute, Apply;
      HoldsStay(env, w, tx, now, id, slot);
    }
  }

  lemma CommitIs(env: Env, w: World, tx: Tx, now: Time)
    requires tx.CommitItem?
    ensures if CanCommit(w, tx.handler) && CommitNext(w, tx.handler).Done? then
              Apply(env, w, tx, now) == CommitNext(w, tx.handler).world
            else Apply(env, w, tx, now) == w
  {
  }

  lemma StillNonNegative(env: Env, w: World, tx: Tx, now: Time)
    requires Settled(w) && Serial(w, tx)
    ensures Settled(Apply(env, w, tx, now))
  {
    hide Execute, Serial;
    KeepsSound(env, w, tx, now);
    KeepsHandlersSound(env, w, tx, now);
  }

  /** The order stays empty-handed, or was live and was ended by this transaction. */
  lemma StrandedRow(env: Env, w: World, tx: Tx, now: Time, id: OrderId, slot: Slot)
    requires Settled(w) && Ledger(w) && Serial(w, tx) && NothingStranded(w) && id < |w.orders|
    requires id < |Apply(env, w, tx, now).orders| && !Live(Apply(env, w, tx, now).orders[id])
    ensures HeldAt(Apply(env, w, tx, now), slot)(id) == 0
            || (Bypass(tx) && Execute(env, w, tx, now).Done? && tx.order == id && HoldsSomething(w, id))
  {
    hide Execute, Serial;
    StillNonNegative(env, w, tx, now);
    HeldNonNegative(Apply(env, w, tx, now), slot);
    HoldsOnlyShrink(env, w, tx, now, id, slot);
    if Live(w.orders[id]) {
      EndedRows(env, w, tx, now, id);
      if !Bypass(tx) { EndingHoldsNothing(env, w, tx, now, slot); }
    }
  }

  lemma BypassStrands(env: Env, w: World, tx: Tx, now: Time, slot: Slot)
    requires Bypass(tx) && Execute(env, w, tx, now).Done?
    ensures tx.order < |w.orders| == |Apply(env, w, tx, now).orders|
    ensures !Live(Apply(env, w, tx, now).orders[tx.order])
    ensures HeldAt(Apply(env, w, tx, now), slot)(tx.order) == HeldAt(w, slot)(tx.order)
  {
    HoldsStay(env, w, tx, now, tx.order, slot);
  }

  /** A serial transaction strands cylinders exactly when it is an `updateStatus` that ends an order
    * which still holds some. */
  lemma {:induction false} StrandsIff(env: Env, w: World, tx: Tx, now: Time)
    requires Settled(w) && Ledger(w) && Serial(w, tx) && NothingStranded(w)
    ensures NothingStranded(Apply(env, w, tx, now)) <==>
            !(Bypass(tx) && Execute(env, w, tx, now).Done? && HoldsSomething(w, tx.order))
  {
    hide Execute, Serial;
    var next := Apply(env, w, tx, now);
    if Bypass(tx) && Execute(env, w, tx, now).Done? && HoldsSomething(w, tx.order) {
      var slot: Slot :| HeldAt(w, slot)(tx.order) != 0;
      BypassStrands(env, w, tx, now, slot);
    } else {
      NewRows(env, w, tx, now);
      forall id: OrderId, slot: Slot | id < |next.orders| && !Live(next.orders[id])
        ensures HeldAt(next, slot)(id) == 0
      {
        assert id < |w.orders|;
        StrandedRow(env, w, tx, now, id, slot);
      }
    }
  }

  lemma {:induction false} NothingStrandedOverRuns(env: Env, w: World, calls: seq<Call>)
    requires Initial(w) && SerialRun(env, w, calls)
    requires forall k :: 0 <= k < |calls| ==> !Bypass(calls[k].tx)
    ensures NothingStranded(Run(env, w, calls))
  {
    hide Execute, Serial;
    if calls != [] {
      var n := |calls| - 1;
      SerialPrefix(env, w, calls, n);
      NothingStrandedOverRuns(env, w, calls[..n]);
      SettledOverRuns(env, w, calls[..n]);
      LedgerOverRuns(env, w, calls[..n]);
      StrandsIff(env, Run(env, w, calls[..n]), calls[n].tx, calls[n].now);
    }
  }

  /** When nobody ends an order through `updateStatus`, reserved is exactly the live demand. */
  lemma {:induction false} ReservedEqualsLiveDemand(env: Env, w: World, calls: seq<Call>, slot: Slot)
    requires Initial(w) && SerialRun(env, w, calls) && slot in Run(env, w, calls).stock
    requires forall k :: 0 <= k < |calls| ==> !Bypass(calls[k].tx)
    ensures var next := Run(env, w, calls);
            next.stock[slot].reserved == SumTo(|next.orders|, LiveAt(next, slot))
  {
    hide Execute, Serial;
    ReservedIsLivePlusStranded(env, w, calls, slot);
    NothingStrandedOverRuns(env, w, calls);
  }

  // ---------------------------------------------------------------- overselling

  ghost predicate Covered(stock: Stock) {
    forall slot :: slot in stock ==> 0 <= stock[slot].reserved <= stock[slot].filled
  }

  /** An adjustment that leaves the reserved cylinders on the shelf. */
  ghost predicate CarefulAdjustment(w: World, tx: Tx) {
    tx.AdjustStock? && tx.slot in w.stock ==> w.stock[tx.slot].filled + tx.filledDelta >= w.stock[tx.slot].reserved
  }

  lemma CreateKeepsCovered(w: World, d: Draft)
    requires Covered(w.stock) && PlaceOrder(w, d).Done?
    ensures Covered(PlaceOrder(w, d).world.stock)
  {
    var next := PlaceOrder(w, d).world.stock;
    ReserveNeedsEveryRow(w.stock, d.station, d.items);
    ReserveRefinesAggregate(w.stock, d.station, d.items);
    forall slot | slot in next ensures 0 <= next[slot].reserved <= next[slot].filled {
      if item :| item in d.items && item.kind == slot.kind {
      } else {
        DemandOfAbsent(d.items, slot.kind);
      }
    }
  }

  lemma CancelKeepsCovered(env: Env, w: World, tx: Tx, now: Time)
    requires Settled(w) && Ledger(w) && Covered(w.stock)
    requires tx.CancelOrder? && Serial(w, tx) && Execute(env, w, tx, now).Done?
    ensures Covered(Apply(env, w, tx, now).stock)
  {
    hide Execute, Apply, Serial;
    CancelReleasesExactly(env, w, tx, now);
    var after := Apply(env, w, tx, now).stock;
    forall slot | slot in after ensures 0 <= after[slot].reserved <= after[slot].filled {
      HeldIsReserved(w, tx.order, slot);
    }
  }

  lemma StaffKeepCovered(env: Env, w: World, tx: Tx, now: Time)
    requires Covered(w.stock) && CarefulAdjustment(w, tx)
    requires tx.AdjustStock? || tx.UpsertInventory?
    ensures Covered(Apply(env, w, tx, now).stock)
  {
  }

  lemma KeepsCovered(env: Env, w: World, tx: Tx, now: Time)
    requires Settled(w) && Ledger(w) && Covered(w.stock) && Serial(w, tx) && CarefulAdjustment(w, tx)
    ensures Covered(Apply(env, w, tx, now).stock)
  {
    hide Settled, Ledger;
    if !MovesStock(tx) {
      StockLeft(env, w, tx, now);
    } else if tx.AdjustStock? || tx.UpsertInventory? {
      StaffKeepCovered(env, w, tx, now);
    } else if Execute(env, w, tx, now).Done? {
      if tx.CreateOrder? {
        CreateKeepsCovered(w, tx.draft);
      } else if tx.CancelOrder? {
        CancelKeepsCovered(env, w, tx, now);
      } else {
        CommitTakesExactly(w, tx.handler);
      }
    }
  }

  /** No overselling: if staff never adjust a row below its reserved count, then over every serial
    * run reserved stays between zero and filled, so no commit drives filled below zero. */
  lemma {:induction false} NeverOversold(env: Env, w: World, calls: seq<Call>)
    requires Initial(w) && SerialRun(env, w, calls)
    requires forall k :: 0 <= k < |calls| ==> CarefulAdjustment(Run(env, w, calls[..k]), calls[k].tx)
    ensures Covered(Run(env, w, calls).stock)
  {
    hide Execute, Serial;
    if calls != [] {
      var n := |calls| - 1;
      SerialPrefix(env, w, calls, n);
      forall k | 0 <= k < n ensures CarefulAdjustment(Run(env, w, calls[..n][..k]), calls[..n][k].tx) {
        assert calls[..n][..k] == calls[..k];
      }
      NeverOversold(env, w, calls[..n]);
      SettledOverRuns(env, w, calls[..n]);
      LedgerOverRuns(env, w, calls[..n]);
      KeepsCovered(env, Run(env, w, calls[..n]), calls[n].tx, calls[n].now);
    }
  }

  /** The check of `adjustStock` itself is too weak: an accepted adjustment keeps the counts
    * covered exactly when it is careful. */
  lemma AdjustmentKeepsCoveredIff(w: World, slot: Slot, filledDelta: int, emptyDelta: int)
    requires Covered(w.stock) && Adjust(w, slot, filledDelta, emptyDelta).Done?
    ensures Covered(Adjust(w, slot, filledDelta, emptyDelta).world.stock) <==>
            CarefulAdjustment(w, AdjustStock(slot, filledDelta, emptyDelta))
  {
    var next := Adjust(w, slot, filledDelta, emptyDelta).world.stock;
    assert slot in next;
    assert next[slot].reserved == w.stock[slot].reserved;
  }
}
