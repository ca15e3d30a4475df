/** What one undisturbed settlement does: the handler's transactions, taken together. */
module SettlementEffect {
  import opened Prelude
  import opened Domain
  import opened Lifecycle
  import opened StockLevels
  import opened Pricing
  import opened Transactions
  import opened OrderHistory
  import opened Handlers
  import opened StockLedger
  import opened SettlementService

  /** `after` is `before` with the items gone from the shelf and, as far as they are there, from the
    * reservations. */
  ghost predicate Sold(before: Stock, after: Stock, station: StationId, items: seq<Item>) {
    && after.Keys == before.Keys
    && forall slot :: slot in before ==>
      var sold := if slot.station == station then Demand(items, slot.kind) else 0;
      && after[slot].filled == before[slot].filled - sold
      && after[slot].reserved == Max(0, before[slot].reserved - sold)
      && after[slot].empty == before[slot].empty
  }

  ghost predicate NoneNegative(stock: Stock) {
    forall slot :: slot in stock ==> stock[slot].reserved >= 0
  }

  /** The order waits for a settlement, and every row it was reserved from exists. */
  ghost predicate Settleable(w: World, id: OrderId) {
    && id < |w.orders| && w.orders[id].status == CustomerConfirmed
    && RowsExist(w.stock, w.orders[id].station, w.orders[id].items) && NoneNegative(w.stock)
  }

  function SplitNow(env: Env, w: World, id: OrderId, tieUp: bool): Split
    requires id < |w.orders|
  {
    var o := w.orders[id];
    SplitOf(o.total, o.deliveryFee, CommissionRate(w.rules, o.station, env.fallbackRate), tieUp)
  }

  /** The handler of the order with n items committed. */
  function Committed(env: Env, w: World, id: OrderId, tieUp: bool, n: nat): Handler
    requires id < |w.orders|
  {
    var o := w.orders[id];
    Handler(id, o.station, o.items, SplitNow(env, w, id, tieUp), o.total, o.riderId, n, Committing, false)
  }

  /** One more item sold. */
  lemma SoldOneMore(before: Stock, middle: Stock, station: StationId, items: seq<Item>, n: nat)
    requires n < |items| && Sold(before, middle, station, items[..n])
    requires Slot(station, items[n].kind) in middle
    ensures var slot := Slot(station, items[n].kind);
            Sold(before, middle[slot := CommitRow(middle[slot], items[n].quantity)], station, items[..n + 1])
  {
    var slot := Slot(station, items[n].kind);
    var after := middle[slot := CommitRow(middle[slot], items[n].quantity)];
    assert after.Keys == before.Keys;
    forall other | other in before
      ensures Demand(items[..n + 1], other.kind) ==
              Demand(items[..n], other.kind) + (if items[n].kind == other.kind then items[n].quantity else 0)
    {
      DemandOfNext(items, n, other.kind);
    }
  }

  /** n items of the order are sold by a new handler, and nothing else has happened since `w`. */
  ghost predicate PartSold(env: Env, w: World, id: OrderId, tieUp: bool, n: nat, after: World)
    requires id < |w.orders| && n <= |w.orders[id].items|
  {
    && after == w.(handlers := w.handlers + [Committed(env, w, id, tieUp, n)], stock := after.stock)
    && Sold(w.stock, after.stock, w.orders[id].station, w.orders[id].items[..n])
  }

  lemma LoadSellsNothing(env: Env, w: World, id: OrderId, tieUp: bool, now: Time)
    requires Settleable(w, id)
    ensures PartSold(env, w, id, tieUp, 0, Apply(env, w, LoadSettlement(id, tieUp), now))
  {
  }

  lemma CommitStep(env: Env, w: World, h: nat, now: Time)
    requires CanCommit(w, h) && Slot(w.handlers[h].station, w.handlers[h].items[w.handlers[h].done].kind) in w.stock
    ensures var handler := w.handlers[h];
            var item := handler.items[handler.done];
            var slot := Slot(handler.station, item.kind);
            Apply(env, w, CommitItem(h), now) ==
            w.(stock := w.stock[slot := CommitRow(w.stock[slot], item.quantity)],
               handlers := w.handlers[h := handler.(done := handler.done + 1)])
  {
  }

  lemma CommitSellsOneMore(env: Env, w: World, id: OrderId, tieUp: bool, n: nat, before: World, now: Time)
    requires Settleable(w, id) && n < |w.orders[id].items|
    requires PartSold(env, w, id, tieUp, n, before)
    ensures Serial(before, CommitItem(|w.handlers|))
    ensures PartSold(env, w, id, tieUp, n + 1, Apply(env, before, CommitItem(|w.handlers|), now))
  {
    hide Execute, Apply;
    var o, h := w.orders[id], |w.handlers|;
    assert o.items[n] in o.items;
    CommitStep(env, before, h, now);
    SoldOneMore(w.stock, before.stock, o.station, o.items, n);
  }

  lemma {:induction false} CommitsSell(env: Env, w: World, id: OrderId, tieUp: bool, n: nat, now: Time)
    requires Settleable(w, id) && n <= |w.orders[id].items|
    ensures EventLeft(w, id) ==> SerialRun(env, w, LoadAndCommit(id, |w.handlers|, tieUp, n, now))
    ensures PartSold(env, w, id, tieUp, n, Run(env, w, LoadAndCommit(id, |w.handlers|, tieUp, n, now)))
  {
    hide Execute, Apply, Run, PartSold;
    var h := |w.handlers|;
    if n == 0 {
      var load := Call(LoadSettlement(id, tieUp), now);
      assert LoadAndCommit(id, h, tieUp, 0, now) == [load];
      LoadOnly(env, w, id, h, tieUp, now);
      LoadSellsNothing(env, w, id, tieUp, now);
      if EventLeft(w, id) { SingleCallIsSerial(env, w, load); }
    } else {
      var calls, commit := LoadAndCommit(id, h, tieUp, n - 1, now), Call(CommitItem(h), now);
      CommitsSell(env, w, id, tieUp, n - 1, now);
      CommitSellsOneMore(env, w, id, tieUp, n - 1, Run(env, w, calls), now);
      assert LoadAndCommit(id, h, tieUp, n, now) == calls + [commit];
      RunSnoc(env, w, calls, commit);
      if EventLeft(w, id) { SerialSnoc(env, w, calls, commit); }
    }
  }

  /** The rider to credit, if there is one with a wallet and a share. */
  predicate Creditable(w: World, payee: Option<RiderId>, share: int) {
    payee.Some? && share > 0 && HasWallet(w, payee.value)
  }

  /** Orders, stations and riders after the handler's booking and credit. */
  function BookedWorld(w: World, handler: Handler, now: Time): World
    requires handler.order < |w.orders|
  {
    var id, payee := handler.order, handler.payee;
    w.(orders := w.orders[id :=
        Advance(w.orders[id], CustomerConfirmed, Completed, None, now).(shares := handler.split)],
       stations := AddRevenue(w.stations, handler.station, handler.split.station),
       riders :=
         if Creditable(w, payee, handler.split.rider) then
           var wallet := w.riders[payee.value].wallet.value;
           w.riders[payee.value := w.riders[payee.value].(wallet := Some(CreditTo(wallet, handler.split.rider, id)))]
         else w.riders)
  }

  lemma BookAndPay(env: Env, w: World, id: OrderId, h: nat, now: Time)
    requires CanBook(w, id, h) && !w.handlers[h].credited
    ensures var handler := w.handlers[h];
            var done := handler.(stage := Booked(handler.station < |w.stations|),
                                 credited := Creditable(w, handler.payee, handler.split.rider));
            Apply(env, Apply(env, w, BookSettlement(id, h), now), CreditPayee(h), now) ==
            BookedWorld(w, handler, now).(handlers := w.handlers[h := done])
  {
  }

  /** One undisturbed settlement of a CUSTOMER_CONFIRMED order, in any state of the database and however
    * often the order was settled before: it completes the order, takes exactly its items off the shelf
    * and what is left of them out of the reservations, adds the station's share to its revenue, credits
    * the rider's share, and touches nothing else. */
  lemma SettlementIsExact(env: Env, w: World, id: OrderId, tieUp: bool, now: Time)
    requires Settleable(w, id)
    ensures var next := Run(env, w, SettleCalls(w, id, tieUp, now));
            var o, handler := w.orders[id], Committed(env, w, id, tieUp, |w.orders[id].items|);
            && Sold(w.stock, next.stock, o.station, o.items)
            && next == BookedWorld(w, handler, now).(
                 stock := next.stock,
                 handlers := w.handlers + [handler.(stage := Booked(o.station < |w.stations|),
                                                    credited := Creditable(w, o.riderId, handler.split.rider))])
  {
    hide Execute, Apply, Run, Sold, SplitNow, CreditTo, Advance, AddRevenue;
    var items, h := w.orders[id].items, |w.handlers|;
    CommitsSell(env, w, id, tieUp, |items|, now);
    assert items[..|items|] == items;
    FinishSettling(env, w, id, tieUp, now);
    BookAndPay(env, Run(env, w, LoadAndCommit(id, h, tieUp, |items|, now)), id, h, now);
  }

  /** The stations after the settlement. */
  ghost predicate StationPaid(before: seq<Station>, after: seq<Station>, station: StationId, share: int) {
    && |after| == |before|
    && forall i :: 0 <= i < |before| ==>
         after[i] == if i == station then Station(before[i].place, before[i].revenue + share) else before[i]
  }

  /** The riders after the settlement: one wallet has one more credit, if there is one to credit. */
  ghost predicate RiderPaid(before: seq<Rider>, after: seq<Rider>, payee: Option<RiderId>, share: int, id: OrderId) {
    && |after| == |before|
    && forall i :: 0 <= i < |before| ==>
         if payee == Some(i) && share > 0 && before[i].wallet.Some? then
           var v := before[i].wallet.value;
           after[i] == before[i].(wallet := Some(
             Wallet(v.available + share, v.earned + share, v.withdrawn, v.version + 1,
                    v.log + [Posting(Credit, share, v.available + share, Some(id))])))
         else after[i] == before[i]
  }

  /** A settlement by columns: some rate that the rules give, the split at that rate, and where each share goes. */
  ghost predicate IsSettled(env: Env, before: World, after: World, id: OrderId, now: Time)
    requires id < |before.orders|
  {
    && |after.orders| == |before.orders|
    && var o, s := before.orders[id], after.orders[id].shares;
    && (exists rate :: IsRate(before.rules, o.station, env.fallbackRate, rate)
          && IsSplit(s, o.total, o.deliveryFee, rate))
    && after.orders == before.orders[id :=
         o.(status := Completed, shares := s, stamps := o.stamps[Completed := now],
            history := o.history + [Entry(Some(CustomerConfirmed), Completed, None)])]
    && Sold(before.stock, after.stock, o.station, o.items)
    && StationPaid(before.stations, after.stations, o.station, s.station)
    && RiderPaid(before.riders, after.riders, o.riderId, s.rider, id)
  }

  /** What one undisturbed settlement comes to. */
  lemma SettlementPays(env: Env, w: World, id: OrderId, tieUp: bool, now: Time)
    requires Settleable(w, id)
    ensures IsSettled(env, w, Run(env, w, SettleCalls(w, id, tieUp, now)), id, now)
  {
    hide Execute, Apply, Run, Sold;
    SettlementIsExact(env, w, id, tieUp, now);
    var o := w.orders[id];
    RateByPrecedence(w.rules, o.station, env.fallbackRate);
    SplitIsExact(o.total, o.deliveryFee, CommissionRate(w.rules, o.station, env.fallbackRate), tieUp);
    assert IsSplit(SplitNow(env, w, id, tieUp), o.total, o.deliveryFee,
                   CommissionRate(w.rules, o.station, env.fallbackRate));
  }

  lemma LastStepsAreSerial(env: Env, w: World, id: OrderId, tieUp: bool, after: World, later: World)
    requires Settleable(w, id) && PartSold(env, w, id, tieUp, |w.orders[id].items|, after)
    ensures Serial(after, BookSettlement(id, |w.handlers|)) && Serial(later, CreditPayee(|w.handlers|))
  {
  }

  /** In every reachable serial state, the first settlement of an order is serial too, and finds all its
    * items reserved: nothing is clipped. */
  lemma FirstSettlementIsSerial(env: Env, w: World, id: OrderId, tieUp: bool, now: Time)
    requires Settled(w) && Ledger(w) && Settleable(w, id) && EventLeft(w, id)
    ensures SerialRun(env, w, SettleCalls(w, id, tieUp, now))
    ensures forall slot :: slot in w.stock && slot.station == w.orders[id].station ==>
              w.stock[slot].reserved >= Demand(w.orders[id].items, slot.kind)
  {
    hide Execute, Serial;
    FirstSettlementCovered(w, id);
    var items, h := w.orders[id].items, |w.handlers|;
    var first := LoadAndCommit(id, h, tieUp, |items|, now);
    var book, credit := Call(BookSettlement(id, h), now), Call(CreditPayee(h), now);
    hide Execute, Apply, Run, Serial, PartSold, Settled, Ledger;
    CommitsSell(env, w, id, tieUp, |items|, now);
    LastStepsAreSerial(env, w, id, tieUp, Run(env, w, first), Run(env, w, first + [book]));
    SerialSnoc(env, w, first, book);
    SerialSnoc(env, w, first + [book], credit);
    assert SettleCalls(w, id, tieUp, now) == first + [book] + [credit];
  }

  lemma FirstSettlementCovered(w: World, id: OrderId)
    requires Settled(w) && Ledger(w) && Settleable(w, id) && EventLeft(w, id)
    ensures forall slot :: slot in w.stock && slot.station == w.orders[id].station ==>
              w.stock[slot].reserved >= Demand(w.orders[id].items, slot.kind)
  {
    var o := w.orders[id];
    assert ColumnsAgree(o);
    ConfirmationsOfPath(o);
    TotalNonNegative(w.handlers, HandlerOf(id));
    forall slot | slot in w.stock && slot.station == o.station
      ensures w.stock[slot].reserved >= Demand(o.items, slot.kind)
    {
      SoldIsBounded(w, id, slot);
      HeldIsReserved(w, id, slot);
    }
  }

  // ---------------------------------------------------------------- no settlement dies half-way

  ghost predicate NoneAborted(w: World) {
    forall i :: 0 <= i < |w.handlers| ==> !w.handlers[i].stage.Aborted?
  }

  lemma OthersDoNotAbort(env: Env, w: World, tx: Tx, now: Time)
    requires NoneAborted(w) && !tx.CommitItem?
    ensures NoneAborted(Apply(env, w, tx, now))
  {
    if !StepsHandler(tx) { HandlersLeft(env, w, tx, now); }
  }

  lemma KeepsNoneAborted(env: Env, w: World, tx: Tx, now: Time)
    requires HandlersFit(w) && AllRowsExist(w) && NoneAborted(w)
    ensures NoneAborted(Apply(env, w, tx, now))
  {
    if !tx.CommitItem? {
      OthersDoNotAbort(env, w, tx, now);
    } else if CanCommit(w, tx.handler) {
      CommitFindsRow(w, tx.handler);
    }
  }

  /** Over every run, whatever is stale or overlaps, no settlement dies half-way for want of an inventory
    * row: every commit finds the row that the reservation had. */
  lemma {:induction false} NoSettlementAborts(env: Env, w: World, calls: seq<Call>)
    requires Initial(w)
    ensures NoneAborted(Run(env, w, calls))
  {
    hide Execute;
    if calls != [] {
      var n := |calls| - 1;
      NoSettlementAborts(env, w, calls[..n]);
      HandlersFitOverRuns(env, w, calls[..n]);
      RowsExistOverRuns(env, w, calls[..n]);
      KeepsNoneAborted(env, Run(env, w, calls[..n]), calls[n].tx, calls[n].now);
    }
  }
}
