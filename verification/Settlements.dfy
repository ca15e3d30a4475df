/** Where the money of the settlements went, handler by handler, over all interleavings of their steps
  * with every other transaction and with each other. */
module Settlements {
  import opened Prelude
  import opened Domain
  import opened Pricing
  import opened Transactions
  import opened OrderPaths
  import opened Handlers

  // What one handler contributes to each account.

  function SettledTotal(): Handler -> int {
    (h: Handler) => if h.stage.Booked? then h.total else 0
  }

  function PlatformShare(): Handler -> int {
    (h: Handler) => if h.stage.Booked? then h.split.commission else 0
  }

  predicate RecordedShare(h: Handler) {
    h.stage.Booked? && h.stage.recorded
  }

  /** Booked on the station's revenue. */
  function RecordedAt(station: StationId): Handler -> int {
    (h: Handler) => if RecordedShare(h) && h.station == station then h.split.station else 0
  }

  function Recorded(): Handler -> int {
    (h: Handler) => if RecordedShare(h) then h.split.station else 0
  }

  /** The station's share when its row does not exist: booked nowhere. */
  function Unrecorded(): Handler -> int {
    (h: Handler) => if h.stage.Booked? && !h.stage.recorded then h.split.station else 0
  }

  predicate Paid(h: Handler) {
    h.stage.Booked? && h.credited
  }

  function CreditedTo(rider: RiderId): Handler -> int {
    (h: Handler) => if Paid(h) && h.payee == Some(rider) then h.split.rider else 0
  }

  function Credited(): Handler -> int {
    (h: Handler) => if Paid(h) then h.split.rider else 0
  }

  /** The rider's share not (or not yet) credited: step pending, failed, or no rider. */
  function Uncredited(): Handler -> int {
    (h: Handler) => if h.stage.Booked? && !h.credited then h.split.rider else 0
  }

  function Revenue(): Station -> int {
    (s: Station) => s.revenue
  }

  function EarnedBy(r: Rider): int {
    if r.wallet.Some? then r.wallet.value.earned else 0
  }

  function Earned(): Rider -> int {
    (r: Rider) => EarnedBy(r)
  }

  function RevenueAt(w: World, station: StationId): int {
    if station < |w.stations| then w.stations[station].revenue else 0
  }

  function EarningsOf(w: World, rider: RiderId): int {
    if rider < |w.riders| then EarnedBy(w.riders[rider]) else 0
  }

  /** A handler's split sums to the total it read, and it credits only after it booked. */
  predicate SplitSums(h: Handler) {
    h.split.commission + h.split.station + h.split.rider == h.total && (h.credited ==> h.stage.Booked?)
  }

  /** The accounts agree with the handlers, counted from the database `start`. */
  ghost predicate Balanced(start: World, w: World) {
    && (forall i :: 0 <= i < |w.handlers| ==> SplitSums(w.handlers[i]))
    && (forall s: StationId :: RevenueAt(w, s) - RevenueAt(start, s) == Total(w.handlers, RecordedAt(s)))
    && (forall r: RiderId :: EarningsOf(w, r) - EarningsOf(start, r) == Total(w.handlers, CreditedTo(r)))
    && Total(w.stations, Revenue()) - Total(start.stations, Revenue()) == Total(w.handlers, Recorded())
    && Total(w.riders, Earned()) - Total(start.riders, Earned()) == Total(w.handlers, Credited())
  }

  // ---------------------------------------------------------------- steps that move no money

  predicate MovesMoney(tx: Tx) {
    tx.BookSettlement? || tx.CreditPayee?
  }

  lemma StationsLeft(env: Env, w: World, tx: Tx, now: Time)
    requires !MovesMoney(tx) && !tx.CreateStation? && !tx.MoveStation?
    ensures Apply(env, w, tx, now).stations == w.stations
  {
    hide Execute, Apply;
    Frames(env, w, tx, now);
  }

  lemma StationWritesKeepRevenue(env: Env, w: World, tx: Tx, now: Time)
    requires tx.CreateStation? || tx.MoveStation?
    ensures var next := Apply(env, w, tx, now);
            && (forall s: StationId :: RevenueAt(next, s) == RevenueAt(w, s))
            && Total(next.stations, Revenue()) == Total(w.stations, Revenue())
  {
    if tx.CreateStation? {
      TotalAppend(w.stations, Station(tx.place, 0), Revenue());
    } else if tx.station < |w.stations| {
      TotalUpdate(w.stations, tx.station, w.stations[tx.station].(place := tx.place), Revenue());
    }
  }

  lemma RevenuesStay(env: Env, w: World, tx: Tx, now: Time)
    requires !MovesMoney(tx)
    ensures var next := Apply(env, w, tx, now);
            && (forall s: StationId :: RevenueAt(next, s) == RevenueAt(w, s))
            && Total(next.stations, Revenue()) == Total(w.stations, Revenue())
  {
    hide Execute, Apply;
    if tx.CreateStation? || tx.MoveStation? {
      StationWritesKeepRevenue(env, w, tx, now);
    } else {
      StationsLeft(env, w, tx, now);
    }
  }

  /** The transactions that write a riders row without earnings. */
  predicate WritesRider(tx: Tx) {
    tx.AssignRider? || tx.ReleaseRider? || tx.SetAvailability? || tx.Withdraw? || tx.RecordLocation?
    || tx.CreateRider? || tx.CreateWallet? || tx.ReviewRider?
  }

  lemma RidersLeft(env: Env, w: World, tx: Tx, now: Time)
    requires !MovesMoney(tx) && !WritesRider(tx)
    ensures Apply(env, w, tx, now).riders == w.riders
  {
    hide Execute, Apply;
    Frames(env, w, tx, now);
  }

  lemma EarningsRow(env: Env, w: World, tx: Tx, now: Time)
    requires WritesRider(tx) && !tx.CreateRider?
    ensures var next := Apply(env, w, tx, now).riders;
            |next| == |w.riders| && forall r :: 0 <= r < |w.riders| ==> EarnedBy(next[r]) == EarnedBy(w.riders[r])
  {
  }

  lemma EarningsStay(env: Env, w: World, tx: Tx, now: Time)
    requires !MovesMoney(tx)
    ensures var next := Apply(env, w, tx, now);
            && (forall r: RiderId :: EarningsOf(next, r) == EarningsOf(w, r))
            && Total(next.riders, Earned()) == Total(w.riders, Earned())
  {
    if !WritesRider(tx) {
      RidersLeft(env, w, tx, now);
    } else if tx.CreateRider? {
      TotalAppend(w.riders, Rider(Offline, false, None, None), Earned());
    } else {
      EarningsRow(env, w, tx, now);
      TotalCongruent(w.riders, Apply(env, w, tx, now).riders, Earned());
    }
  }

  /** The accounts that the two lists of handlers make the same. */
  ghost predicate SameAccounts(handlers: seq<Handler>, next: seq<Handler>) {
    && (forall s: StationId :: Total(next, RecordedAt(s)) == Total(handlers, RecordedAt(s)))
    && (forall r: RiderId :: Total(next, CreditedTo(r)) == Total(handlers, CreditedTo(r)))
    && Total(next, Recorded()) == Total(handlers, Recorded())
    && Total(next, Credited()) == Total(handlers, Credited())
  }

  lemma StartingOwesNothing(handlers: seq<Handler>, h: Handler)
    requires h.stage.Committing?
    ensures SameAccounts(handlers, handlers + [h])
  {
    forall s: StationId ensures Total(handlers + [h], RecordedAt(s)) == Total(handlers, RecordedAt(s)) {
      TotalAppend(handlers, h, RecordedAt(s));
    }
    forall r: RiderId ensures Total(handlers + [h], CreditedTo(r)) == Total(handlers, CreditedTo(r)) {
      TotalAppend(handlers, h, CreditedTo(r));
    }
    TotalAppend(handlers, h, Recorded());
    TotalAppend(handlers, h, Credited());
  }

  lemma AccountsUpdate(handlers: seq<Handler>, i: nat, n: Handler)
    requires i < |handlers|
    ensures forall s: StationId :: Total(handlers[i := n], RecordedAt(s))
              == Total(handlers, RecordedAt(s)) - RecordedAt(s)(handlers[i]) + RecordedAt(s)(n)
    ensures forall r: RiderId :: Total(handlers[i := n], CreditedTo(r))
              == Total(handlers, CreditedTo(r)) - CreditedTo(r)(handlers[i]) + CreditedTo(r)(n)
    ensures Total(handlers[i := n], Recorded()) == Total(handlers, Recorded()) - Recorded()(handlers[i]) + Recorded()(n)
    ensures Total(handlers[i := n], Credited()) == Total(handlers, Credited()) - Credited()(handlers[i]) + Credited()(n)
  {
    forall s: StationId
      ensures Total(handlers[i := n], RecordedAt(s))
              == Total(handlers, RecordedAt(s)) - RecordedAt(s)(handlers[i]) + RecordedAt(s)(n)
    {
      TotalUpdate(handlers, i, n, RecordedAt(s));
    }
    forall r: RiderId
      ensures Total(handlers[i := n], CreditedTo(r))
              == Total(handlers, CreditedTo(r)) - CreditedTo(r)(handlers[i]) + CreditedTo(r)(n)
    {
      TotalUpdate(handlers, i, n, CreditedTo(r));
    }
    TotalUpdate(handlers, i, n, Recorded());
    TotalUpdate(handlers, i, n, Credited());
  }

  lemma CommitOwesNothing(w: World, h: nat)
    requires CommitNext(w, h).Done?
    ensures SameAccounts(w.handlers, CommitNext(w, h).world.handlers)
  {
    AccountsUpdate(w.handlers, h, CommitNext(w, h).world.handlers[h]);
  }

  lemma SplitsStay(env: Env, w: World, tx: Tx, now: Time)
    requires forall i :: 0 <= i < |w.handlers| ==> SplitSums(w.handlers[i])
    ensures var next := Apply(env, w, tx, now);
            forall i :: 0 <= i < |next.handlers| ==> SplitSums(next.handlers[i])
  {
    if !StepsHandler(tx) {
      HandlersLeft(env, w, tx, now);
    } else if tx.LoadSettlement? && Execute(env, w, tx, now).Done? {
      var o := w.orders[tx.order];
      SplitIsExact(o.total, o.deliveryFee, CommissionRate(w.rules, o.station, env.fallbackRate), tx.tieUp);
    }
  }

  lemma HandlersOweTheSame(env: Env, w: World, tx: Tx, now: Time)
    requires !MovesMoney(tx)
    ensures SameAccounts(w.handlers, Apply(env, w, tx, now).handlers)
  {
    if !StepsHandler(tx) {
      HandlersLeft(env, w, tx, now);
    } else if Execute(env, w, tx, now).Done? {
      if tx.LoadSettlement? {
        StartingOwesNothing(w.handlers, Apply(env, w, tx, now).handlers[|w.handlers|]);
      } else {
        CommitOwesNothing(w, tx.handler);
      }
    }
  }

  lemma OthersKeepBalance(env: Env, start: World, w: World, tx: Tx, now: Time)
    requires Balanced(start, w) && !MovesMoney(tx)
    ensures Balanced(start, Apply(env, w, tx, now))
  {
    hide Execute, Apply;
    RevenuesStay(env, w, tx, now);
    EarningsStay(env, w, tx, now);
    SplitsStay(env, w, tx, now);
    HandlersOweTheSame(env, w, tx, now);
  }

  // ---------------------------------------------------------------- steps that move money

  lemma BookKeepsBalance(start: World, w: World, id: OrderId, h: nat, now: Time)
    requires Balanced(start, w) && Book(w, id, h, now).Done?
    ensures Balanced(start, Book(w, id, h, now).world)
  {
    var next := Book(w, id, h, now).world;
    var station := w.handlers[h].station;
    AccountsUpdate(w.handlers, h, next.handlers[h]);
    if station < |w.stations| {
      TotalUpdate(w.stations, station, next.stations[station], Revenue());
    }
  }

  lemma PayKeepsBalance(start: World, w: World, h: nat)
    requires Balanced(start, w) && Pay(w, h).Done?
    ensures Balanced(start, Pay(w, h).world)
  {
    var next := Pay(w, h).world;
    var rider := w.handlers[h].payee.value;
    AccountsUpdate(w.handlers, h, next.handlers[h]);
    TotalUpdate(w.riders, rider, next.riders[rider], Earned());
  }

  lemma {:induction false} BalancedOverRuns(env: Env, w: World, calls: seq<Call>)
    requires Initial(w)
    ensures Balanced(w, Run(env, w, calls))
  {
    if calls != [] {
      var n := |calls| - 1;
      BalancedOverRuns(env, w, calls[..n]);
      var before, tx, now := Run(env, w, calls[..n]), calls[n].tx, calls[n].now;
      if !MovesMoney(tx) {
        OthersKeepBalance(env, w, before, tx, now);
      } else if Execute(env, before, tx, now).Done? {
        if tx.BookSettlement? {
          BookKeepsBalance(w, before, tx.order, tx.handler, now);
        } else {
          PayKeepsBalance(w, before, tx.handler);
        }
      }
    }
  }

  lemma {:induction false} SharesAddUp(handlers: seq<Handler>)
    requires forall i :: 0 <= i < |handlers| ==> SplitSums(handlers[i])
    ensures Total(handlers, SettledTotal()) ==
            Total(handlers, PlatformShare()) + Total(handlers, Recorded()) + Total(handlers, Unrecorded())
            + Total(handlers, Credited()) + Total(handlers, Uncredited())
  {
    if handlers != [] {
      SharesAddUp(handlers[..|handlers| - 1]);
    }
  }

  /** Conservation over every interleaving, however many handlers an order gets: what the settlements
    * booked is the platform's commission, plus the growth of station revenue, plus the growth of wallet
    * earnings, plus the rider shares not credited, plus the shares of stations without a row. */
  lemma {:induction false} MoneyIsConserved(env: Env, w: World, calls: seq<Call>)
    requires Initial(w)
    ensures var next := Run(env, w, calls);
            Total(next.handlers, SettledTotal()) ==
            Total(next.handlers, PlatformShare())
            + (Total(next.stations, Revenue()) - Total(w.stations, Revenue())) + Total(next.handlers, Unrecorded())
            + (Total(next.riders, Earned()) - Total(w.riders, Earned())) + Total(next.handlers, Uncredited())
  {
    BalancedOverRuns(env, w, calls);
    SharesAddUp(Run(env, w, calls).handlers);
  }

  /** And every share went where it belongs: each station's revenue grew by the shares of the settlements
    * of its orders, each rider's earnings by the shares of those that named that rider. */
  lemma {:induction false} EachAccountHasItsOwn(env: Env, w: World, calls: seq<Call>, station: StationId,
                                                rider: RiderId)
    requires Initial(w)
    ensures var next := Run(env, w, calls);
            && RevenueAt(next, station) - RevenueAt(w, station) == Total(next.handlers, RecordedAt(station))
            && EarningsOf(next, rider) - EarningsOf(w, rider) == Total(next.handlers, CreditedTo(rider))
  {
    BalancedOverRuns(env, w, calls);
  }

  // ---------------------------------------------------------------- credits per order

  function CreditsIn(log: seq<Posting>, id: OrderId): nat {
    if log == [] then 0
    else CreditsIn(log[..|log| - 1], id)
         + (if log[|log| - 1].kind == Credit && log[|log| - 1].order == Some(id) then 1 else 0)
  }

  /** Credit postings for the order in the rider's log. */
  function CreditsFor(id: OrderId): Rider -> int {
    (r: Rider) => if r.wallet.Some? then CreditsIn(r.wallet.value.log, id) else 0
  }

  function CreditedFor(id: OrderId): Handler -> int {
    (h: Handler) => if h.credited && h.order == id then 1 else 0
  }

  lemma PostingCounts(log: seq<Posting>, p: Posting, id: OrderId)
    ensures CreditsIn(log + [p], id) == CreditsIn(log, id) + (if p.kind == Credit && p.order == Some(id) then 1 else 0)
  {
    assert (log + [p])[..|log|] == log;
  }

  lemma CreditsRow(env: Env, w: World, tx: Tx, now: Time, id: OrderId)
    requires WritesRider(tx) && !tx.CreateRider?
    ensures var next := Apply(env, w, tx, now).riders;
            |next| == |w.riders| && forall r :: 0 <= r < |w.riders| ==>
                CreditsFor(id)(next[r]) == CreditsFor(id)(w.riders[r])
  {
    if tx.Withdraw? && Execute(env, w, tx, now).Done? {
      var wallet := w.riders[tx.rider].wallet.value;
      PostingCounts(wallet.log, Posting(Debit, tx.sum, wallet.available - tx.sum, None), id);
    }
  }

  lemma CreditsStay(env: Env, w: World, tx: Tx, now: Time, id: OrderId)
    requires !tx.CreditPayee?
    ensures Total(Apply(env, w, tx, now).riders, CreditsFor(id)) == Total(w.riders, CreditsFor(id))
  {
    if tx.CreateRider? {
      TotalAppend(w.riders, Rider(Offline, false, None, None), CreditsFor(id));
    } else {
      hide Execute, Apply;
      if WritesRider(tx) {
        CreditsRow(env, w, tx, now, id);
        TotalCongruent(w.riders, Apply(env, w, tx, now).riders, CreditsFor(id));
      } else {
        Frames(env, w, tx, now);
      }
    }
  }

  lemma PayCountsOnce(w: World, h: nat, id: OrderId)
    requires Pay(w, h).Done?
    ensures var next, one := Pay(w, h).world, if id == w.handlers[h].order then 1 else 0;
            && Total(next.riders, CreditsFor(id)) == Total(w.riders, CreditsFor(id)) + one
            && Total(next.handlers, CreditedFor(id)) == Total(w.handlers, CreditedFor(id)) + one
  {
    var handler, next := w.handlers[h], Pay(w, h).world;
    var rider := handler.payee.value;
    var wallet := w.riders[rider].wallet.value;
    var amount := handler.split.rider;
    PostingCounts(wallet.log, Posting(Credit, amount, wallet.available + amount, Some(handler.order)), id);
    TotalUpdate(w.riders, rider, next.riders[rider], CreditsFor(id));
    TotalUpdate(w.handlers, h, next.handlers[h], CreditedFor(id));
  }

  lemma CreditedStay(env: Env, w: World, tx: Tx, now: Time, id: OrderId)
    requires !tx.CreditPayee?
    ensures Total(Apply(env, w, tx, now).handlers, CreditedFor(id)) == Total(w.handlers, CreditedFor(id))
  {
    var next := Apply(env, w, tx, now);
    if !StepsHandler(tx) {
      HandlersLeft(env, w, tx, now);
    } else if Execute(env, w, tx, now).Done? {
      if tx.LoadSettlement? {
        TotalAppend(w.handlers, next.handlers[|w.handlers|], CreditedFor(id));
      } else {
        TotalUpdate(w.handlers, tx.handler, next.handlers[tx.handler], CreditedFor(id));
      }
    }
  }

  /** Over every run the wallets hold one credit for each credited settlement of an order, no more and
    * no fewer. */
  lemma {:induction false} CreditsAreCreditedHandlers(env: Env, w: World, calls: seq<Call>, id: OrderId)
    requires Initial(w)
    ensures var next := Run(env, w, calls);
            Total(next.riders, CreditsFor(id)) - Total(w.riders, CreditsFor(id)) ==
                Total(next.handlers, CreditedFor(id))
  {
    hide Apply;
    if calls != [] {
      var n := |calls| - 1;
      CreditsAreCreditedHandlers(env, w, calls[..n], id);
      var before, tx, now := Run(env, w, calls[..n]), calls[n].tx, calls[n].now;
      if tx.CreditPayee? {
        PayStep(env, before, tx, now, id);
      } else {
        CreditsStay(env, before, tx, now, id);
        CreditedStay(env, before, tx, now, id);
      }
    }
  }

  lemma PayStep(env: Env, w: World, tx: Tx, now: Time, id: OrderId)
    requires tx.CreditPayee?
    ensures var next := Apply(env, w, tx, now);
            Total(next.riders, CreditsFor(id)) - Total(w.riders, CreditsFor(id))
              == Total(next.handlers, CreditedFor(id)) - Total(w.handlers, CreditedFor(id))
  {
    if Execute(env, w, tx, now).Done? { PayCountsOnce(w, tx.handler, id); }
  }

  /** Over every run in which each confirmation event of the order starts at most one `settle`, whatever
    * else is stale or overlaps: its rider is credited at most as often as the order was confirmed. */
  lemma {:induction false} CreditsWithinEvents(env: Env, w: World, calls: seq<Call>, id: OrderId)
    requires Initial(w) && OneLoadPerEvent(env, w, calls, id)
    ensures Total(Run(env, w, calls).riders, CreditsFor(id)) - Total(w.riders, CreditsFor(id))
            <= EventsOf(Run(env, w, calls), id)
  {
    hide Execute, Oversettles;
    var next := Run(env, w, calls);
    CreditsAreCreditedHandlers(env, w, calls, id);
    HandlersWithinEvents(env, w, calls, id);
    TotalMonotone(next.handlers, CreditedFor(id), HandlerOf(id));
  }

  /** If the order's own status writes are serial as well, it is credited at most once. */
  lemma {:induction false} CreditedAtMostOnce(env: Env, w: World, calls: seq<Call>, id: OrderId)
    requires Initial(w) && SerialFor(env, w, calls, id) && OneLoadPerEvent(env, w, calls, id)
    ensures Total(Run(env, w, calls).riders, CreditsFor(id)) - Total(w.riders, CreditsFor(id)) <= 1
  {
    hide Execute, Serial, Oversettles;
    var next := Run(env, w, calls);
    CreditsAreCreditedHandlers(env, w, calls, id);
    OneHandlerPerOrder(env, w, calls, id);
    TotalMonotone(next.handlers, CreditedFor(id), HandlerOf(id));
  }
}
