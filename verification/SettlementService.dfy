/** The confirmation handler: split, commit every reserved item, book, credit the rider. */
module SettlementService {
  import opened Prelude
  import opened Domain
  import opened Pricing
  import opened Transactions
  import opened Tables
  import InventoryService
  import RidersService

  /** The transactions of one handler run with nothing interleaved. */
  function SettleCalls(w: World, id: OrderId, tieUp: bool, now: Time): seq<Call> {
    var items, h := if id < |w.orders| then |w.orders[id].items| else 0, |w.handlers|;
    LoadAndCommit(id, h, tieUp, items, now) + [Call(BookSettlement(id, h), now), Call(CreditPayee(h), now)]
  }

  /** The first part: load and n commits. */
  function LoadAndCommit(id: OrderId, h: nat, tieUp: bool, n: nat, now: Time): seq<Call> {
    [Call(LoadSettlement(id, tieUp), now)] + seq(n, _ => Call(CommitItem(h), now))
  }

  /** `findOne` over the active rules of a scope. */
  method FindActiveRate(rules: seq<Rule>, scope: Option<StationId>) returns (rate: Option<int>)
    ensures rate == ActiveRate(rules, scope)
  {
    for i := 0 to |rules|
      invariant ActiveRate(rules, scope) == ActiveRate(rules[i..], scope)
    {
      assert rules[i..][0] == rules[i] && rules[i..][1..] == rules[i + 1..];
      if rules[i].active && rules[i].scope == scope { return Some(rules[i].rate); }
    }
    return None;
  }

  method GetCommissionPercent(env: Env, rules: seq<Rule>, station: StationId) returns (rate: int)
    ensures rate == CommissionRate(rules, station, env.fallbackRate)
    ensures IsRate(rules, station, env.fallbackRate, rate)
  {
    RateByPrecedence(rules, station, env.fallbackRate);
    var stationRule := FindActiveRate(rules, Some(station));
    if stationRule.Some? { return stationRule.value; }
    var defaultRule := FindActiveRate(rules, None);
    if defaultRule.Some? { return defaultRule.value; }
    return env.fallbackRate;
  }

  /** A handler that never started, or that died, does nothing more. */
  lemma {:induction false} IdleStepsDoNothing(env: Env, w: World, calls: seq<Call>, id: OrderId, h: nat)
    requires forall k :: 0 <= k < |calls| ==> calls[k].tx in {CommitItem(h), BookSettlement(id, h), CreditPayee(h)}
    requires h < |w.handlers| ==> w.handlers[h].stage.Aborted?
    ensures Run(env, w, calls) == w
  {
    if calls != [] {
      IdleStepsDoNothing(env, w, calls[..|calls| - 1], id, h);
    }
  }

  lemma OneMoreCommit(env: Env, w: World, id: OrderId, h: nat, tieUp: bool, n: nat, now: Time)
    ensures Run(env, w, LoadAndCommit(id, h, tieUp, n + 1, now)) ==
            Apply(env, Run(env, w, LoadAndCommit(id, h, tieUp, n, now)), CommitItem(h), now)
  {
    hide Execute, Apply;
    assert LoadAndCommit(id, h, tieUp, n + 1, now) == LoadAndCommit(id, h, tieUp, n, now) + [Call(CommitItem(h), now)];
    RunSnoc(env, w, LoadAndCommit(id, h, tieUp, n, now), Call(CommitItem(h), now));
  }

  /** Once the handler is idle, the rest of its calls changes nothing. */
  lemma RestIsIdle(env: Env, w: World, id: OrderId, tieUp: bool, n: nat, now: Time)
    requires n <= if id < |w.orders| then |w.orders[id].items| else 0
    requires var after := Run(env, w, LoadAndCommit(id, |w.handlers|, tieUp, n, now));
             |w.handlers| < |after.handlers| ==> after.handlers[|w.handlers|].stage.Aborted?
    ensures Run(env, w, SettleCalls(w, id, tieUp, now)) == Run(env, w, LoadAndCommit(id, |w.handlers|, tieUp, n, now))
  {
    hide Execute, Apply;
    var first := LoadAndCommit(id, |w.handlers|, tieUp, n, now);
    var rest := SettleCalls(w, id, tieUp, now)[n + 1..];
    assert SettleCalls(w, id, tieUp, now) == first + rest;
    RunConcat(env, w, first, rest);
    IdleStepsDoNothing(env, Run(env, w, first), rest, id, |w.handlers|);
  }

  lemma LoadOnly(env: Env, w: World, id: OrderId, h: nat, tieUp: bool, now: Time)
    ensures Run(env, w, LoadAndCommit(id, h, tieUp, 0, now)) == Apply(env, w, LoadSettlement(id, tieUp), now)
  {
    hide Execute, Apply;
    assert LoadAndCommit(id, h, tieUp, 0, now) == [] + [Call(LoadSettlement(id, tieUp), now)];
    RunSnoc(env, w, [], Call(LoadSettlement(id, tieUp), now));
  }

  lemma FinishSettling(env: Env, w: World, id: OrderId, tieUp: bool, now: Time)
    requires id < |w.orders|
    ensures var h := |w.handlers|;
            var committed := Run(env, w, LoadAndCommit(id, h, tieUp, |w.orders[id].items|, now));
            Run(env, w, SettleCalls(w, id, tieUp, now)) ==
            Apply(env, Apply(env, committed, BookSettlement(id, h), now), CreditPayee(h), now)
  {
    hide Execute, Apply;
    var h := |w.handlers|;
    var calls := LoadAndCommit(id, h, tieUp, |w.orders[id].items|, now);
    var book, credit := Call(BookSettlement(id, h), now), Call(CreditPayee(h), now);
    RunConcat(env, w, calls, [book, credit]);
    RunTwo(env, Run(env, w, calls), book, credit);
  }

  /** Commits the next item; a missing row aborts the handler. */
  method CommitNextItem(env: Env, db: Database, h: nat, now: Time)
    requires CanCommit(db.Snapshot(), h)
    modifies db`handlers, db`stock
    ensures db.Snapshot() == Apply(env, old(db.Snapshot()), CommitItem(h), now)
    ensures h < |db.handlers| && db.handlers[h].items == old(db.handlers)[h].items
            && db.handlers[h].order == old(db.handlers)[h].order
    ensures db.handlers[h].stage.Aborted?
            || (db.handlers[h].stage.Committing? && db.handlers[h].done == old(db.handlers)[h].done + 1)
  {
    var handler := db.handlers[h];
    var item := handler.items[handler.done];
    var reply := InventoryService.CommitReservation(db, handler.station, item.kind, item.quantity);
    if reply.Ok? {
      db.handlers := db.handlers[h := handler.(done := handler.done + 1)];
    } else {
      db.handlers := db.handlers[h := handler.(stage := Aborted)];
    }
  }

  /** Commits item after item. After an abort the outer transaction rolls back, but the items already
    * committed stay committed. */
  method CommitItems(env: Env, db: Database, ghost w: World, id: OrderId, tieUp: bool, now: Time)
    returns (committed: bool)
    requires var h := |w.handlers|;
             && id < |w.orders| && h < |db.handlers| && db.handlers[h].items == w.orders[id].items
             && db.handlers[h].order == id && db.handlers[h].stage.Committing? && db.handlers[h].done == 0
             && db.Snapshot() == Run(env, w, LoadAndCommit(id, h, tieUp, 0, now)) && |db.handlers| == h + 1
    modifies db`handlers, db`stock
    ensures committed ==>
              var h := |w.handlers|;
              && db.Snapshot() == Run(env, w, LoadAndCommit(id, h, tieUp, |w.orders[id].items|, now))
              && h < |db.handlers| && db.handlers[h].stage.Committing? && db.handlers[h].order == id
              && db.handlers[h].done == |db.handlers[h].items|
    ensures !committed ==> db.Snapshot() == Run(env, w, SettleCalls(w, id, tieUp, now))
  {
    hide Execute, Run;
    var h := |db.handlers| - 1;
    var count := |db.handlers[h].items|;
    for i := 0 to count
      invariant h < |db.handlers| && db.handlers[h].items == w.orders[id].items && db.handlers[h].order == id
      invariant db.handlers[h].stage.Committing? && db.handlers[h].done == i
      invariant db.Snapshot() == Run(env, w, LoadAndCommit(id, h, tieUp, i, now))
    {
      OneMoreCommit(env, w, id, h, tieUp, i, now);
      CommitNextItem(env, db, h, now);
      if db.handlers[h].stage.Aborted? {
        RestIsIdle(env, w, id, tieUp, i + 1, now);
        return false;
      }
    }
    return true;
  }

  /** The order's part and the station's part of the outer transaction. */
  method BookOrder(db: Database, id: OrderId, h: nat, now: Time)
    requires CanBook(db.Snapshot(), id, h)
    modifies db`handlers, db`orders, db`stations
    ensures db.Snapshot() == Book(old(db.Snapshot()), id, h, now).world
  {
    var o, handler := db.orders[id], db.handlers[h];
    db.orders := db.orders[id := o.(status := Completed, stamps := o.stamps[Completed := now], shares := handler.split,
                                    history := o.history + [Entry(Some(CustomerConfirmed), Completed, None)])];
    var recorded := handler.station < |db.stations|;
    if recorded {
      var station := db.stations[handler.station];
      db.stations := db.stations[handler.station := station.(revenue := station.revenue + handler.split.station)];
    }
    db.handlers := db.handlers[h := handler.(stage := Booked(recorded))];
  }

  method CreditRider(db: Database, h: nat)
    requires h < |db.handlers| && db.handlers[h].stage.Booked? && !db.handlers[h].credited
    modifies db`handlers, db`riders
    ensures db.Snapshot() ==
            match Pay(old(db.Snapshot()), h) case Done(next) => next case Failed(_) => old(db.Snapshot())
  {
    var handler := db.handlers[h];
    if handler.payee.Some? && handler.split.rider > 0 {
      var credit := RidersService.CreditWallet(db, handler.payee.value, handler.split.rider, handler.order);
      if credit.Ok? {
        db.handlers := db.handlers[h := handler.(credited := true)];
      }
    }
  }

  /** After the last commit: the outer transaction, then the credit. */
  method FinishOrder(env: Env, db: Database, id: OrderId, h: nat, now: Time)
    requires CanBook(db.Snapshot(), id, h) && !db.handlers[h].credited
    modifies db`handlers, db`orders, db`stations, db`riders
    ensures db.Snapshot() ==
            Apply(env, Apply(env, old(db.Snapshot()), BookSettlement(id, h), now), CreditPayee(h), now)
  {
    BookOrder(db, id, h, now);
    CreditRider(db, h);
  }

  /** The handler of an order that is about to be settled: what it reads of the order, and the split of the
    * total at the rate that the rules give. */
  ghost predicate IsLoaded(env: Env, rules: seq<Rule>, o: Order, id: OrderId, h: Handler) {
    && h.order == id && h.station == o.station && h.items == o.items && h.payee == o.riderId && h.total == o.total
    && h.done == 0 && h.stage.Committing? && !h.credited
    && exists rate :: IsRate(rules, o.station, env.fallbackRate, rate) && IsSplit(h.split, o.total, o.deliveryFee, rate)
  }

  /** Loading goes through exactly for a CUSTOMER_CONFIRMED order and adds its handler. */
  lemma LoadIsExact(env: Env, w: World, id: OrderId, tieUp: bool)
    ensures Load(env, w, id, tieUp).Done? <==> id < |w.orders| && w.orders[id].status == CustomerConfirmed
    ensures Load(env, w, id, tieUp).Done? ==>
              var next := Load(env, w, id, tieUp).world;
              && next == w.(handlers := next.handlers) && |next.handlers| == |w.handlers| + 1
              && next.handlers[..|w.handlers|] == w.handlers
              && IsLoaded(env, w.rules, w.orders[id], id, next.handlers[|w.handlers|])
  {
    if id < |w.orders| {
      var o := w.orders[id];
      var rate := CommissionRate(w.rules, o.station, env.fallbackRate);
      RateByPrecedence(w.rules, o.station, env.fallbackRate);
      SplitIsExact(o.total, o.deliveryFee, rate, tieUp);
      assert IsSplit(SplitOf(o.total, o.deliveryFee, rate, tieUp), o.total, o.deliveryFee, rate);
    }
  }

  /** Reads the order and computes the split; answers whether there is something to settle. */
  method LoadOrder(env: Env, db: Database, id: OrderId, tieUp: bool) returns (loaded: bool)
    modifies db`handlers
    ensures loaded == Load(env, old(db.Snapshot()), id, tieUp).Done?
    ensures db.Snapshot() == if loaded then Load(env, old(db.Snapshot()), id, tieUp).world else old(db.Snapshot())
    ensures loaded <==> id < |db.orders| && db.orders[id].status == CustomerConfirmed
    ensures loaded ==>
              && |db.handlers| == |old(db.handlers)| + 1 && db.handlers[..|old(db.handlers)|] == old(db.handlers)
              && IsLoaded(env, db.rules, db.orders[id], id, db.handlers[|old(db.handlers)|])
  {
    LoadIsExact(env, db.Snapshot(), id, tieUp);
    hide IsLoaded;
    if id >= |db.orders| { return false; }
    if db.orders[id].status == Completed { return false; }
    if db.orders[id].status != CustomerConfirmed { return false; }
    var o := db.orders[id];
    var rate := GetCommissionPercent(env, db.rules, o.station);
    var commission := ToFixed(o.total * rate, 10000, tieUp);
    var riderEarning := ToFixed(o.deliveryFee * RIDER_SHARE_PERCENT, 100, tieUp);
    var split := Split(commission, o.total - commission - riderEarning, riderEarning);
    db.handlers := db.handlers + [Handler(id, o.station, o.items, split, o.total, o.riderId, 0, Committing, false)];
    return true;
  }

  /** The whole handler with nothing interleaved, for any order in any state: exactly its transactions,
    * in order. */
  method Settle(env: Env, db: Database, id: OrderId, tieUp: bool, now: Time)
    modifies db`handlers, db`orders, db`stations, db`stock, db`riders
    ensures db.Snapshot() == Run(env, old(db.Snapshot()), SettleCalls(old(db.Snapshot()), id, tieUp, now))
    ensures id >= |old(db.orders)| || old(db.orders)[id].status != CustomerConfirmed ==>
              db.Snapshot() == old(db.Snapshot())
  {
    hide Run;
    ghost var w := db.Snapshot();
    var h := |db.handlers|;
    var loaded := LoadOrder(env, db, id, tieUp);
    LoadOnly(env, w, id, h, tieUp, now);
    if !loaded {
      RestIsIdle(env, w, id, tieUp, 0, now);
      return;
    }
    var committed := CommitItems(env, db, w, id, tieUp, now);
    if committed {
      CommittedIsBookable(env, w, id, tieUp, |w.orders[id].items|, now);
      FinishSettling(env, w, id, tieUp, now);
      FinishOrder(env, db, id, h, now);
    }
  }

  lemma CommitCreditsNobody(env: Env, w: World, h: nat, now: Time)
    ensures var next := Apply(env, w, CommitItem(h), now);
            && next.orders == w.orders && |next.handlers| == |w.handlers|
            && forall i :: 0 <= i < |w.handlers| ==> next.handlers[i].credited == w.handlers[i].credited
  {
  }

  /** Loading and committing lose no order, and credit nobody. */
  lemma {:induction false} CommittedIsBookable(env: Env, w: World, id: OrderId, tieUp: bool, n: nat, now: Time)
    requires Load(env, w, id, tieUp).Done?
    ensures var after := Run(env, w, LoadAndCommit(id, |w.handlers|, tieUp, n, now));
            && after.orders == w.orders && |after.handlers| == |w.handlers| + 1
            && !after.handlers[|w.handlers|].credited
  {
    if n == 0 {
      LoadOnly(env, w, id, |w.handlers|, tieUp, now);
    } else {
      hide Execute, Apply, Run;
      CommittedIsBookable(env, w, id, tieUp, n - 1, now);
      OneMoreCommit(env, w, id, |w.handlers|, tieUp, n - 1, now);
      CommitCreditsNobody(env, Run(env, w, LoadAndCommit(id, |w.handlers|, tieUp, n - 1, now)), |w.handlers|, now);
    }
  }
}
