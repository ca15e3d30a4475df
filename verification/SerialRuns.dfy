/** Every serial run meets the narrower conditions of the theorems about one order, key or scope. */
module SerialRuns {
  import opened Domain
  import opened Pricing
  import opened Transactions
  import opened OrderPaths
  import opened Proximity
  import opened Handlers
  import opened ChangeRequests
  import opened OrderTotals
  import opened Commissions
  import opened StockLedger

  /** What each theorem asks of one transaction. */
  ghost predicate Qualifies(env: Env, w: World, call: Call, id: OrderId, key: Key) {
    && ReallyRead(w, call.tx) && !Oversettles(w, call.tx, id) && SumsFit(w, call.tx, id)
    && !Doubles(w, call.tx, key) && !Clashes(w, call.tx) && LedgerFits(env, w, call.tx, call.now)
    && (forall c :: 0 <= c < |w.changes| ==> !Overturns(w, call.tx, c))
  }

  lemma CurrentWasEntered(w: World, tx: Tx)
    requires Serial(w, tx) && forall i :: 0 <= i < |w.orders| ==> LegalHistory(w.orders[i])
    ensures ReallyRead(w, tx)
  {
    if (tx.UpdateStatus? || tx.ConfirmDelivery? || tx.CancelOrder?) && tx.order < |w.orders| {
      var o := w.orders[tx.order];
      assert o.history[|o.history| - 1].to == tx.seen;
    }
  }

  lemma SerialIsNotStale(w: World, tx: Tx, id: OrderId, key: Key)
    requires Serial(w, tx)
    ensures !Oversettles(w, tx, id) && !Doubles(w, tx, key) && !Clashes(w, tx)
    ensures forall c :: 0 <= c < |w.changes| ==> !Overturns(w, tx, c)
  {
    hide Known, ActiveRate, FreshGroup, StillConfirmed, CanAdd;
  }

  lemma SerialQualifies(env: Env, w: World, call: Call, id: OrderId, key: Key)
    requires Serial(w, call.tx) && Settled(w) && Ledger(w)
    requires forall i :: 0 <= i < |w.orders| ==> LegalHistory(w.orders[i])
    ensures Qualifies(env, w, call, id, key)
  {
    hide Execute, Serial, Settled, Ledger, LedgerFits, SumsFit, LegalHistory, ReallyRead, Oversettles, Doubles, Clashes,
         Overturns;
    CurrentWasEntered(w, call.tx);
    SerialIsNotStale(w, call.tx, id, key);
    SerialFits(w, call.tx, id);
    SerialFitsLedger(env, w, call.tx, call.now);
  }

  lemma ReachedQualifies(env: Env, w: World, calls: seq<Call>, call: Call, id: OrderId, key: Key)
    requires Initial(w) && SerialRun(env, w, calls) && Serial(Run(env, w, calls), call.tx)
    ensures Qualifies(env, Run(env, w, calls), call, id, key)
  {
    hide Execute, Serial, Qualifies, Settled, Ledger;
    var last := Run(env, w, calls);
    SettledOverRuns(env, w, calls);
    LedgerOverRuns(env, w, calls);
    forall i: OrderId | i < |last.orders| ensures LegalHistory(last.orders[i]) {
      HistoryIsLegal(env, w, calls, i);
    }
    SerialQualifies(env, last, call, id, key);
  }

  /** A serial run from an empty database meets every one of the conditions, for every order and key. */
  lemma {:induction false} SerialRunsQualify(env: Env, w: World, calls: seq<Call>, id: OrderId, key: Key)
    requires Initial(w) && SerialRun(env, w, calls)
    ensures SerialFor(env, w, calls, id) && ChecksInPlace(env, w, calls, id) && RealReads(env, w, calls)
    ensures OneLoadPerEvent(env, w, calls, id) && SumsFitThroughout(env, w, calls, id)
    ensures NeverDoubled(env, w, calls, key) && NoClash(env, w, calls)
    ensures forall k :: 0 <= k < |calls| ==> LedgerFits(env, Run(env, w, calls[..k]), calls[k].tx, calls[k].now)
  {
    hide Execute, Serial, Run, ReallyRead, Oversettles, SumsFit, Doubles, Clashes, LedgerFits, Overturns;
    forall k | 0 <= k < |calls| ensures Qualifies(env, Run(env, w, calls[..k]), calls[k], id, key) {
      SerialPrefix(env, w, calls, k);
      assert Serial(Run(env, w, calls[..k]), calls[k].tx);
      ReachedQualifies(env, w, calls[..k], calls[k], id, key);
    }
  }
}
