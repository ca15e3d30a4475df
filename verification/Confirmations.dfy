/** What the one-time code on an order proves, over all runs. */
module Confirmations {
  import opened Domain
  import opened Transactions
  import opened RowFrames

  /** At step m of the run the order's own customer confirmed it with the order's own code. */
  ghost predicate ConfirmedAt(env: Env, w: World, calls: seq<Call>, m: nat, id: OrderId)
    requires m < |calls|
  {
    var before, tx := Run(env, w, calls[..m]), calls[m].tx;
    && tx.ConfirmDelivery? && tx.order == id && Succeeds(env, w, calls, m)
    && id < |before.orders| && tx.user == before.orders[id].customer && tx.code == before.orders[id].otp
  }

  lemma ConfirmedEarlier(env: Env, w: World, calls: seq<Call>, m: nat, id: OrderId)
    requires m < |calls| - 1 && ConfirmedAt(env, w, calls[..|calls| - 1], m, id)
    ensures ConfirmedAt(env, w, calls, m, id)
  {
    hide Execute;
    assert calls[..|calls| - 1][..m] == calls[..m];
  }

  /** Only a confirmation with the right customer and code marks an order verified. */
  lemma VerifiedStep(env: Env, w: World, tx: Tx, now: Time, id: OrderId)
    requires id < |Apply(env, w, tx, now).orders| && Apply(env, w, tx, now).orders[id].otpVerified
    ensures id < |w.orders|
    ensures w.orders[id].otpVerified
            || (&& tx.ConfirmDelivery? && tx.order == id && Execute(env, w, tx, now).Done?
                && tx.user == w.orders[id].customer && tx.code == w.orders[id].otp)
  {
    hide Execute, Apply;
    NewRows(env, w, tx, now);
    assert id < |w.orders|;
    RowFrame(env, w, tx, now, id);
    if !w.orders[id].otpVerified {
      StatusWriteRowIfDone(env, w, tx, now);
      ConfirmGuards(env, w, tx, now);
    }
  }

  lemma StatusWriteRowIfDone(env: Env, w: World, tx: Tx, now: Time)
    requires EntersStatus(tx)
    ensures Execute(env, w, tx, now).Done? || Apply(env, w, tx, now) == w
    ensures Execute(env, w, tx, now).Done? && !tx.ConfirmDelivery? ==>
              tx.order < |w.orders| && tx.order < |Apply(env, w, tx, now).orders|
              && Apply(env, w, tx, now).orders[tx.order].otpVerified == w.orders[tx.order].otpVerified
  {
    hide Execute;
    if Execute(env, w, tx, now).Done? { StatusWriteRow(env, w, tx, now); }
  }

  lemma ConfirmGuards(env: Env, w: World, tx: Tx, now: Time)
    requires tx.ConfirmDelivery? && Execute(env, w, tx, now).Done?
    ensures tx.order < |w.orders| && tx.user == w.orders[tx.order].customer && tx.code == w.orders[tx.order].otp
  {
  }

  /** Over every run: an order is marked verified only if at some step its customer gave its code. */
  lemma {:induction false} VerifiedMeansCode(env: Env, w: World, calls: seq<Call>, id: OrderId)
    requires Initial(w) && id < |Run(env, w, calls).orders| && Run(env, w, calls).orders[id].otpVerified
    ensures exists m :: 0 <= m < |calls| && ConfirmedAt(env, w, calls, m, id)
  {
    hide Execute;
    if calls != [] {
      var n := |calls| - 1;
      var before := Run(env, w, calls[..n]);
      VerifiedStep(env, before, calls[n].tx, calls[n].now, id);
      if before.orders[id].otpVerified {
        VerifiedMeansCode(env, w, calls[..n], id);
        var m :| 0 <= m < n && ConfirmedAt(env, w, calls[..n], m, id);
        ConfirmedEarlier(env, w, calls, m, id);
      } else {
        assert ConfirmedAt(env, w, calls, n, id);
      }
    }
  }
}
