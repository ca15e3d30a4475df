/** Rider claims under arbitrary interleaving: every transaction may act on stale reads. */
module RiderClaims {
  import opened Prelude
  import opened Domain
  import opened Transactions
  import opened RowFrames
  import opened Settlements

  /** An order's rider, once written, is never changed by anything. */
  lemma {:induction false} RiderWrittenOnce(env: Env, w: World, calls: seq<Call>, n: nat, id: OrderId)
    requires n <= |calls| && id < |Run(env, w, calls[..n]).orders|
    requires Run(env, w, calls[..n]).orders[id].riderId.Some?
    ensures id < |Run(env, w, calls).orders|
    ensures Run(env, w, calls).orders[id].riderId == Run(env, w, calls[..n]).orders[id].riderId
    decreases |calls| - n
  {
    hide Execute;
    if n < |calls| {
      assert calls[..n + 1][..n] == calls[..n];
      RowFrame(env, Run(env, w, calls[..n]), calls[n].tx, calls[n].now, id);
      RiderWrittenOnce(env, w, calls, n + 1, id);
    } else {
      assert calls[..n] == calls;
    }
  }

  lemma ClaimWritesRider(env: Env, w: World, calls: seq<Call>, k: nat)
    requires k < |calls| && calls[k].tx.AssignRider? && Succeeds(env, w, calls, k)
    ensures var before, after := Run(env, w, calls[..k]), Run(env, w, calls[..k + 1]);
            var id := calls[k].tx.order;
            && id < |before.orders| == |after.orders|
            && before.orders[id].riderId.None? && after.orders[id].riderId == Some(calls[k].tx.rider)
            && (calls[k].tx.claim ==> calls[k].tx.rider < |before.riders| == |after.riders|
                                      && before.riders[calls[k].tx.rider].status == Available
                                      && after.riders[calls[k].tx.rider].status == Busy)
  {
    assert calls[..k + 1][..k] == calls[..k];
  }

  lemma LaterClaimFails(env: Env, w: World, calls: seq<Call>, j: nat, k: nat)
    requires j < k < |calls| && calls[j].tx.AssignRider? && calls[k].tx.AssignRider?
    requires calls[j].tx.order == calls[k].tx.order && Succeeds(env, w, calls, j)
    ensures !Succeeds(env, w, calls, k)
  {
    ClaimWritesRider(env, w, calls, j);
    assert calls[..k][..j + 1] == calls[..j + 1];
    RiderWrittenOnce(env, w, calls[..k], j + 1, calls[j].tx.order);
  }

  /** So at most one claim of an order ever goes through, and its rider is the one who keeps it. */
  lemma {:induction false} OrderClaimedOnce(env: Env, w: World, calls: seq<Call>, j: nat)
    requires j < |calls| && calls[j].tx.AssignRider? && Succeeds(env, w, calls, j)
    ensures forall k :: 0 <= k < |calls| && k != j && calls[k].tx.AssignRider? && calls[k].tx.order == calls[j].tx.order
              ==> !Succeeds(env, w, calls, k)
    ensures calls[j].tx.order < |Run(env, w, calls).orders|
    ensures Run(env, w, calls).orders[calls[j].tx.order].riderId == Some(calls[j].tx.rider)
  {
    hide Execute;
    forall k | 0 <= k < |calls| && k != j && calls[k].tx.AssignRider? && calls[k].tx.order == calls[j].tx.order
      ensures !Succeeds(env, w, calls, k)
    {
      if j < k {
        LaterClaimFails(env, w, calls, j, k);
      } else if Succeeds(env, w, calls, k) {
        LaterClaimFails(env, w, calls, k, j);
      }
    }
    ClaimWritesRider(env, w, calls, j);
    RiderWrittenOnce(env, w, calls, j + 1, calls[j].tx.order);
  }

  /** The rider exists and cannot be claimed. */
  predicate Taken(w: World, rider: RiderId) {
    rider < |w.riders| && w.riders[rider].status != Available
  }

  /** The two writers that can set a rider AVAILABLE. */
  predicate Frees(tx: Tx, rider: RiderId) {
    tx == SetAvailability(rider, Available) || (tx.ReleaseRider? && tx.rider == rider)
  }

  lemma MoneyKeepsStatus(env: Env, w: World, tx: Tx, now: Time, rider: RiderId)
    requires MovesMoney(tx) && rider < |w.riders|
    ensures rider < |Apply(env, w, tx, now).riders|
    ensures Apply(env, w, tx, now).riders[rider].status == w.riders[rider].status
  {
  }

  lemma WritersKeepTaken(env: Env, w: World, tx: Tx, now: Time, rider: RiderId)
    requires WritesRider(tx) && Taken(w, rider) && !(Frees(tx, rider) && Execute(env, w, tx, now).Done?)
    ensures Taken(Apply(env, w, tx, now), rider)
  {
  }

  lemma KeepsTaken(env: Env, w: World, tx: Tx, now: Time, rider: RiderId)
    requires Taken(w, rider) && !(Frees(tx, rider) && Execute(env, w, tx, now).Done?)
    ensures Taken(Apply(env, w, tx, now), rider)
  {
    if MovesMoney(tx) {
      MoneyKeepsStatus(env, w, tx, now, rider);
    } else if !WritesRider(tx) {
      hide Execute, Apply;
      RidersLeft(env, w, tx, now);
    } else {
      WritersKeepTaken(env, w, tx, now, rider);
    }
  }

  lemma {:induction false} TakenUntilFreed(env: Env, w: World, calls: seq<Call>, j: nat, k: nat, rider: RiderId)
    requires j <= k <= |calls| && Taken(Run(env, w, calls[..j]), rider)
    requires forall m :: j <= m < k ==> !(Frees(calls[m].tx, rider) && Succeeds(env, w, calls, m))
    ensures Taken(Run(env, w, calls[..k]), rider)
    decreases k - j
  {
    hide Execute;
    if j < k {
      TakenUntilFreed(env, w, calls, j, k - 1, rider);
      assert calls[..k][..k - 1] == calls[..k - 1];
      KeepsTaken(env, Run(env, w, calls[..k - 1]), calls[k - 1].tx, calls[k - 1].now, rider);
    }
  }

  /** No double booking: between two successful claims of one rider as a new job, some step set
    * that rider AVAILABLE. */
  lemma FreedBetweenClaims(env: Env, w: World, calls: seq<Call>, j: nat, k: nat, rider: RiderId)
    requires j < k < |calls|
    requires calls[j].tx.AssignRider? && calls[j].tx.claim && calls[j].tx.rider == rider && Succeeds(env, w, calls, j)
    requires calls[k].tx.AssignRider? && calls[k].tx.claim && calls[k].tx.rider == rider && Succeeds(env, w, calls, k)
    ensures exists m :: j < m < k && Frees(calls[m].tx, rider) && Succeeds(env, w, calls, m)
  {
    hide Execute;
    ClaimWritesRider(env, w, calls, j);
    ClaimWritesRider(env, w, calls, k);
    if forall m :: j + 1 <= m < k ==> !(Frees(calls[m].tx, rider) && Succeeds(env, w, calls, m)) {
      TakenUntilFreed(env, w, calls, j + 1, k, rider);
    }
  }
}
