/** Rider profiles, availability, search and wallets. */
module RidersService {
  import opened Prelude
  import opened Domain
  import opened Transactions
  import opened Dispatch
  import opened Tables

  lemma RiderCreated(env: Env, w: World, now: Time)
    ensures Apply(env, w, Tx.CreateRider, now) == w.(riders := w.riders + [Rider(Offline, false, None, None)])
  {
  }

  lemma WalletCreated(env: Env, w: World, one: World, now: Time)
    requires one == w.(riders := w.riders + [Rider(Offline, false, None, None)])
    ensures Apply(env, one, Tx.CreateWallet(|w.riders|), now) ==
            w.(riders := w.riders + [Rider(Offline, false, None, Some(Wallet(0, 0, 0, 1, [])))])
  {
    var two := w.riders + [Rider(Offline, false, None, Some(Wallet(0, 0, 0, 1, [])))];
    assert one.riders[|w.riders| := two[|w.riders|]] == two;
  }

  lemma ProfileRun(env: Env, w: World, now: Time)
    ensures Run(env, w, [Call(Tx.CreateRider, now), Call(Tx.CreateWallet(|w.riders|), now)]) ==
            w.(riders := w.riders + [Rider(Offline, false, None, Some(Wallet(0, 0, 0, 1, [])))])
  {
    hide Execute, Apply, Run;
    RiderCreated(env, w, now);
    WalletCreated(env, w, Apply(env, w, Tx.CreateRider, now), now);
    RunTwo(env, w, Call(Tx.CreateRider, now), Call(Tx.CreateWallet(|w.riders|), now));
  }

  /** A new profile is a riders row and then an empty wallet for it. */
  method CreateProfile(env: Env, db: Database, now: Time) returns (rider: RiderId)
    modifies db`riders
    ensures rider == |old(db.riders)|
    ensures db.Snapshot() ==
            Run(env, old(db.Snapshot()), [Call(Tx.CreateRider, now), Call(Tx.CreateWallet(rider), now)])
    ensures db.riders == old(db.riders) + [Rider(Offline, false, None, Some(Wallet(0, 0, 0, 1, [])))]
  {
    hide Run;
    ProfileRun(env, db.Snapshot(), now);
    rider := |db.riders|;
    db.riders := db.riders + [Rider(Offline, false, None, None)];
    db.riders := db.riders[rider := db.riders[rider].(wallet := Some(Wallet(0, 0, 0, 1, [])))];
  }

  method SetAvailability(db: Database, rider: RiderId, status: RiderStatus) returns (reply: Reply)
    modifies db`riders
    ensures reply.Ok? <==> rider < |old(db.riders)|
    ensures db.riders ==
            if rider < |old(db.riders)|
            then old(db.riders)[rider := old(db.riders)[rider].(status := status)]
            else old(db.riders)
  {
    if rider >= |db.riders| { return Refusal(NotFound); }
    db.riders := db.riders[rider := db.riders[rider].(status := status)];
    return Ok;
  }

  /** An administrator's decision on a rider's papers. */
  method ReviewVerification(env: Env, db: Database, rider: RiderId, verified: bool, now: Time) returns (reply: Reply)
    modifies db`riders
    ensures db.Snapshot() == Apply(env, old(db.Snapshot()), Tx.ReviewRider(rider, verified), now)
    ensures reply == if rider < |old(db.riders)| then Ok else Refusal(NotFound)
    ensures |db.riders| == |old(db.riders)|
    ensures forall i :: 0 <= i < |db.riders| ==>
              db.riders[i].(verified := old(db.riders)[i].verified) == old(db.riders)[i]
              && db.riders[i].verified == if i == rider then verified else old(db.riders)[i].verified
  {
    if rider >= |db.riders| { return Refusal(NotFound); }
    db.riders := db.riders[rider := db.riders[rider].(verified := verified)];
    return Ok;
  }

  /** The nearest available, verified and located rider within the search radius, by a scan that
    * keeps the best so far. */
  method FindNearestAvailable(env: Env, riders: seq<Rider>, center: Coords) returns (best: Option<RiderId>)
    ensures best == Nearest(env, riders, center)
    ensures IsNearest(env, riders, center, best)
  {
    best := None;
    for i := 0 to |riders|
      invariant best == Nearest(env, riders[..i], center)
    {
      assert riders[..i + 1][..i] == riders[..i];
      if Matchable(env, riders[i], center) {
        if best.None? || env.km(center, riders[i].place.value) < env.km(center, riders[best.value].place.value) {
          best := Some(i);
        }
      }
    }
    assert riders[..|riders|] == riders;
    NearestIsNearest(env, riders, center);
  }

  method CreditWallet(db: Database, rider: RiderId, amount: int, order: OrderId) returns (reply: Reply)
    modifies db`riders
    ensures if HasWallet(old(db.Snapshot()), rider) then
              reply == Ok && db.riders == old(db.riders)[rider :=
                old(db.riders)[rider].(wallet := Some(CreditTo(old(db.riders)[rider].wallet.value, amount, order)))]
            else reply == Refusal(NotFound) && db.riders == old(db.riders)
    ensures reply.Ok? <==> rider < |old(db.riders)| && old(db.riders)[rider].wallet.Some?
    ensures reply.Ok? ==>
              var v := old(db.riders)[rider].wallet.value;
              db.riders == old(db.riders)[rider := old(db.riders)[rider].(wallet := Some(
                Wallet(v.available + amount, v.earned + amount, v.withdrawn, v.version + 1,
                       v.log + [Posting(Credit, amount, v.available + amount, Some(order))])))]
  {
    if rider >= |db.riders| || db.riders[rider].wallet.None? { return Refusal(NotFound); }
    var wallet := db.riders[rider].wallet.value;
    var newBalance := wallet.available + amount;
    var posted := wallet.(available := newBalance, earned := wallet.earned + amount, version := wallet.version + 1,
                          log := wallet.log + [Posting(Credit, amount, newBalance, Some(order))]);
    db.riders := db.riders[rider := db.riders[rider].(wallet := Some(posted))];
    return Ok;
  }

  method RequestWithdrawal(db: Database, rider: RiderId, amount: int) returns (reply: Reply)
    modifies db`riders
    ensures Did(old(db.Snapshot()), db.Snapshot(), TakeOut(old(db.Snapshot()), rider, amount), reply)
    ensures reply ==
            if rider >= |old(db.riders)| || old(db.riders)[rider].wallet.None? then Refusal(NotFound)
            else if old(db.riders)[rider].wallet.value.available < amount then Refusal(BadRequest) else Ok
    ensures if reply.Ok? then
              var v := old(db.riders)[rider].wallet.value;
              db.riders == old(db.riders)[rider := old(db.riders)[rider].(wallet := Some(
                Wallet(v.available - amount, v.earned, v.withdrawn + amount, v.version + 1,
                       v.log + [Posting(Debit, amount, v.available - amount, None)])))]
            else db.riders == old(db.riders)
  {
    if rider >= |db.riders| || db.riders[rider].wallet.None? { return Refusal(NotFound); }
    var wallet := db.riders[rider].wallet.value;
    if wallet.available < amount { return Refusal(BadRequest); }
    var newBalance := wallet.available - amount;
    var posted := wallet.(available := newBalance, withdrawn := wallet.withdrawn + amount,
                          version := wallet.version + 1,
                          log := wallet.log + [Posting(Debit, amount, newBalance, None)]);
    db.riders := db.riders[rider := db.riders[rider].(wallet := Some(posted))];
    return Ok;
  }
}
