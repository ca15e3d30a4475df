/** Payment initiation and verification. */
module PaymentsService {
  import opened Prelude
  import opened Domain
  import opened Transactions
  import opened PaymentRetries
  import opened ChangeRequests
  import opened Tables

  /** Reuses the payment that already has the key, or inserts one. */
  method Initiate(db: Database, order: OrderId, amount: int, key: Option<Key>)
    returns (payment: PaymentId, inserted: bool)
    modifies db`payments
    ensures db.payments ==
            Transactions.Initiate(old(db.Snapshot()), order, amount, key, Known(old(db.Snapshot()), key)).payments
    ensures payment < |db.payments|
    ensures key.Some? ==> db.payments[payment].key == key
    ensures inserted <==> !Known(old(db.Snapshot()), key)
    ensures inserted ==> payment == |old(db.payments)|
    ensures inserted <==> key.None? || forall p :: 0 <= p < |old(db.payments)| ==> old(db.payments)[p].key != key
    ensures db.payments ==
            if inserted then old(db.payments) + [Payment(order, amount, key, Initiated, 0)] else old(db.payments)
  {
    if key.Some? { KnownIff(db.Snapshot(), key.value); }
    if key.Some? {
      var i := 0;
      while i < |db.payments|
        invariant i <= |db.payments|
        invariant PaymentWithKey(db.payments, key.value, 0) == PaymentWithKey(db.payments, key.value, i)
      {
        if db.payments[i].key == key {
          return i, false;
        }
        i := i + 1;
      }
    }
    payment, inserted := |db.payments|, true;
    db.payments := db.payments + [Payment(order, amount, key, Initiated, 0)];
  }

  /** A completed payment is left alone; otherwise the provider's answer is recorded. */
  method VerifyPayment(db: Database, payment: PaymentId, answer: Verification) returns (reply: Reply)
    modifies db`payments, db`completions
    ensures if payment < |old(db.payments)| && old(db.payments)[payment].status == Paid
            then reply == Ok && db.Snapshot() == old(db.Snapshot())
            else Did(old(db.Snapshot()), db.Snapshot(), Record(old(db.Snapshot()), payment, answer), reply)
    ensures reply == if payment < |old(db.payments)| then Ok else Refusal(NotFound)
    ensures reply.Ok? ==>
              var p := old(db.payments)[payment];
              var paid, failed := p.status != Paid && answer.VerifiedPaid?, p.status != Paid && answer.VerifiedFailed?;
              && db.payments == old(db.payments)[payment :=
                   p.(status := if paid then Paid else if failed then Declined else p.status)]
              && db.completions == old(db.completions) + if paid then [Completion(payment, p.order)] else []
  {
    if payment >= |db.payments| { return Refusal(NotFound); }
    var p := db.payments[payment];
    if p.status == Paid { return Ok; }
    match answer {
      case VerifiedPaid =>
        db.payments := db.payments[payment := p.(status := Paid)];
        db.completions := db.completions + [Completion(payment, p.order)];
      case VerifiedFailed =>
        db.payments := db.payments[payment := p.(status := Declined)];
      case StillPending =>
    }
    return Ok;
  }

  /** A inserted payment is marked once its provider took it on. */
  method MarkTaken(env: Env, db: Database, payment: PaymentId, now: Time)
    requires payment < |db.payments|
    modifies db`payments
    ensures db.Snapshot() == Apply(env, old(db.Snapshot()), MarkProcessing(payment), now)
    ensures db.payments == old(db.payments)[payment := old(db.payments)[payment].(status := Processing)]
  {
    db.payments := db.payments[payment := db.payments[payment].(status := Processing)];
  }

  /** One page of failed payments, oldest rows first. */
  method FindFailed(payments: seq<Payment>) returns (ids: seq<PaymentId>)
    ensures ids == RetryPage(payments)
  {
    ids := [];
    for i := 0 to |payments|
      invariant ids == Declines(payments[..i])
    {
      assert payments[..i + 1][..i] == payments[..i];
      if payments[i].status == Declined { ids := ids + [i]; }
    }
    assert payments[..|payments|] == payments;
    if |ids| > RETRY_PAGE { ids := ids[..RETRY_PAGE]; }
  }

  /** Counts one retry and looks the payment up; a lookup that throws does not count as retried. */
  method RetryPayment(env: Env, db: Database, ghost rows: seq<Payment>, id: PaymentId, count: nat, answers: Answers,
                      now: Time)
    returns (done: bool)
    requires id < |db.payments| && id < |rows| && rows[id].retries == count < MAX_RETRIES
    modifies db`payments, db`completions
    ensures db.Snapshot() == Run(env, old(db.Snapshot()), RetryOne(env, old(db.Snapshot()), rows, id, answers, now))
    ensures done <==> answers(id).Some?
    ensures |db.payments| == |old(db.payments)|
  {
    hide Execute;
    ghost var w := db.Snapshot();
    ghost var calls := RetryOne(env, w, rows, id, answers, now);
    StepsOfOne(env, w, id, count, StillPending, now);
    db.payments := db.payments[id := db.payments[id].(retries := count + 1)];
    ghost var counted := db.Snapshot();
    if answers(id).None? {
      assert [calls[0]][..0] == [];
      return false;
    }
    StepsOfOne(env, counted, id, 0, answers(id).value, now);
    if counted.payments[id].status == Paid {
      assert [calls[0]][..0] == [];
    } else {
      RunTwo(env, w, calls[0], calls[1]);
    }
    var _ := VerifyPayment(db, id, answers(id).value);
    return true;
  }

  lemma {:induction false} NextRetry(env: Env, w: World, rows: seq<Payment>, ids: seq<PaymentId>, answers: Answers,
                                     now: Time)
    requires ids != []
    ensures var next := Run(env, w, RetryOne(env, w, rows, ids[0], answers, now));
            Run(env, w, RetryCalls(env, w, rows, ids, answers, now)) ==
            Run(env, next, RetryCalls(env, next, rows, ids[1..], answers, now))
  {
    var first := RetryOne(env, w, rows, ids[0], answers, now);
    RunConcat(env, w, first, RetryCalls(env, Run(env, w, first), rows, ids[1..], answers, now));
  }

  /** The retry job: passes over payments that used up their retries, survives lookups that throw,
    * and reports how many lookups went through. */
  method RetryFailedPayments(env: Env, db: Database, answers: Answers, now: Time) returns (retried: nat)
    modifies db`payments, db`completions
    ensures var w := old(db.Snapshot());
            db.Snapshot() == Run(env, w, RetryCalls(env, w, w.payments, RetryPage(w.payments), answers, now))
    ensures retried == RetryCount(old(db.payments), RetryPage(old(db.payments)), answers)
    ensures old(db.completions) <= db.completions
    ensures Passed(old(db.payments), db.payments, db.completions[|old(db.completions)|..], retried, answers)
  {
    hide Execute, Run, Passed;
    PassIsPassed(env, db.Snapshot(), answers, now);
    var rows := db.payments;
    var failed := FindFailed(rows);
    DeclinesAreDeclined(rows);
    assert forall id :: id in failed ==> id in Declines(rows);
    ghost var goal := Run(env, db.Snapshot(), RetryCalls(env, db.Snapshot(), rows, failed, answers, now));
    retried := 0;
    for i := 0 to |failed|
      invariant |db.payments| == |rows|
      invariant goal == Run(env, db.Snapshot(), RetryCalls(env, db.Snapshot(), rows, failed[i..], answers, now))
      invariant retried + RetryCount(rows, failed[i..], answers) == RetryCount(rows, failed, answers)
    {
      var id := failed[i];
      assert failed[i..][0] == id && failed[i..][1..] == failed[i + 1..];
      NextRetry(env, db.Snapshot(), rows, failed[i..], answers, now);
      if rows[id].retries >= MAX_RETRIES {
        NoRetry(env, db.Snapshot(), rows, id, answers, now);
        continue;
      }
      var done := RetryPayment(env, db, rows, id, rows[id].retries, answers, now);
      if done { retried := retried + 1; }
    }
    RunNone(env, db.Snapshot());
  }

  lemma NoRetry(env: Env, w: World, rows: seq<Payment>, id: PaymentId, answers: Answers, now: Time)
    requires !Retryable(rows, id)
    ensures Run(env, w, RetryOne(env, w, rows, id, answers, now)) == w
  {
  }
}
