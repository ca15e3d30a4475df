/** Change requests: raised by the station, approved by paying, rejected by the customer. */
module ChangeRequestsService {
  import opened Prelude
  import opened Domain
  import opened Transactions
  import opened ChangeRequests
  import opened Tables
  import PaymentsService

  function SeenChange(changes: seq<Change>, change: ChangeId): ChangeStatus {
    if change < |changes| then changes[change].status else Rejected
  }

  method Create(db: Database, order: OrderId, station: StationId, amount: nat) returns (reply: Reply)
    modifies db`changes
    ensures Did(old(db.Snapshot()), db.Snapshot(), Raise(old(db.Snapshot()), order, station, amount), reply)
    ensures reply ==
            if order >= |db.orders| then Refusal(NotFound)
            else if db.orders[order].station != station then Refusal(BadRequest) else Ok
    ensures db.changes ==
            if reply.Ok? then old(db.changes) + [Change(order, station, amount, Raised, None)] else old(db.changes)
  {
    if order >= |db.orders| { return Refusal(NotFound); }
    if db.orders[order].station != station { return Refusal(BadRequest); }
    db.changes := db.changes + [Change(order, station, amount, Raised, None)];
    return Ok;
  }

  /** The first half of approval: the payment under the request's own key, found or inserted. */
  method InitiateApproval(db: Database, change: ChangeId) returns (reply: Reply, payment: PaymentId, inserted: bool)
    modifies db`payments
    ensures Did(old(db.Snapshot()), db.Snapshot(),
              Approve(old(db.Snapshot()), change, SeenChange(old(db.changes), change),
                      Known(old(db.Snapshot()), Some(ChangeKey(change)))), reply)
    ensures reply.Ok? ==> payment < |db.payments| && db.payments[payment].key == Some(ChangeKey(change))
    ensures reply.Ok? ==> (inserted <==> !Known(old(db.Snapshot()), Some(ChangeKey(change))))
    ensures reply == if change >= |db.changes| then Refusal(NotFound)
                     else if db.changes[change].status != Raised then Refusal(BadRequest) else Ok
    ensures reply.Ok? ==>
              var c := db.changes[change];
              && (inserted <==> forall p :: 0 <= p < |old(db.payments)| ==>
                    old(db.payments)[p].key != Some(ChangeKey(change)))
              && (inserted ==> payment == |old(db.payments)|)
              && db.payments == if inserted then
                   old(db.payments) + [Payment(c.order, c.amount, Some(ChangeKey(change)), Initiated, 0)]
                 else old(db.payments)
  {
    if change >= |db.changes| { return Refusal(NotFound), 0, false; }
    var c := db.changes[change];
    if c.status != Raised { return Refusal(BadRequest), 0, false; }
    payment, inserted := PaymentsService.Initiate(db, c.order, c.amount, Some(ChangeKey(change)));
    return Ok, payment, inserted;
  }

  /** The second half: the reference of that payment. */
  method SaveReference(env: Env, db: Database, change: ChangeId, payment: PaymentId, now: Time)
    requires Store(db.Snapshot(), change, payment).Done?
    modifies db`changes
    ensures db.Snapshot() == Apply(env, old(db.Snapshot()), StoreReference(change, payment), now)
    ensures change < |old(db.changes)|
            && db.changes == old(db.changes)[change := old(db.changes)[change].(reference := Some(payment))]
  {
    db.changes := db.changes[change := db.changes[change].(reference := Some(payment))];
  }

  /** The transactions of one approval with nothing interleaved. */
  function ApprovalCalls(change: ChangeId, payment: PaymentId, inserted: bool, now: Time): seq<Call> {
    [Call(BeginApproval(change, Raised, !inserted), now)]
    + (if inserted then [Call(MarkProcessing(payment), now)] else [])
    + [Call(StoreReference(change, payment), now)]
  }

  lemma ApprovalRun(env: Env, w: World, change: ChangeId, payment: PaymentId, inserted: bool, now: Time)
    ensures var begun := Apply(env, w, BeginApproval(change, Raised, !inserted), now);
            var charged := if inserted then Apply(env, begun, MarkProcessing(payment), now) else begun;
            Run(env, w, ApprovalCalls(change, payment, inserted, now)) ==
            Apply(env, charged, StoreReference(change, payment), now)
  {
    hide Execute, Apply;
    var begin, store := Call(BeginApproval(change, Raised, !inserted), now), Call(StoreReference(change, payment), now);
    if inserted {
      var mark := Call(MarkProcessing(payment), now);
      assert ApprovalCalls(change, payment, inserted, now) == [begin] + [mark, store];
      RunHead(env, w, begin, [mark, store]);
      RunTwo(env, Apply(env, w, begin.tx, now), mark, store);
    } else {
      assert ApprovalCalls(change, payment, inserted, now) == [begin, store];
      RunTwo(env, w, begin, store);
    }
  }

  lemma BeginIsApproval(env: Env, w: World, change: ChangeId, known: bool, now: Time)
    requires Approve(w, change, Raised, known).Done?
    ensures Apply(env, w, BeginApproval(change, Raised, known), now) == Approve(w, change, Raised, known).world
  {
  }

  /** Approval is payment: the charge, then its reference on the request. An approval repeated while the
    * request is still open finds the payment of the first one again. */
  method ApproveChange(env: Env, db: Database, change: ChangeId, now: Time)
    returns (reply: Reply, payment: PaymentId, inserted: bool)
    modifies db`payments, db`changes
    ensures reply.Ok? <==> change < |old(db.changes)| && old(db.changes)[change].status == Raised
    ensures reply.Ok? ==> (inserted <==> !Known(old(db.Snapshot()), Some(ChangeKey(change))))
    ensures if reply.Ok? then db.Snapshot() ==
            Run(env, old(db.Snapshot()), ApprovalCalls(change, payment, inserted, now))
            else db.Snapshot() == old(db.Snapshot())
    ensures reply.Refusal? ==> reply.error == if change >= |db.changes| then NotFound else BadRequest
    ensures reply.Ok? ==>
              var c := old(db.changes)[change];
              && payment < |db.payments| && db.payments[payment].key == Some(ChangeKey(change))
              && db.changes == old(db.changes)[change := c.(reference := Some(payment))]
              && (inserted <==> forall p :: 0 <= p < |old(db.payments)| ==>
                    old(db.payments)[p].key != Some(ChangeKey(change)))
              && db.payments == if inserted then
                   old(db.payments) + [Payment(c.order, c.amount, Some(ChangeKey(change)), Processing, 0)]
                 else old(db.payments)
  {
    hide Execute, Apply, Run, Approve, Initiate, Known, ApprovalCalls;
    ghost var w := db.Snapshot();
    reply, payment, inserted := InitiateApproval(db, change);
    if reply.Ok? {
      assert db.Snapshot() == Apply(env, w, BeginApproval(change, Raised, !inserted), now) by {
        BeginIsApproval(env, w, change, !inserted, now);
      }
      ApprovalRun(env, w, change, payment, inserted, now);
      if inserted { PaymentsService.MarkTaken(env, db, payment, now); }
      SaveReference(env, db, change, payment, now);
    }
  }

  method RejectChangeRequest(db: Database, change: ChangeId) returns (reply: Reply)
    modifies db`changes
    ensures Did(old(db.Snapshot()), db.Snapshot(),
              Reject(old(db.Snapshot()), change, SeenChange(old(db.changes), change)), reply)
    ensures reply ==
            if change >= |old(db.changes)| then Refusal(NotFound)
            else if old(db.changes)[change].status != Raised then Refusal(BadRequest) else Ok
    ensures db.changes ==
            if reply.Ok? then old(db.changes)[change := old(db.changes)[change].(status := Rejected)]
            else old(db.changes)
  {
    if change >= |db.changes| { return Refusal(NotFound); }
    if db.changes[change].status != Raised { return Refusal(BadRequest); }
    db.changes := db.changes[change := db.changes[change].(status := Rejected)];
    return Ok;
  }

  /** Looks the open request up that a completion is about. */
  method FindPending(db: Database, event: nat) returns (reply: Reply)
    modifies db`deliveries
    ensures Did(old(db.Snapshot()), db.Snapshot(), Match(old(db.Snapshot()), event), reply)
  {
    if event >= |db.completions| { return Refusal(Skipped); }
    var payload := db.completions[event];
    PendingForFinds(db.changes, payload.order, payload.payment, 0);
    var i := 0;
    while i < |db.changes| && !(db.changes[i].order == payload.order && db.changes[i].status == Raised
                                && db.changes[i].reference == Some(payload.payment))
      invariant i <= |db.changes|
      invariant PendingFor(db.changes, payload.order, payload.payment, 0) ==
                PendingFor(db.changes, payload.order, payload.payment, i)
    {
      i := i + 1;
    }
    if i == |db.changes| { return Refusal(Skipped); }
    db.deliveries := db.deliveries + [Delivery(i, payload.payment, payload.order, db.changes[i].amount, Matched)];
    return Ok;
  }

  /** The request that a completion is about: open, of its order, and naming its payment. */
  predicate IsAbout(w: World, event: nat, c: ChangeId) {
    && event < |w.completions| && c < |w.changes| && w.changes[c].order == w.completions[event].order
    && w.changes[c].status == Raised && w.changes[c].reference == Some(w.completions[event].payment)
  }

  /** A completion approves one request that it is about and adds its amount to the order's subtotal and total;
    * if there is none it does nothing. */
  ghost predicate IsDelivered(before: World, after: World, event: nat) {
    if exists c: ChangeId :: IsAbout(before, event, c) then
      exists c: ChangeId ::
        && IsAbout(before, event, c)
        && var change := before.changes[c];
        && after.changes == before.changes[c := change.(status := Approved)]
        && |after.orders| == |before.orders|
        && forall i :: 0 <= i < |before.orders| ==>
             after.orders[i] ==
               if i == change.order then
                 before.orders[i].(subtotal := before.orders[i].subtotal + change.amount,
                                   total := before.orders[i].total + change.amount)
               else before.orders[i]
    else after == before
  }

  lemma DeliveredIs(w: World, event: nat)
    ensures IsDelivered(w, AfterDelivery(w, event), event)
  {
    if event < |w.completions| {
      PendingForFinds(w.changes, w.completions[event].order, w.completions[event].payment, 0);
      if Match(w, event).Done? {
        var completion := w.completions[event];
        assert IsAbout(w, event, PendingFor(w.changes, completion.order, completion.payment, 0).value);
      }
    }
  }

  /** Listener of `payment.completed`, with nothing interleaved: exactly its steps, in order. */
  method HandlePaymentCompleted(env: Env, db: Database, event: nat, now: Time)
    modifies db`changes, db`orders, db`deliveries
    ensures db.Snapshot() == Run(env, old(db.Snapshot()), DeliveryCalls(old(db.Snapshot()), event, now))
    ensures IsDelivered(old(db.Snapshot()), db.Snapshot(), event)
  {
    hide Run, IsDelivered;
    ghost var w := db.Snapshot();
    DeliveryIsExact(env, w, event, now);
    DeliveredIs(w, event);
    var found := FindPending(db, event);
    if found.Refusal? { return; }
    var d := |db.deliveries| - 1;
    var delivery := db.deliveries[d];
    PendingForFinds(w.changes, w.completions[event].order, w.completions[event].payment, 0);
    db.changes := db.changes[delivery.change := db.changes[delivery.change].(status := Approved)];
    db.deliveries := db.deliveries[d := delivery.(progress := Marked)];
    if delivery.order < |db.orders| {
      var order := db.orders[delivery.order];
      db.orders := db.orders[delivery.order :=
        order.(subtotal := order.subtotal + delivery.amount, total := order.total + delivery.amount)];
      db.deliveries := db.deliveries[d := delivery.(progress := Added)];
    }
  }
}
