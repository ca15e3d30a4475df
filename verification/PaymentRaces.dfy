/** Overlapping deliveries and approvals and stale rejections: what they do to any database, and concrete
  * runs in which they break an order's total, overturn a decision or charge a request twice. */
module PaymentRaces {
  import opened Prelude
  import opened Domain
  import opened Transactions
  import opened ChangeRequests
  import opened OrderTotals
  import Journeys

  // ---------------------------------------------------------------- any database

  /** The order with other amounts. */
  function Amounts(o: Order, subtotal: int, total: int): Order {
    o.(subtotal := subtotal, total := total)
  }

  /** Reading and adding by one marked delivery, with nothing in between. */
  lemma AddsAmount(env: Env, w: World, d: nat, now: Time)
    requires Stands(w, d, Marked) && w.deliveries[d].order < |w.orders|
    ensures var delivery := w.deliveries[d];
            var o := w.orders[delivery.order];
            Apply(env, Apply(env, w, ReadTotal(d), now), AddAmount(d), now) ==
            w.(orders := w.orders[delivery.order :=
                Amounts(o, o.subtotal + delivery.amount, o.total + delivery.amount)],
               deliveries := w.deliveries[d := delivery.(progress := Added)])
  {
    hide Execute, Apply;
    ReadStep(env, w, d, now);
    AddStep(env, Apply(env, w, ReadTotal(d), now), d, now);
  }

  /** Two marked deliveries that both read before either adds: the first addition is lost. */
  lemma SecondAdditionWins(env: Env, w: World, d: nat, e: nat, now: Time)
    requires d != e && Stands(w, d, Marked) && Stands(w, e, Marked)
    requires w.deliveries[d].order == w.deliveries[e].order < |w.orders|
    ensures var id := w.deliveries[d].order;
            var o := w.orders[id];
            var read := Apply(env, Apply(env, w, ReadTotal(d), now), ReadTotal(e), now);
            Apply(env, Apply(env, read, AddAmount(d), now), AddAmount(e), now) ==
            w.(orders := w.orders[id :=
                Amounts(o, o.subtotal + w.deliveries[e].amount, o.total + w.deliveries[e].amount)],
               deliveries :=
                 w.deliveries[d := w.deliveries[d].(progress := Added)][e := w.deliveries[e].(progress := Added)])
  {
    hide Execute, Apply;
    ReadStep(env, w, d, now);
    var w1 := Apply(env, w, ReadTotal(d), now);
    ReadStep(env, w1, e, now);
    var w2 := Apply(env, w1, ReadTotal(e), now);
    AddStep(env, w2, d, now);
    var w3 := Apply(env, w2, AddAmount(d), now);
    AddStep(env, w3, e, now);
    var id, o, amount := w.deliveries[d].order, w.orders[w.deliveries[d].order], w.deliveries[e].amount;
    assert w3.orders[id := Amounts(w3.orders[id], o.subtotal + amount, o.total + amount)] ==
           w.orders[id := Amounts(o, o.subtotal + amount, o.total + amount)];
    assert Apply(env, w3, AddAmount(e), now).deliveries ==
           w.deliveries[d := w.deliveries[d].(progress := Added)][e := w.deliveries[e].(progress := Added)];
  }

  /** A completion that finds a request finds it again until it is marked. */
  lemma FindsTwice(env: Env, w: World, event: nat, now: Time)
    requires Match(w, event).Done?
    ensures var d := Match(w, event).world.deliveries[|w.deliveries|];
            Apply(env, Apply(env, w, MatchCompletion(event), now), MatchCompletion(event), now) ==
            w.(deliveries := w.deliveries + [d, d])
  {
  }

  /** Two overlapping deliveries of one event, in any database where it finds an open request: both find
    * it, both mark it, and both add its amount. */
  lemma {:induction false} OverlapAddsTwice(env: Env, w: World, event: nat, now: Time)
    requires Match(w, event).Done? && w.completions[event].order < |w.orders|
    ensures var n, found := |w.deliveries|,
            Apply(env, Apply(env, w, MatchCompletion(event), now), MatchCompletion(event), now);
            var marked := Apply(env, Apply(env, found, ApproveMatched(n), now), ApproveMatched(n + 1), now);
            var once := Apply(env, Apply(env, marked, ReadTotal(n), now), AddAmount(n), now);
            var twice := Apply(env, Apply(env, once, ReadTotal(n + 1), now), AddAmount(n + 1), now);
            && n < |Match(w, event).world.deliveries|
            && var d := Match(w, event).world.deliveries[n];
            && d.change < |w.changes| && d.order < |w.orders|
            && twice.changes == w.changes[d.change := w.changes[d.change].(status := Approved)]
            && twice.orders == w.orders[d.order :=
                 Amounts(w.orders[d.order], w.orders[d.order].subtotal + 2 * d.amount,
                         w.orders[d.order].total + 2 * d.amount)]
  {
    hide Execute, Apply;
    PendingForFinds(w.changes, w.completions[event].order, w.completions[event].payment, 0);
    var n := |w.deliveries|;
    FindsTwice(env, w, event, now);
    var found := Apply(env, Apply(env, w, MatchCompletion(event), now), MatchCompletion(event), now);
    MarkStep(env, found, n, now);
    var first := Apply(env, found, ApproveMatched(n), now);
    MarkStep(env, first, n + 1, now);
    var marked := Apply(env, first, ApproveMatched(n + 1), now);
    AddsAmount(env, marked, n, now);
    AddsAmount(env, Apply(env, Apply(env, marked, ReadTotal(n), now), AddAmount(n), now), n + 1, now);
  }

  // ---------------------------------------------------------------- two paid requests, from an empty database

  function SetUp(): seq<Call> {
    [Call(CreateOrder(Journeys.OneOrder()), 0)] + [Call(RaiseChange(0, 0, 300), 0)] + [Call(RaiseChange(0, 0, 500), 0)]
    + [Call(BeginApproval(0, Raised, false), 0)] + [Call(BeginApproval(1, Raised, false), 0)]
    + [Call(StoreReference(0, 0), 0)] + [Call(StoreReference(1, 1), 0)]
    + [Call(RecordVerification(0, VerifiedPaid), 0)] + [Call(RecordVerification(1, VerifiedPaid), 0)]
  }

  function Placed(): World {
    Journeys.Opened(1).(stock := map[Journeys.SHELF := Inventory(1, 0, 1, 2)],
                        orders := [NewOrder(Journeys.OneOrder())])
  }

  function WithRequests(references: (Option<PaymentId>, Option<PaymentId>),
                        statuses: (ChangeStatus, ChangeStatus)): seq<Change> {
    [Change(0, 0, 300, statuses.0, references.0), Change(0, 0, 500, statuses.1, references.1)]
  }

  function WithPayments(first: PaymentStatus, second: PaymentStatus): seq<Payment> {
    [Payment(0, 300, Some(ChangeKey(0)), first, 0), Payment(0, 500, Some(ChangeKey(1)), second, 0)]
  }

  /** Two requests of one order, both with their payments stored and announced. */
  function Ready(): World {
    Placed().(changes := WithRequests((Some(0), Some(1)), (Raised, Raised)), payments := WithPayments(Paid, Paid),
              completions := [Completion(0, 0), Completion(1, 0)])
  }

  function Raised2(): World {
    Placed().(changes := WithRequests((None, None), (Raised, Raised)))
  }

  function Begun2(): World {
    Raised2().(payments := WithPayments(Initiated, Initiated))
  }

  function Stored2(): World {
    Begun2().(changes := WithRequests((Some(0), Some(1)), (Raised, Raised)))
  }

  lemma RaiseBoth(env: Env)
    ensures Apply(env, Journeys.Opened(1), CreateOrder(Journeys.OneOrder()), 0) == Placed()
    ensures Apply(env, Apply(env, Placed(), RaiseChange(0, 0, 300), 0), RaiseChange(0, 0, 500), 0) == Raised2()
  {
    Journeys.OrderPlaced(Inventory(1, 0, 0, 1), Journeys.Opened(1));
  }

  lemma BeginBoth(env: Env)
    ensures var once := Apply(env, Raised2(), BeginApproval(0, Raised, false), 0);
            Apply(env, once, BeginApproval(1, Raised, false), 0) == Begun2()
  {
    var once := Apply(env, Raised2(), BeginApproval(0, Raised, false), 0);
    PaymentWithKeyFinds(Raised2().payments, ChangeKey(0), 0);
    assert once.payments == [Payment(0, 300, Some(ChangeKey(0)), Initiated, 0)];
    PaymentWithKeyFinds(once.payments, ChangeKey(1), 0);
    assert PaymentWithKey(once.payments, ChangeKey(1), 0).None?;
  }

  lemma StoreBoth(env: Env)
    ensures Apply(env, Apply(env, Begun2(), StoreReference(0, 0), 0), StoreReference(1, 1), 0) == Stored2()
  {
  }

  lemma PayBoth(env: Env)
    ensures var once := Apply(env, Stored2(), RecordVerification(0, VerifiedPaid), 0);
            Apply(env, once, RecordVerification(1, VerifiedPaid), 0) == Ready()
  {
  }

  lemma ReadyIsReached(env: Env)
    ensures Initial(Journeys.Opened(1)) && Run(env, Journeys.Opened(1), SetUp()) == Ready()
  {
    hide Execute, Apply, Placed, Ready, Raised2, Begun2, Stored2;
    var w := Journeys.Opened(1);
    var c := SetUp();
    RaiseBoth(env);
    BeginBoth(env);
    StoreBoth(env);
    PayBoth(env);
    Fold3(env, w, c[0], c[1], c[2]);
    RunSnoc(env, w, [c[0]] + [c[1]] + [c[2]], c[3]);
    RunSnoc(env, w, [c[0]] + [c[1]] + [c[2]] + [c[3]], c[4]);
    RunSnoc(env, w, [c[0]] + [c[1]] + [c[2]] + [c[3]] + [c[4]], c[5]);
    RunSnoc(env, w, [c[0]] + [c[1]] + [c[2]] + [c[3]] + [c[4]] + [c[5]], c[6]);
    RunSnoc(env, w, [c[0]] + [c[1]] + [c[2]] + [c[3]] + [c[4]] + [c[5]] + [c[6]], c[7]);
    RunSnoc(env, w, [c[0]] + [c[1]] + [c[2]] + [c[3]] + [c[4]] + [c[5]] + [c[6]] + [c[7]], c[8]);
  }

  lemma Fold3(env: Env, w: World, a: Call, b: Call, c: Call)
    ensures Run(env, w, [a] + [b] + [c]) == Apply(env, Apply(env, Apply(env, w, a.tx, a.now), b.tx, b.now), c.tx, c.now)
  {
    hide Execute, Apply;
    assert [] + [a] == [a];
    RunSnoc(env, w, [], a);
    RunSnoc(env, w, [a], b);
    RunSnoc(env, w, [a] + [b], c);
  }

  /** Eight more calls, folded. */
  lemma Fold8(env: Env, w: World, c: seq<Call>)
    requires |c| == 8
    ensures var w2 := Apply(env, Apply(env, w, c[0].tx, c[0].now), c[1].tx, c[1].now);
            var w4 := Apply(env, Apply(env, w2, c[2].tx, c[2].now), c[3].tx, c[3].now);
            var w6 := Apply(env, Apply(env, w4, c[4].tx, c[4].now), c[5].tx, c[5].now);
            Run(env, w, c) == Apply(env, Apply(env, w6, c[6].tx, c[6].now), c[7].tx, c[7].now)
  {
    hide Execute, Apply;
    RunTwo(env, w, c[0], c[1]);
    RunConcat(env, w, [c[0], c[1]], [c[2], c[3]]);
    RunTwo(env, Run(env, w, [c[0], c[1]]), c[2], c[3]);
    var four := [c[0], c[1]] + [c[2], c[3]];
    RunTwo(env, Run(env, w, four), c[4], c[5]);
    RunConcat(env, w, four, [c[4], c[5]]);
    RunTwo(env, Run(env, w, four + [c[4], c[5]]), c[6], c[7]);
    RunConcat(env, w, four + [c[4], c[5]], [c[6], c[7]]);
    assert c == four + [c[4], c[5]] + [c[6], c[7]];
  }

  lemma ApprovedSums(w: World, first: ChangeStatus, second: ChangeStatus)
    requires w.changes == WithRequests((Some(0), Some(1)), (first, second))
    ensures Total(w.changes, ApprovedFor(0)) ==
            (if first == Approved then 300 else 0) + (if second == Approved then 500 else 0)
  {
    assert w.changes[..1] == [w.changes[0]];
    assert w.changes[..1][..0] == [];
    assert Total(w.changes[..1], ApprovedFor(0)) == (if first == Approved then 300 else 0);
  }

  lemma ReadyFinds()
    ensures Match(Ready(), 0) == Done(Ready().(deliveries := [Delivery(0, 0, 0, 300, Matched)]))
  {
  }

  lemma PlacedTotal()
    ensures |Ready().orders| == 1 && Ready().orders[0].total == 1500
  {
    assert Journeys.OneOrder().items[1..] == [];
  }

  // ---------------------------------------------------------------- one event delivered twice

  function OverlappingCalls(): seq<Call> {
    [Call(MatchCompletion(0), 0), Call(MatchCompletion(0), 0), Call(ApproveMatched(0), 0), Call(ApproveMatched(1), 0),
     Call(ReadTotal(0), 0), Call(AddAmount(0), 0), Call(ReadTotal(1), 0), Call(AddAmount(1), 0)]
  }

  /** A completion delivered twice, the deliveries overlapping: the approved 3.00 are added twice. */
  lemma {:induction false} OverlappingDeliveriesAddTwice()
    ensures Initial(Journeys.Opened(1))
    ensures var w := Run(Journeys.FlatEnv(), Journeys.Opened(1), SetUp() + OverlappingCalls());
            && |w.orders| == 1 && w.orders[0].total == 1500 + 600
            && Total(w.changes, ApprovedFor(0)) == 300
  {
    hide Execute, Apply, Run, SetUp, Ready;
    var env, w, calls := Journeys.FlatEnv(), Journeys.Opened(1), OverlappingCalls();
    ReadyIsReached(env);
    RunConcat(env, w, SetUp(), calls);
    Fold8(env, Ready(), calls);
    ReadyFinds();
    ReadyShape();
    OverlapAddsTwice(env, Ready(), 0, 0);
    PlacedTotal();
    ApprovedSums(Run(env, Ready(), calls), Approved, Raised);
  }

  lemma ReadyShape()
    ensures Ready().deliveries == [] && |Ready().orders| == 1 && |Ready().completions| == 2
    ensures Ready().completions[0] == Completion(0, 0) && Ready().completions[1] == Completion(1, 0)
    ensures Ready().changes == WithRequests((Some(0), Some(1)), (Raised, Raised))
  {
  }

  // ---------------------------------------------------------------- two requests at once

  function LosingCalls(): seq<Call> {
    [Call(MatchCompletion(0), 0), Call(MatchCompletion(1), 0), Call(ApproveMatched(0), 0), Call(ApproveMatched(1), 0),
     Call(ReadTotal(0), 0), Call(ReadTotal(1), 0), Call(AddAmount(0), 0), Call(AddAmount(1), 0)]
  }

  function BothMarked(): World {
    Ready().(changes := WithRequests((Some(0), Some(1)), (Approved, Approved)),
             deliveries := [Delivery(0, 0, 0, 300, Marked), Delivery(1, 1, 0, 500, Marked)])
  }

  function BothMatched(): World {
    Ready().(deliveries := [Delivery(0, 0, 0, 300, Matched), Delivery(1, 1, 0, 500, Matched)])
  }

  lemma MatchBoth(env: Env)
    ensures Apply(env, Apply(env, Ready(), MatchCompletion(0), 0), MatchCompletion(1), 0) == BothMatched()
  {
    ReadyFinds();
    var changes := Ready().changes;
    assert PendingFor(changes, 0, 1, 0) == PendingFor(changes, 0, 1, 1) == Some(1);
  }

  lemma MarkBoth(env: Env)
    ensures Apply(env, Apply(env, BothMatched(), ApproveMatched(0), 0), ApproveMatched(1), 0) == BothMarked()
  {
    hide Execute, Apply;
    MarkStep(env, BothMatched(), 0, 0);
    MarkStep(env, Apply(env, BothMatched(), ApproveMatched(0), 0), 1, 0);
  }

  /** The completions of two requests of one order, handled at once: both are approved, for 8.00, and
    * only one of them is added. */
  lemma {:induction false} OverlappingRequestsLoseOne()
    ensures Initial(Journeys.Opened(1))
    ensures var w := Run(Journeys.FlatEnv(), Journeys.Opened(1), SetUp() + LosingCalls());
            && |w.orders| == 1 && w.orders[0].total == 1500 + 500
            && Total(w.changes, ApprovedFor(0)) == 800
  {
    hide Execute, Apply, Run, SetUp, Ready;
    var env, w, calls := Journeys.FlatEnv(), Journeys.Opened(1), LosingCalls();
    ReadyIsReached(env);
    RunConcat(env, w, SetUp(), calls);
    Fold8(env, Ready(), calls);
    MatchBoth(env);
    MarkBoth(env);
    ReadyShape();
    SecondAdditionWins(env, BothMarked(), 0, 1, 0);
    PlacedTotal();
    ApprovedSums(Run(env, Ready(), calls), Approved, Approved);
  }

  // ---------------------------------------------------------------- a rejection from a stale read

  /** The customer's rejection has read the request open; its payment completes; the rejection writes. */
  function OverturningCalls(): seq<Call> {
    DeliveryCalls(Ready(), 0, 0) + [Call(RejectChange(0, Raised), 0)]
  }

  lemma ApprovedThenRejected(env: Env)
    ensures var w := Run(env, Ready(), DeliveryCalls(Ready(), 0, 0));
            && w == AfterDelivery(Ready(), 0)
            && w.changes == WithRequests((Some(0), Some(1)), (Approved, Raised))
            && |w.orders| == 1 && w.orders[0].total == Ready().orders[0].total + 300
            && Apply(env, w, RejectChange(0, Raised), 0).orders == w.orders
            && Apply(env, w, RejectChange(0, Raised), 0).changes == WithRequests((Some(0), Some(1)), (Rejected, Raised))
  {
    DeliveryIsExact(env, Ready(), 0, 0);
    ReadyFinds();
  }

  /** The approved request ends up rejected, and its 3.00 stay in the total with nothing to explain
    * them. */
  lemma {:induction false} StaleRejectionOverturns()
    ensures Initial(Journeys.Opened(1))
    ensures var approved := Run(Journeys.FlatEnv(), Journeys.Opened(1), SetUp() + DeliveryCalls(Ready(), 0, 0));
            var w := Run(Journeys.FlatEnv(), Journeys.Opened(1), SetUp() + OverturningCalls());
            && |approved.changes| == |w.changes| == 2
            && approved.changes[0].status == Approved && w.changes[0].status == Rejected
            && |w.orders| == 1 && w.orders[0].total == 1500 + 300
            && Total(w.changes, ApprovedFor(0)) == 0
  {
    hide Execute, Apply, Run, SetUp, Ready, DeliveryCalls, AfterDelivery;
    var env, w := Journeys.FlatEnv(), Journeys.Opened(1);
    var delivery, reject := DeliveryCalls(Ready(), 0, 0), Call(RejectChange(0, Raised), 0);
    ReadyIsReached(env);
    RunConcat(env, w, SetUp(), delivery);
    RunConcat(env, w, SetUp(), OverturningCalls());
    RunSnoc(env, Ready(), delivery, reject);
    ApprovedThenRejected(env);
    PlacedTotal();
    ApprovedSums(Run(env, Ready(), OverturningCalls()), Rejected, Raised);
  }

  // ---------------------------------------------------------------- one request charged twice

  /** Two approvals of one request, both of whose lookups found no payment; the first goes on and is paid. */
  function ChargingCalls(): seq<Call> {
    [Call(CreateOrder(Journeys.OneOrder()), 0)] + [Call(RaiseChange(0, 0, 300), 0)]
    + [Call(BeginApproval(0, Raised, false), 0)] + [Call(BeginApproval(0, Raised, false), 0)]
    + [Call(StoreReference(0, 0), 0)] + [Call(RecordVerification(0, VerifiedPaid), 0)]
  }

  /** The request is approved; then the second approval stores its reference. */
  function UnpayingCalls(): seq<Call> {
    ChargingCalls() + DeliveryCalls(Charged(Paid, Raised, 0), 0, 0) + [Call(StoreReference(0, 1), 0)]
  }

  function OneRequest(status: ChangeStatus, reference: Option<PaymentId>): seq<Change> {
    [Change(0, 0, 300, status, reference)]
  }

  function TwoPayments(first: PaymentStatus): seq<Payment> {
    [Payment(0, 300, Some(ChangeKey(0)), first, 0), Payment(0, 300, Some(ChangeKey(0)), Initiated, 0)]
  }

  function Charged(first: PaymentStatus, status: ChangeStatus, reference: PaymentId): World {
    Placed().(changes := OneRequest(status, Some(reference)), payments := TwoPayments(first),
              completions := [Completion(0, 0)])
  }

  lemma ChargeTwice(env: Env)
    ensures var raised := Apply(env, Placed(), RaiseChange(0, 0, 300), 0);
            var begun := Apply(env, raised, BeginApproval(0, Raised, false), 0);
            Apply(env, begun, BeginApproval(0, Raised, false), 0) ==
            Placed().(changes := OneRequest(Raised, None), payments := TwoPayments(Initiated))
  {
    var raised := Apply(env, Placed(), RaiseChange(0, 0, 300), 0);
    var begun := Apply(env, raised, BeginApproval(0, Raised, false), 0);
    assert begun.payments == [Payment(0, 300, Some(ChangeKey(0)), Initiated, 0)];
  }

  lemma PayFirst(env: Env)
    ensures var two := Placed().(changes := OneRequest(Raised, None), payments := TwoPayments(Initiated));
            Apply(env, Apply(env, two, StoreReference(0, 0), 0), RecordVerification(0, VerifiedPaid), 0) ==
            Charged(Paid, Raised, 0)
  {
  }

  lemma ChargedIsReached(env: Env)
    ensures Initial(Journeys.Opened(1)) && Run(env, Journeys.Opened(1), ChargingCalls()) == Charged(Paid, Raised, 0)
  {
    hide Execute, Apply, Placed, Charged;
    var w := Journeys.Opened(1);
    var c := ChargingCalls();
    RaiseBoth(env);
    ChargeTwice(env);
    PayFirst(env);
    Fold3(env, w, c[0], c[1], c[2]);
    RunSnoc(env, w, [c[0]] + [c[1]] + [c[2]], c[3]);
    RunSnoc(env, w, [c[0]] + [c[1]] + [c[2]] + [c[3]], c[4]);
    RunSnoc(env, w, [c[0]] + [c[1]] + [c[2]] + [c[3]] + [c[4]], c[5]);
  }

  lemma ApproveCharged(env: Env)
    ensures var w := Run(env, Charged(Paid, Raised, 0), DeliveryCalls(Charged(Paid, Raised, 0), 0, 0));
            && w.changes == OneRequest(Approved, Some(0)) && w.payments == TwoPayments(Paid)
            && w.completions == [Completion(0, 0)]
            && |w.orders| == 1 && w.orders[0].total == Placed().orders[0].total + 300
  {
    DeliveryIsExact(env, Charged(Paid, Raised, 0), 0, 0);
  }

  lemma StoreSecond(env: Env, w: World)
    requires w.changes == OneRequest(Approved, Some(0)) && w.payments == TwoPayments(Paid)
    requires w.completions == [Completion(0, 0)]
    ensures var next := Apply(env, w, StoreReference(0, 1), 0);
            next == w.(changes := OneRequest(Approved, Some(1))) && !Announced(next.completions, 1)
  {
  }

  lemma PaySecond(env: Env, w: World)
    requires w.changes == OneRequest(Approved, Some(1)) && w.payments == TwoPayments(Paid)
    requires w.completions == [Completion(0, 0)]
    ensures var paid := Apply(env, w, RecordVerification(1, VerifiedPaid), 0);
            && paid.orders == w.orders && |paid.completions| == 2 && Match(paid, 1).Failed?
            && |paid.payments| == 2 && paid.payments[0].status == paid.payments[1].status == Paid
  {
    PendingForFinds(w.changes, 0, 1, 0);
  }

  /** Two overlapping approvals insert two payments for one request of 3.00. The first is paid and the request
    * approved; the second approval then leaves it APPROVED with the reference of a payment that was never
    * announced. When that is paid too, the customer has paid 6.00, its completion finds nothing to approve,
    * and the order's total has grown by 3.00. */
  lemma {:induction false} OverlappingApprovalsChargeTwice()
    ensures Initial(Journeys.Opened(1))
    ensures var w := Run(Journeys.FlatEnv(), Journeys.Opened(1), UnpayingCalls());
            && w.changes == OneRequest(Approved, Some(1)) && !Announced(w.completions, 1)
            && |w.orders| == 1 && w.orders[0].total == 1500 + 300
            && var paid := Apply(Journeys.FlatEnv(), w, RecordVerification(1, VerifiedPaid), 0);
            && |paid.payments| == 2 && paid.payments[0].status == paid.payments[1].status == Paid
            && paid.orders == w.orders && |paid.completions| == 2 && Match(paid, 1).Failed?
  {
    hide Execute, Apply, Run, Charged, DeliveryCalls, ChargingCalls, PendingFor;
    var env, w := Journeys.FlatEnv(), Journeys.Opened(1);
    var delivery := DeliveryCalls(Charged(Paid, Raised, 0), 0, 0);
    ChargedIsReached(env);
    RunConcat(env, w, ChargingCalls(), delivery);
    RunSnoc(env, w, ChargingCalls() + delivery, Call(StoreReference(0, 1), 0));
    ApproveCharged(env);
    StoreSecond(env, Run(env, w, ChargingCalls() + delivery));
    PaySecond(env, Run(env, w, UnpayingCalls()));
    PlacedTotal();
  }
}
