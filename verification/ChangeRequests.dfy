/** Change requests and their payments: `approve` in its two halves, completion events delivered any
  * number of times to handlers that overlap, and rejections from stale reads. */
module ChangeRequests {
  import opened Prelude
  import opened Domain
  import opened Transactions
  import opened RowFrames

  ghost predicate Announced(completions: seq<Completion>, payment: PaymentId) {
    exists n :: 0 <= n < |completions| && completions[n].payment == payment
  }

  /** A payment made for a change request is for its order and its amount. There may be several. */
  ghost predicate KeysAgree(w: World) {
    forall p: nat, c: nat :: p < |w.payments| && w.payments[p].key == Some(ChangeKey(c)) ==>
      c < |w.changes| && w.payments[p].order == w.changes[c].order && w.payments[p].amount == w.changes[c].amount
  }

  /** The payment was made for this request. */
  predicate MadeFor(w: World, p: PaymentId, c: ChangeId) {
    p < |w.payments| && w.payments[p].key == Some(ChangeKey(c))
  }

  /** A stored reference is a payment made for this request. */
  ghost predicate ReferencesAgree(w: World) {
    forall c :: 0 <= c < |w.changes| && w.changes[c].reference.Some? ==> MadeFor(w, w.changes[c].reference.value, c)
  }

  ghost predicate EventsAgree(w: World) {
    forall n :: 0 <= n < |w.completions| ==>
      w.completions[n].payment < |w.payments| && w.payments[w.completions[n].payment].order == w.completions[n].order
  }

  /** Some payment made for this request was announced. */
  ghost predicate PaidFor(w: World, c: ChangeId) {
    exists p: PaymentId :: MadeFor(w, p, c) && Announced(w.completions, p)
  }

  ghost predicate ApprovedWerePaid(w: World) {
    forall c :: 0 <= c < |w.changes| && w.changes[c].status == Approved ==>
      w.changes[c].reference.Some? && PaidFor(w, c)
  }

  /** A delivery is about a request with a reference and an announced payment made for it. */
  ghost predicate DeliveryAgrees(w: World, d: Delivery) {
    && d.change < |w.changes| && d.order == w.changes[d.change].order && d.amount == w.changes[d.change].amount
    && w.changes[d.change].reference.Some? && MadeFor(w, d.payment, d.change) && Announced(w.completions, d.payment)
  }

  ghost predicate DeliveriesAgree(w: World) {
    forall i :: 0 <= i < |w.deliveries| ==> DeliveryAgrees(w, w.deliveries[i])
  }

  ghost predicate ChangesConsistent(w: World) {
    && (forall c :: 0 <= c < |w.changes| ==> w.changes[c].order < |w.orders|)
    && KeysAgree(w) && ReferencesAgree(w) && EventsAgree(w) && ApprovedWerePaid(w) && DeliveriesAgree(w)
  }

  lemma PaymentWithKeyFinds(payments: seq<Payment>, key: Key, from: nat)
    ensures var found := PaymentWithKey(payments, key, from);
            && (found.Some? ==> from <= found.value < |payments| && payments[found.value].key == Some(key))
            && (found.None? ==> forall p :: from <= p < |payments| ==> payments[p].key != Some(key))
    decreases |payments| - from
  {
  }

  /** The transactions of these two services. */
  predicate TouchesChanges(tx: Tx) {
    OnRequests(tx) || TouchesPayments(tx) || Delivers(tx)
  }

  lemma OthersLeaveChanges(env: Env, w: World, tx: Tx, now: Time)
    requires !TouchesChanges(tx)
    ensures var next := Apply(env, w, tx, now);
            && next.changes == w.changes && next.payments == w.payments && next.completions == w.completions
            && next.deliveries == w.deliveries
  {
    hide Execute, Apply;
    Frames(env, w, tx, now);
  }

  /** Payments keep their key, order and amount, events stay, and requests keep their facts. */
  ghost predicate PaymentsGrow(w: World, next: World) {
    && |w.payments| <= |next.payments|
    && (forall p :: 0 <= p < |w.payments| ==>
          next.payments[p].key == w.payments[p].key && next.payments[p].order == w.payments[p].order
          && next.payments[p].amount == w.payments[p].amount)
    && w.completions <= next.completions
  }

  lemma PaidForStays(w: World, next: World, c: ChangeId)
    requires PaymentsGrow(w, next) && PaidFor(w, c)
    ensures PaidFor(next, c)
  {
    var p :| MadeFor(w, p, c) && Announced(w.completions, p);
    AnnouncedStays(w.completions, next.completions, p);
    assert MadeFor(next, p, c);
  }

  lemma AnnouncedStays(before: seq<Completion>, after: seq<Completion>, p: PaymentId)
    requires before <= after && Announced(before, p)
    ensures Announced(after, p)
  {
    var n :| 0 <= n < |before| && before[n].payment == p;
    assert after[n].payment == p;
  }

  lemma DeliveryStays(w: World, next: World, d: Delivery)
    requires PaymentsGrow(w, next) && DeliveryAgrees(w, d)
    requires next.changes == w.changes
    ensures DeliveryAgrees(next, d)
  {
    AnnouncedStays(w.completions, next.completions, d.payment);
  }

  /** More payments and more events: consistent if the new ones are. */
  lemma GrowthKeepsConsistent(w: World, next: World)
    requires ChangesConsistent(w) && PaymentsGrow(w, next) && |next.orders| >= |w.orders|
    requires next.changes == w.changes && next.deliveries == w.deliveries && KeysAgree(next) && EventsAgree(next)
    ensures ChangesConsistent(next)
  {
    forall c | 0 <= c < |w.changes| && w.changes[c].status == Approved ensures PaidFor(next, c) {
      PaidForStays(w, next, c);
    }
    forall i | 0 <= i < |w.deliveries| ensures DeliveryAgrees(next, w.deliveries[i]) {
      DeliveryStays(w, next, w.deliveries[i]);
    }
  }

  lemma PaymentProgressIsIrrelevant(w: World, p: PaymentId, payment: Payment)
    requires ChangesConsistent(w) && p < |w.payments|
    requires payment.key == w.payments[p].key && payment.order == w.payments[p].order
            && payment.amount == w.payments[p].amount
    ensures ChangesConsistent(w.(payments := w.payments[p := payment]))
  {
    GrowthKeepsConsistent(w, w.(payments := w.payments[p := payment]));
  }

  lemma AnnouncementKeepsConsistent(w: World, p: PaymentId)
    requires ChangesConsistent(w) && p < |w.payments|
    ensures ChangesConsistent(w.(completions := w.completions + [Completion(p, w.payments[p].order)]))
  {
    GrowthKeepsConsistent(w, w.(completions := w.completions + [Completion(p, w.payments[p].order)]));
  }

  lemma InitiateKeepsConsistent(w: World, order: OrderId, amount: int, key: Option<Key>, known: bool)
    requires ChangesConsistent(w)
    requires key.Some? && key.value.ChangeKey? ==>
               key.value.change < |w.changes| && order == w.changes[key.value.change].order
               && amount == w.changes[key.value.change].amount
    ensures ChangesConsistent(Initiate(w, order, amount, key, known))
  {
    GrowthKeepsConsistent(w, Initiate(w, order, amount, key, known));
  }

  /** Requests rewritten, payments and events left alone. */
  lemma RewriteKeepsConsistent(w: World, next: World)
    requires ChangesConsistent(w) && |next.orders| >= |w.orders| && next.payments == w.payments
    requires next.completions == w.completions && next.deliveries == w.deliveries && ReferencesAgree(next)
    requires |next.changes| >= |w.changes|
    requires forall c :: 0 <= c < |w.changes| ==>
               next.changes[c].order == w.changes[c].order && next.changes[c].amount == w.changes[c].amount
               && (w.changes[c].reference.Some? ==> next.changes[c].reference.Some?)
               && (next.changes[c].status == Approved ==> w.changes[c].status == Approved)
    requires forall c :: |w.changes| <= c < |next.changes| ==>
               next.changes[c].order < |next.orders| && next.changes[c].status != Approved
    ensures ChangesConsistent(next)
  {
    forall c | 0 <= c < |w.changes| && w.changes[c].status == Approved ensures PaidFor(next, c) {
      PaidForStays(w, next, c);
    }
    forall i | 0 <= i < |w.deliveries| ensures DeliveryAgrees(next, w.deliveries[i]) {
      assert DeliveryAgrees(w, w.deliveries[i]);
    }
  }

  lemma StoreKeepsConsistent(w: World, c: ChangeId, p: PaymentId)
    requires ChangesConsistent(w) && Store(w, c, p).Done?
    ensures ChangesConsistent(Store(w, c, p).world)
  {
    hide ApprovedWerePaid, DeliveriesAgree, EventsAgree, KeysAgree;
    RewriteKeepsConsistent(w, Store(w, c, p).world);
  }

  lemma MatchKeepsConsistent(w: World, event: nat)
    requires ChangesConsistent(w) && Match(w, event).Done?
    ensures ChangesConsistent(Match(w, event).world)
  {
    var e, next := w.completions[event], Match(w, event).world;
    PendingForFinds(w.changes, e.order, e.payment, 0);
    assert Announced(w.completions, e.payment);
    forall c | 0 <= c < |w.changes| && w.changes[c].status == Approved ensures PaidFor(next, c) {
      PaidForStays(w, next, c);
    }
    forall i | 0 <= i < |w.deliveries| ensures DeliveryAgrees(next, w.deliveries[i]) {
      DeliveryStays(w, next, w.deliveries[i]);
    }
  }

  lemma MarkKeepsConsistent(w: World, d: nat)
    requires ChangesConsistent(w) && Mark(w, d).Done?
    ensures ChangesConsistent(Mark(w, d).world)
  {
    var c, next := w.deliveries[d].change, Mark(w, d).world;
    assert DeliveryAgrees(w, w.deliveries[d]);
    assert MadeFor(w, w.deliveries[d].payment, c);
    assert PaidFor(w, c);
    forall i | 0 <= i < |next.changes| && next.changes[i].status == Approved ensures PaidFor(next, i) {
      PaidForStays(w, next, i);
    }
    forall i | 0 <= i < |next.deliveries| ensures DeliveryAgrees(next, next.deliveries[i]) {
      assert DeliveryAgrees(w, w.deliveries[i]);
    }
  }

  /** Progress of a delivery that leaves requests, payments and events alone. */
  lemma ProgressKeepsConsistent(w: World, next: World, d: nat, progress: Progress)
    requires ChangesConsistent(w) && d < |w.deliveries| && |next.orders| >= |w.orders|
    requires next.changes == w.changes && next.payments == w.payments && next.completions == w.completions
    requires next.deliveries == w.deliveries[d := w.deliveries[d].(progress := progress)]
    ensures ChangesConsistent(next)
  {
    forall c | 0 <= c < |w.changes| && w.changes[c].status == Approved ensures PaidFor(next, c) {
      PaidForStays(w, next, c);
    }
    forall i | 0 <= i < |next.deliveries| ensures DeliveryAgrees(next, next.deliveries[i]) {
      assert DeliveryAgrees(w, w.deliveries[i]);
    }
  }

  lemma VerificationKeepsConsistent(w: World, p: PaymentId, result: Verification)
    requires ChangesConsistent(w) && Record(w, p, result).Done?
    ensures ChangesConsistent(Record(w, p, result).world)
  {
    match result {
      case VerifiedPaid =>
        PaymentProgressIsIrrelevant(w, p, w.payments[p].(status := Paid));
        AnnouncementKeepsConsistent(w.(payments := w.payments[p := w.payments[p].(status := Paid)]), p);
      case VerifiedFailed => PaymentProgressIsIrrelevant(w, p, w.payments[p].(status := Declined));
      case StillPending =>
    }
  }

  lemma RaiseKeepsConsistent(w: World, order: OrderId, station: StationId, amount: nat)
    requires ChangesConsistent(w) && Raise(w, order, station, amount).Done?
    ensures ChangesConsistent(Raise(w, order, station, amount).world)
  {
    RewriteKeepsConsistent(w, Raise(w, order, station, amount).world);
  }

  lemma RejectKeepsConsistent(w: World, c: ChangeId, seen: ChangeStatus)
    requires ChangesConsistent(w) && Reject(w, c, seen).Done?
    ensures ChangesConsistent(Reject(w, c, seen).world)
  {
    RewriteKeepsConsistent(w, Reject(w, c, seen).world);
  }

  /** Whatever leaves these tables alone and drops no order. */
  lemma FrameKeepsConsistent(w: World, next: World)
    requires ChangesConsistent(w) && |next.orders| >= |w.orders|
    requires next.changes == w.changes && next.payments == w.payments && next.completions == w.completions
    requires next.deliveries == w.deliveries
    ensures ChangesConsistent(next)
  {
    GrowthKeepsConsistent(w, next);
  }

  lemma PaymentsKeepConsistent(env: Env, w: World, tx: Tx, now: Time)
    requires ChangesConsistent(w) && TouchesPayments(tx) && Execute(env, w, tx, now).Done?
    ensures ChangesConsistent(Apply(env, w, tx, now))
  {
    hide KeysAgree, ReferencesAgree, EventsAgree, ApprovedWerePaid, DeliveriesAgree;
    match tx {
      case BeginApproval(c, _, known) =>
        InitiateKeepsConsistent(w, w.changes[c].order, w.changes[c].amount, Some(ChangeKey(c)), known);
      case InitiatePayment(order, sum, text, known) =>
        InitiateKeepsConsistent(w, order, sum, ClientKeyOf(text), known);
      case MarkProcessing(p) => PaymentProgressIsIrrelevant(w, p, w.payments[p].(status := Processing));
      case CountRetry(p, count) => PaymentProgressIsIrrelevant(w, p, w.payments[p].(retries := count + 1));
      case RecordVerification(p, result) => VerificationKeepsConsistent(w, p, result);
    }
  }

  lemma DeliveriesKeepConsistent(env: Env, w: World, tx: Tx, now: Time)
    requires ChangesConsistent(w) && Delivers(tx) && Execute(env, w, tx, now).Done?
    ensures ChangesConsistent(Apply(env, w, tx, now))
  {
    hide KeysAgree, ReferencesAgree, EventsAgree, ApprovedWerePaid, DeliveriesAgree;
    var next := Apply(env, w, tx, now);
    match tx {
      case MatchCompletion(event) => MatchKeepsConsistent(w, event);
      case ApproveMatched(d) => MarkKeepsConsistent(w, d);
      case ReadTotal(d) => ProgressKeepsConsistent(w, next, d, next.deliveries[d].progress);
      case AddAmount(d) => ProgressKeepsConsistent(w, next, d, Added);
    }
  }

  lemma RequestsKeepConsistent(env: Env, w: World, tx: Tx, now: Time)
    requires ChangesConsistent(w) && Execute(env, w, tx, now).Done?
    requires tx.RaiseChange? || tx.StoreReference? || tx.RejectChange?
    ensures ChangesConsistent(Apply(env, w, tx, now))
  {
    hide KeysAgree, ReferencesAgree, EventsAgree, ApprovedWerePaid, DeliveriesAgree;
    match tx {
      case RaiseChange(order, station, extra) => RaiseKeepsConsistent(w, order, station, extra);
      case StoreReference(c, p) => StoreKeepsConsistent(w, c, p);
      case RejectChange(c, seen) => RejectKeepsConsistent(w, c, seen);
    }
  }

  lemma KeepsConsistent(env: Env, w: World, tx: Tx, now: Time)
    requires ChangesConsistent(w) && |Apply(env, w, tx, now).orders| >= |w.orders|
    ensures ChangesConsistent(Apply(env, w, tx, now))
  {
    hide Execute, ChangesConsistent;
    if !TouchesChanges(tx) {
      OthersLeaveChanges(env, w, tx, now);
      FrameKeepsConsistent(w, Apply(env, w, tx, now));
    } else if Execute(env, w, tx, now).Done? {
      if Delivers(tx) {
        DeliveriesKeepConsistent(env, w, tx, now);
      } else if TouchesPayments(tx) {
        PaymentsKeepConsistent(env, w, tx, now);
      } else {
        RequestsKeepConsistent(env, w, tx, now);
      }
    }
  }

  lemma {:induction false} ConsistentOverRuns(env: Env, w: World, calls: seq<Call>)
    requires Initial(w)
    ensures ChangesConsistent(Run(env, w, calls))
  {
    hide Execute;
    if calls != [] {
      var n := |calls| - 1;
      ConsistentOverRuns(env, w, calls[..n]);
      NewRows(env, Run(env, w, calls[..n]), calls[n].tx, calls[n].now);
      KeepsConsistent(env, Run(env, w, calls[..n]), calls[n].tx, calls[n].now);
    }
  }

  /** Over every run, whatever overlaps: an approved request has a reference to a payment made for it, and
    * some payment made for this very request, on its order and of its amount, was announced as paid. It
    * need not be the one that the reference names. */
  lemma {:induction false} ApprovedWasPaidFor(env: Env, w: World, calls: seq<Call>, c: ChangeId)
    requires Initial(w) && c < |Run(env, w, calls).changes|
    requires Run(env, w, calls).changes[c].status == Approved
    ensures var next := Run(env, w, calls);
            && next.changes[c].reference.Some? && MadeFor(next, next.changes[c].reference.value, c)
            && exists p: PaymentId :: MadeFor(next, p, c) && Announced(next.completions, p)
                 && next.payments[p].order == next.changes[c].order && next.payments[p].amount == next.changes[c].amount
  {
    hide Execute;
    ConsistentOverRuns(env, w, calls);
    var next := Run(env, w, calls);
    assert PaidFor(next, c);
    var p :| MadeFor(next, p, c) && Announced(next.completions, p);
  }

  // ---------------------------------------------------------------- one payment for a key

  ghost predicate OneWithKey(w: World, key: Key) {
    forall p, q :: 0 <= p < q < |w.payments| && w.payments[p].key == Some(key) ==> w.payments[q].key != Some(key)
  }

  /** It inserts a payment under the key, on a lookup that found none, although there is one by now. */
  predicate Doubles(w: World, tx: Tx, key: Key) {
    Known(w, Some(key)) &&
    match tx
    case BeginApproval(c, seen, known) => key == ChangeKey(c) && c < |w.changes| && seen == Raised && !known
    case InitiatePayment(_, _, text, known) => ClientKeyOf(text) == Some(key) && !known
    case _ => false
  }

  lemma KnownIff(w: World, key: Key)
    ensures Known(w, Some(key)) <==> exists p :: 0 <= p < |w.payments| && w.payments[p].key == Some(key)
  {
    PaymentWithKeyFinds(w.payments, key, 0);
  }

  lemma PaymentsKeepKeys(env: Env, w: World, tx: Tx, now: Time)
    requires !tx.BeginApproval? && !tx.InitiatePayment?
    ensures var next := Apply(env, w, tx, now).payments;
            |next| == |w.payments| && forall p :: 0 <= p < |next| ==> next[p].key == w.payments[p].key
  {
    if !TouchesPayments(tx) {
      hide Execute, Apply;
      Frames(env, w, tx, now);
    }
  }

  lemma InsertKeepsOneIff(w: World, order: OrderId, amount: int, own: Option<Key>, known: bool, key: Key)
    requires OneWithKey(w, key)
    ensures OneWithKey(Initiate(w, order, amount, own, known), key) <==>
            !(Known(w, Some(key)) && own == Some(key) && !known)
  {
    KnownIff(w, key);
    var next := Initiate(w, order, amount, own, known);
    if Known(w, Some(key)) && own == Some(key) && !known {
      var p :| 0 <= p < |w.payments| && w.payments[p].key == Some(key);
      assert next.payments[p].key == Some(key) && next.payments[|w.payments|].key == Some(key);
    }
  }

  /** Nothing in the table keeps two payments with one key apart: a key stays with one payment exactly when
    * the transaction does not insert another on a stale lookup; and a lookup that still holds never does. */
  lemma {:induction false} KeyStaysUniqueIff(env: Env, w: World, tx: Tx, now: Time, key: Key)
    requires OneWithKey(w, key)
    ensures OneWithKey(Apply(env, w, tx, now), key) <==> !Doubles(w, tx, key)
    ensures LookupHolds(w, tx) ==> !Doubles(w, tx, key)
  {
    hide OneWithKey, Known, Initiate;
    if tx.BeginApproval? {
      BeginIs(env, w, tx, now);
      if tx.change < |w.changes| {
        var change := w.changes[tx.change];
        InsertKeepsOneIff(w, change.order, change.amount, Some(ChangeKey(tx.change)), tx.known, key);
      }
    } else if tx.InitiatePayment? {
      InitiateIs(env, w, tx, now);
      InsertKeepsOneIff(w, tx.order, tx.sum, ClientKeyOf(tx.text), tx.known, key);
    } else {
      OthersKeepOne(env, w, tx, now, key);
    }
  }

  lemma OthersKeepOne(env: Env, w: World, tx: Tx, now: Time, key: Key)
    requires OneWithKey(w, key) && !tx.BeginApproval? && !tx.InitiatePayment?
    ensures OneWithKey(Apply(env, w, tx, now), key)
  {
    hide Execute, Apply;
    PaymentsKeepKeys(env, w, tx, now);
  }

  lemma BeginIs(env: Env, w: World, tx: Tx, now: Time)
    requires tx.BeginApproval?
    ensures var c := tx.change;
            Apply(env, w, tx, now) ==
            if c < |w.changes| && tx.status == Raised then
              Initiate(w, w.changes[c].order, w.changes[c].amount, Some(ChangeKey(c)), tx.known)
            else w
  {
  }

  lemma InitiateIs(env: Env, w: World, tx: Tx, now: Time)
    requires tx.InitiatePayment?
    ensures Apply(env, w, tx, now) == Initiate(w, tx.order, tx.sum, ClientKeyOf(tx.text), tx.known)
  {
  }

  /** No payment of this key was inserted on a lookup that had gone stale. */
  ghost predicate NeverDoubled(env: Env, w: World, calls: seq<Call>, key: Key) {
    forall k :: 0 <= k < |calls| ==> !Doubles(Run(env, w, calls[..k]), calls[k].tx, key)
  }

  lemma NeverDoubledPrefix(env: Env, w: World, calls: seq<Call>, key: Key, n: nat)
    requires NeverDoubled(env, w, calls, key) && n <= |calls|
    ensures NeverDoubled(env, w, calls[..n], key)
  {
    hide Execute, Doubles;
    forall k | 0 <= k < n ensures !Doubles(Run(env, w, calls[..n][..k]), calls[..n][k].tx, key) {
      assert calls[..n][..k] == calls[..k];
    }
  }

  lemma {:induction false} OneWithKeyOverRuns(env: Env, w: World, calls: seq<Call>, key: Key)
    requires Initial(w) && NeverDoubled(env, w, calls, key)
    ensures OneWithKey(Run(env, w, calls), key)
  {
    hide Execute, Doubles;
    if calls != [] {
      var n := |calls| - 1;
      NeverDoubledPrefix(env, w, calls, key, n);
      OneWithKeyOverRuns(env, w, calls[..n], key);
      KeyStaysUniqueIff(env, Run(env, w, calls[..n]), calls[n].tx, calls[n].now, key);
    }
  }

  /** APPROVED means paid, when no payment of the request was inserted on a stale lookup: the stored
    * reference of an approved request is a payment made for this very request, on its order and of its
    * amount, whose completion was announced. */
  lemma {:induction false} ApprovedMeansPaid(env: Env, w: World, calls: seq<Call>, c: ChangeId)
    requires Initial(w) && NeverDoubled(env, w, calls, ChangeKey(c)) && c < |Run(env, w, calls).changes|
    requires Run(env, w, calls).changes[c].status == Approved
    ensures var next := Run(env, w, calls);
            var change := next.changes[c];
            && change.reference.Some? && MadeFor(next, change.reference.value, c)
            && next.payments[change.reference.value].order == change.order
            && next.payments[change.reference.value].amount == change.amount
            && Announced(next.completions, change.reference.value)
  {
    hide Execute, Doubles;
    ApprovedWasPaidFor(env, w, calls, c);
    OneWithKeyOverRuns(env, w, calls, ChangeKey(c));
  }

  /** The reference of an approved request names a paid payment. */
  ghost predicate ReferencePaid(w: World, c: ChangeId) {
    c < |w.changes| && w.changes[c].status == Approved ==>
      w.changes[c].reference.Some? && Announced(w.completions, w.changes[c].reference.value)
  }

  ghost predicate ApprovedArePaid(w: World) {
    forall c :: 0 <= c < |w.changes| ==> ReferencePaid(w, c)
  }

  /** It points an approved request at a payment that was not announced, or approves a request that points
    * at one. */
  ghost predicate Unpays(w: World, tx: Tx) {
    match tx
    case StoreReference(c, p) => Store(w, c, p).Done? && w.changes[c].status == Approved && !Announced(w.completions, p)
    case ApproveMatched(d) =>
      Stands(w, d, Matched) && w.deliveries[d].change < |w.changes|
      && !(w.changes[w.deliveries[d].change].reference.Some?
           && Announced(w.completions, w.changes[w.deliveries[d].change].reference.value))
    case _ => false
  }

  lemma OthersKeepPaid(env: Env, w: World, tx: Tx, now: Time)
    requires ApprovedArePaid(w) && !tx.StoreReference? && !tx.ApproveMatched?
    ensures ApprovedArePaid(Apply(env, w, tx, now))
  {
    hide Execute, Apply;
    var next := Apply(env, w, tx, now);
    EventsGrow(env, w, tx, now);
    forall c | 0 <= c < |next.changes| ensures ReferencePaid(next, c) {
      if next.changes[c].status == Approved {
        AnnouncedStays(w.completions, next.completions, w.changes[c].reference.value);
      }
    }
  }

  lemma EventsGrow(env: Env, w: World, tx: Tx, now: Time)
    requires ApprovedArePaid(w) && !tx.StoreReference? && !tx.ApproveMatched?
    ensures var next := Apply(env, w, tx, now);
            && w.completions <= next.completions
            && forall c :: 0 <= c < |next.changes| && next.changes[c].status == Approved ==>
                 && c < |w.changes| && w.changes[c].status == Approved
                 && next.changes[c].reference == w.changes[c].reference && ReferencePaid(w, c)
  {
    hide ReferencePaid;
    if !TouchesChanges(tx) { OthersLeaveChanges(env, w, tx, now); }
  }

  /** A reference that names a paid payment goes on doing so under a transaction exactly when the second
    * half of an `approve` does not replace it by an unpaid one, and no delivery approves a request that
    * points elsewhere. With one payment for the request, neither can happen. */
  lemma {:induction false} PaidReferencesSurviveIff(env: Env, w: World, tx: Tx, now: Time)
    requires ChangesConsistent(w) && ApprovedArePaid(w)
    ensures ApprovedArePaid(Apply(env, w, tx, now)) <==> !Unpays(w, tx)
    ensures (forall c :: 0 <= c < |w.changes| ==> OneWithKey(w, ChangeKey(c))) ==> !Unpays(w, tx)
  {
    if tx.StoreReference? {
      if Store(w, tx.change, tx.payment).Done? { StorePaidIff(w, tx.change, tx.payment); }
    } else if tx.ApproveMatched? {
      if Stands(w, tx.delivery, Matched) { assert DeliveryAgrees(w, w.deliveries[tx.delivery]); }
      MarkPaidIff(w, tx.delivery);
    } else {
      OthersKeepPaid(env, w, tx, now);
    }
  }

  lemma StorePaidIff(w: World, c: ChangeId, p: PaymentId)
    requires ChangesConsistent(w) && ApprovedArePaid(w) && Store(w, c, p).Done?
    ensures ApprovedArePaid(Store(w, c, p).world) <==> w.changes[c].status != Approved || Announced(w.completions, p)
    ensures OneWithKey(w, ChangeKey(c)) ==> w.changes[c].status != Approved || Announced(w.completions, p)
  {
    var next := Store(w, c, p).world;
    assert ReferencePaid(w, c);
    assert ApprovedArePaid(next) ==> ReferencePaid(next, c);
    forall b | 0 <= b < |w.changes| && b != c ensures ReferencePaid(next, b) {
      assert ReferencePaid(w, b);
    }
  }

  lemma MarkPaidIff(w: World, d: nat)
    requires ChangesConsistent(w) && ApprovedArePaid(w)
    requires Stands(w, d, Matched) ==> DeliveryAgrees(w, w.deliveries[d])
    ensures Mark(w, d).Done? ==> (ApprovedArePaid(Mark(w, d).world) <==> !Unpays(w, ApproveMatched(d)))
    ensures Stands(w, d, Matched) && OneWithKey(w, ChangeKey(w.deliveries[d].change)) ==> !Unpays(w, ApproveMatched(d))
  {
    if Mark(w, d).Done? {
      var c, next := w.deliveries[d].change, Mark(w, d).world;
      assert ApprovedArePaid(next) ==> ReferencePaid(next, c);
      forall b | 0 <= b < |w.changes| && b != c ensures ReferencePaid(next, b) {
        assert ReferencePaid(w, b);
      }
    }
  }

  // ---------------------------------------------------------------- decisions

  /** What one transaction may do to one request: an approval by a delivery that found it, a rejection that
    * saw it open, or the reference of a payment made for it. */
  ghost predicate LegalDecision(w: World, next: World, tx: Tx, c: ChangeId) {
    c < |w.changes| && c < |next.changes| &&
    var before, after := w.changes[c], next.changes[c];
    && after.order == before.order && after.amount == before.amount
    && (after.reference == before.reference
        || (tx.StoreReference? && tx.change == c && MadeFor(w, tx.payment, c) && after.reference == Some(tx.payment)))
    && (after.status == before.status
        || (after.status == Approved && tx.ApproveMatched? && Stands(w, tx.delivery, Matched)
            && w.deliveries[tx.delivery].change == c)
        || (after.status == Rejected && tx == RejectChange(c, Raised)))
  }

  lemma DeliveriesDecide(env: Env, w: World, tx: Tx, now: Time, c: ChangeId)
    requires Delivers(tx) && c < |w.changes|
    ensures LegalDecision(w, Apply(env, w, tx, now), tx, c)
  {
  }

  lemma RequestsDecide(env: Env, w: World, tx: Tx, now: Time, c: ChangeId)
    requires (tx.RaiseChange? || tx.RejectChange? || tx.StoreReference?) && c < |w.changes|
    ensures LegalDecision(w, Apply(env, w, tx, now), tx, c)
  {
  }

  lemma PaymentsDecideNothing(env: Env, w: World, tx: Tx, now: Time)
    requires TouchesPayments(tx)
    ensures Apply(env, w, tx, now).changes == w.changes
  {
    hide Execute, Apply;
    Frames(env, w, tx, now);
  }

  lemma Decides(env: Env, w: World, tx: Tx, now: Time, c: ChangeId)
    requires c < |w.changes|
    ensures LegalDecision(w, Apply(env, w, tx, now), tx, c)
  {
    hide Execute, Apply;
    if !TouchesChanges(tx) {
      OthersLeaveChanges(env, w, tx, now);
    } else if Delivers(tx) {
      DeliveriesDecide(env, w, tx, now, c);
    } else if TouchesPayments(tx) {
      PaymentsDecideNothing(env, w, tx, now);
    } else {
      RequestsDecide(env, w, tx, now, c);
    }
  }

  /** Over every interleaving a request is approved only by a delivery of an announced payment made for
    * this request, rejected only by its own rejection, and given only payments made for it. */
  lemma {:induction false} DecisionStep(env: Env, w: World, tx: Tx, now: Time, c: ChangeId)
    requires ChangesConsistent(w) && c < |w.changes|
    ensures LegalDecision(w, Apply(env, w, tx, now), tx, c)
    ensures tx.ApproveMatched? && Stands(w, tx.delivery, Matched) && w.deliveries[tx.delivery].change == c ==>
              MadeFor(w, w.deliveries[tx.delivery].payment, c)
              && Announced(w.completions, w.deliveries[tx.delivery].payment)
  {
    Decides(env, w, tx, now, c);
    if tx.ApproveMatched? && Stands(w, tx.delivery, Matched) {
      assert DeliveryAgrees(w, w.deliveries[tx.delivery]);
    }
  }

  /** The write overturns the decision on this request: a rejection of it once approved, or an approval once
    * rejected, by a writer that read it open. */
  predicate Overturns(w: World, tx: Tx, c: ChangeId) {
    c < |w.changes| &&
    match tx
    case RejectChange(d, seen) => d == c && seen == Raised && w.changes[c].status == Approved
    case ApproveMatched(d) =>
      Stands(w, d, Matched) && w.deliveries[d].change == c && w.changes[c].status == Rejected
    case _ => false
  }

  lemma OverturnedOne(env: Env, w: World, tx: Tx, now: Time, c: ChangeId)
    requires Overturns(w, tx, c)
    ensures c < |Apply(env, w, tx, now).changes| && Apply(env, w, tx, now).changes[c].status != w.changes[c].status
  {
  }

  /** A decision is final under a transaction, in any database, exactly when the transaction does not write,
    * from a stale read, against it; and one whose read still holds never does. */
  lemma {:induction false} DecisionsSurviveIff(env: Env, w: World, tx: Tx, now: Time, c: ChangeId)
    requires c < |w.changes| && w.changes[c].status != Raised
    ensures c < |Apply(env, w, tx, now).changes|
    ensures Apply(env, w, tx, now).changes[c].status == w.changes[c].status <==> !Overturns(w, tx, c)
    ensures Serial(w, tx) ==> !Overturns(w, tx, c)
  {
    Decides(env, w, tx, now, c);
    if Overturns(w, tx, c) { OverturnedOne(env, w, tx, now, c); }
  }

  /** APPROVED and REJECTED are absorbing over every run in which no writer of this request overturns from a
    * stale read; whatever else happens. */
  lemma {:induction false} DecisionsAreFinal(env: Env, w: World, calls: seq<Call>, n: nat, c: ChangeId)
    requires n <= |calls| && c < |Run(env, w, calls[..n]).changes|
    requires Run(env, w, calls[..n]).changes[c].status != Raised
    requires forall k :: n <= k < |calls| ==> !Overturns(Run(env, w, calls[..k]), calls[k].tx, c)
    ensures c < |Run(env, w, calls).changes|
    ensures Run(env, w, calls).changes[c].status == Run(env, w, calls[..n]).changes[c].status
    decreases |calls| - n
  {
    hide Execute, Overturns;
    if n < |calls| {
      assert calls[..n + 1][..n] == calls[..n];
      DecisionsSurviveIff(env, Run(env, w, calls[..n]), calls[n].tx, calls[n].now, c);
      DecisionsAreFinal(env, w, calls, n + 1, c);
    } else {
      assert calls[..n] == calls;
    }
  }

  lemma ReferenceStays(env: Env, w: World, tx: Tx, now: Time, c: ChangeId)
    requires ChangesConsistent(w) && OneWithKey(w, ChangeKey(c)) && c < |w.changes| && w.changes[c].reference.Some?
    ensures c < |Apply(env, w, tx, now).changes|
            && Apply(env, w, tx, now).changes[c].reference == w.changes[c].reference
  {
    hide Execute, Apply, KeysAgree, EventsAgree, ApprovedWerePaid, DeliveriesAgree;
    Decides(env, w, tx, now, c);
  }

  /** A reference, once stored, stays over every run in which no payment of the request was inserted on a
    * stale lookup. */
  lemma {:induction false} ReferencesAreFinal(env: Env, w: World, calls: seq<Call>, n: nat, c: ChangeId)
    requires Initial(w) && NeverDoubled(env, w, calls, ChangeKey(c))
    requires n <= |calls| && c < |Run(env, w, calls[..n]).changes|
    requires Run(env, w, calls[..n]).changes[c].reference.Some?
    ensures c < |Run(env, w, calls).changes|
    ensures Run(env, w, calls).changes[c].reference == Run(env, w, calls[..n]).changes[c].reference
    decreases |calls| - n
  {
    hide Execute, Doubles, ChangesConsistent, OneWithKey;
    if n < |calls| {
      assert calls[..n + 1][..n] == calls[..n];
      ConsistentOverRuns(env, w, calls[..n]);
      NeverDoubledPrefix(env, w, calls, ChangeKey(c), n);
      OneWithKeyOverRuns(env, w, calls[..n], ChangeKey(c));
      ReferenceStays(env, Run(env, w, calls[..n]), calls[n].tx, calls[n].now, c);
      ReferencesAreFinal(env, w, calls, n + 1, c);
    } else {
      assert calls[..n] == calls;
    }
  }

  // ---------------------------------------------------------------- deliveries

  /** Paid does not imply approved. A completion of a payment made for a request finds it exactly when the
    * request is still open and its reference is this payment: delivered between the two halves of `approve`,
    * after a decision, or after another payment of the request replaced it, it is lost. Completions of
    * other payments find nothing. */
  lemma CompletionFindsIff(w: World, event: nat)
    requires ChangesConsistent(w) && event < |w.completions|
    ensures w.completions[event].payment < |w.payments|
    ensures var payment := w.completions[event].payment;
            var key := w.payments[payment].key;
            if key.Some? && key.value.ChangeKey? then
              && key.value.change < |w.changes|
              && var change := w.changes[key.value.change];
              && (Match(w, event).Done? <==> change.status == Raised && change.reference == Some(payment))
              && (Match(w, event).Done? ==>
                    Match(w, event).world.deliveries ==
                    w.deliveries + [Delivery(key.value.change, payment, change.order, change.amount, Matched)])
            else Match(w, event).Failed?
  {
    hide ApprovedWerePaid, DeliveriesAgree;
    var e := w.completions[event];
    PendingForFinds(w.changes, e.order, e.payment, 0);
    if Match(w, event).Done? {
      var found := PendingFor(w.changes, e.order, e.payment, 0).value;
      assert MadeFor(w, e.payment, found);
    }
  }

  /** The steps of one undisturbed delivery of a completion, when it finds a request. */
  function DeliveryCalls(w: World, event: nat, now: Time): seq<Call> {
    var d := |w.deliveries|;
    [Call(MatchCompletion(event), now)]
    + (if Match(w, event).Done? then
         [Call(ApproveMatched(d), now), Call(ReadTotal(d), now), Call(AddAmount(d), now)]
       else [])
  }

  /** What an undisturbed delivery does: approves the request it found and adds its amount to the order,
    * or does nothing. */
  function AfterDelivery(w: World, event: nat): World {
    if Match(w, event).Failed? || Match(w, event).world.deliveries[|w.deliveries|].change >= |w.changes| then w
    else
      var d := Match(w, event).world.deliveries[|w.deliveries|];
      var approved := w.(changes := w.changes[d.change := w.changes[d.change].(status := Approved)],
                         deliveries := w.deliveries + [d.(progress := Marked)]);
      if d.order >= |w.orders| then approved
      else
        var o := w.orders[d.order];
        approved.(orders := w.orders[d.order := o.(subtotal := o.subtotal + d.amount, total := o.total + d.amount)],
                  deliveries := w.deliveries + [d.(progress := Added)])
  }

  lemma MarkStep(env: Env, w: World, d: nat, now: Time)
    requires Stands(w, d, Matched) && w.deliveries[d].change < |w.changes|
    ensures var c := w.deliveries[d].change;
            Apply(env, w, ApproveMatched(d), now) ==
            w.(changes := w.changes[c := w.changes[c].(status := Approved)],
               deliveries := w.deliveries[d := w.deliveries[d].(progress := Marked)])
  {
  }

  lemma ReadStep(env: Env, w: World, d: nat, now: Time)
    requires Stands(w, d, Marked) && w.deliveries[d].order < |w.orders|
    ensures var o := w.orders[w.deliveries[d].order];
            Apply(env, w, ReadTotal(d), now) ==
            w.(deliveries := w.deliveries[d := w.deliveries[d].(progress := ReadBack(o.subtotal, o.total))])
  {
  }

  lemma AddStep(env: Env, w: World, d: nat, now: Time)
    requires CanAdd(w, d)
    ensures var delivery := w.deliveries[d];
            var o, read := w.orders[delivery.order], delivery.progress;
            Apply(env, w, AddAmount(d), now) ==
            w.(orders := w.orders[delivery.order :=
                 o.(subtotal := read.subtotal + delivery.amount, total := read.total + delivery.amount)],
               deliveries := w.deliveries[d := delivery.(progress := Added)])
  {
  }

  /** Without its order the delivery stops after the approval. */
  lemma NoOrderNoAmount(env: Env, w: World, d: nat, now: Time)
    requires Stands(w, d, Marked) && w.deliveries[d].order >= |w.orders|
    ensures Apply(env, Apply(env, w, ReadTotal(d), now), AddAmount(d), now) == w
  {
  }

  lemma DeliverySteps(env: Env, w: World, event: nat, now: Time)
    requires Match(w, event).Done?
    ensures var d := |w.deliveries|;
            var w1 := Match(w, event).world;
            var w2 := Apply(env, w1, ApproveMatched(d), now);
            var w3 := Apply(env, w2, ReadTotal(d), now);
            Apply(env, w3, AddAmount(d), now) == AfterDelivery(w, event)
  {
    hide Execute, Apply;
    PendingForFinds(w.changes, w.completions[event].order, w.completions[event].payment, 0);
    var d, w1 := |w.deliveries|, Match(w, event).world;
    MarkStep(env, w1, d, now);
    var w2 := Apply(env, w1, ApproveMatched(d), now);
    if w1.deliveries[d].order < |w.orders| {
      ReadStep(env, w2, d, now);
      AddStep(env, Apply(env, w2, ReadTotal(d), now), d, now);
    } else {
      NoOrderNoAmount(env, w2, d, now);
    }
  }

  lemma MatchStep(env: Env, w: World, event: nat, now: Time)
    requires Match(w, event).Done?
    ensures Apply(env, w, MatchCompletion(event), now) == Match(w, event).world
  {
  }

  /** The steps of an undisturbed delivery come to that. */
  lemma DeliveryIsExact(env: Env, w: World, event: nat, now: Time)
    ensures Run(env, w, DeliveryCalls(w, event, now)) == AfterDelivery(w, event)
  {
    hide AfterDelivery;
    var calls := DeliveryCalls(w, event, now);
    if Match(w, event).Done? {
      hide Execute, Apply;
      MatchStep(env, w, event, now);
      DeliverySteps(env, w, event, now);
      assert calls == [calls[0], calls[1]] + [calls[2]] + [calls[3]];
      RunTwo(env, w, calls[0], calls[1]);
      RunSnoc(env, w, [calls[0], calls[1]], calls[2]);
      RunSnoc(env, w, [calls[0], calls[1]] + [calls[2]], calls[3]);
    } else {
      FailedMatch(env, w, event, now);
    }
  }

  lemma FailedMatch(env: Env, w: World, event: nat, now: Time)
    requires Match(w, event).Failed?
    ensures Run(env, w, DeliveryCalls(w, event, now)) == w == AfterDelivery(w, event)
  {
    assert DeliveryCalls(w, event, now)[..0] == [];
  }

  lemma SecondMatchFails(w: World, event: nat)
    requires ChangesConsistent(w) && Match(w, event).Done?
    ensures Match(AfterDelivery(w, event), event).Failed?
  {
    var e, once := w.completions[event], AfterDelivery(w, event);
    CompletionFindsIff(w, event);
    PendingForFinds(once.changes, e.order, e.payment, 0);
    assert forall c :: 0 <= c < |once.changes| && once.changes[c].reference == Some(e.payment) ==>
      MadeFor(w, e.payment, c);
  }

  /** A completion delivered again after its first delivery has finished does nothing. */
  lemma DuplicateDeliveryIsIdle(env: Env, w: World, event: nat, now: Time)
    requires ChangesConsistent(w)
    ensures var once := Run(env, w, DeliveryCalls(w, event, now));
            Run(env, once, DeliveryCalls(once, event, now)) == once
  {
    DeliveryIsExact(env, w, event, now);
    if Match(w, event).Done? {
      SecondMatchFails(w, event);
      FailedMatch(env, AfterDelivery(w, event), event, now);
    } else {
      FailedMatch(env, w, event, now);
    }
  }

  /** Approving again is approving once, when the lookup is current: it finds the payment of the first
    * approval. */
  lemma ApprovalIsIdempotent(w: World, c: ChangeId)
    requires Approve(w, c, Raised, Known(w, Some(ChangeKey(c)))).Done?
    ensures var next := Approve(w, c, Raised, Known(w, Some(ChangeKey(c)))).world;
            && Known(next, Some(ChangeKey(c)))
               && Approve(next, c, Raised, Known(next, Some(ChangeKey(c)))) == Done(next)
  {
    var next := Approve(w, c, Raised, Known(w, Some(ChangeKey(c)))).world;
    KnownIff(w, ChangeKey(c));
    KnownIff(next, ChangeKey(c));
    if !Known(w, Some(ChangeKey(c))) { assert next.payments[|w.payments|].key == Some(ChangeKey(c)); }
  }
}
