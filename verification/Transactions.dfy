/** What each transaction of the services does to the database, and runs of transactions. */
module Transactions {
  import opened Prelude
  import opened Domain
  import opened Lifecycle
  import opened StockLevels
  import opened Pricing

  const PROXIMITY_THRESHOLD_METERS := 100
  const MAX_RETRIES := 3

  function PutOrder(w: World, id: OrderId, o: Order): World
    requires id < |w.orders|
  {
    w.(orders := w.orders[id := o])
  }

  function PutRider(w: World, id: RiderId, r: Rider): World
    requires id < |w.riders|
  {
    w.(riders := w.riders[id := r])
  }

  // ---------------------------------------------------------------- positions

  predicate HasCoords(o: Order) {
    o.lat.Some? && o.lng.Some?
  }

  /** `Number(column)`: a null coordinate reads as zero. */
  function Number(x: Option<real>): real {
    if x.Some? then x.value else 0.0
  }

  function At(o: Order): Coords {
    Coords(Number(o.lat), Number(o.lng))
  }

  function LatestPosition(tracks: seq<Track>, order: OrderId): Option<Coords> {
    if tracks == [] then None
    else if tracks[|tracks| - 1].order == order then Some(tracks[|tracks| - 1].at)
    else LatestPosition(tracks[..|tracks| - 1], order)
  }

  /** Where the rider must be to enter a gated status. */
  function Target(w: World, o: Order, to: Status): Option<Coords> {
    if to == AtStation then
      if o.station < |w.stations| then w.stations[o.station].place else None
    else if HasCoords(o) then Some(At(o))
    else None
  }

  /** The rider's latest tracked position for this order is within the radius of the target. */
  predicate OnTheSpot(env: Env, w: World, id: OrderId, to: Status)
    requires id < |w.orders|
  {
    var target := Target(w, w.orders[id], to);
    var latest := LatestPosition(w.tracks, id);
    target.Some? && latest.Some? && env.metres(latest.value, target.value) <= PROXIMITY_THRESHOLD_METERS
  }

  // ---------------------------------------------------------------- orders

  function NewOrder(d: Draft): Order {
    var subtotal := ItemsTotal(d.items);
    var surcharge := Surcharge(subtotal, d.tier);
    Order(d.customer, d.station, d.tier, d.lat, d.lng, d.items, d.otp,
          Pending, [Entry(None, Pending, Some(d.customer))], map[],
          None, None,
          subtotal, DELIVERY_FEE, surcharge, subtotal + DELIVERY_FEE + surcharge, Split(0, 0, 0),
          false, None)
  }

  function PlaceOrder(w: World, d: Draft): Outcome {
    match ReserveAll(w.stock, d.station, d.items)
    case Refused(e) => Failed(e)
    case Reserved(stock) => Done(w.(stock := stock, orders := w.orders + [NewOrder(d)]))
  }

  /** The checks of `updateStatus` on its way to a checkpoint: the transition from the status it read, and
    * the position. They come some time before the write. */
  function Verify(env: Env, w: World, id: OrderId, seen: Status, to: Status): Outcome {
    if id >= |w.orders| then Failed(NotFound)
    else if !IsValidTransition(seen, to) then Failed(BadRequest)
    else if !Gated(to) then Failed(Skipped)
    else if Target(w, w.orders[id], to).None? then Failed(BadRequest)
    else if !OnTheSpot(env, w, id, to) then Failed(Forbidden)
    else Done(w.(checks := w.checks + [Check(id, seen, to, false)]))
  }

  /** The write may go on: no check is needed, or this one was passed for it and has not written yet. */
  predicate MayWrite(w: World, id: OrderId, seen: Status, to: Status, check: nat) {
    Gated(to) ==> check < |w.checks| && w.checks[check] == Check(id, seen, to, false)
  }

  /** The write, from the status that was read. It uses its check up. */
  function WriteStatus(w: World, id: OrderId, seen: Status, to: Status, user: UserId, check: nat, now: Time): Outcome {
    if id >= |w.orders| then Failed(NotFound)
    else if !IsValidTransition(seen, to) then Failed(BadRequest)
    else if !MayWrite(w, id, seen, to, check) then Failed(Skipped)
    else
      var written := PutOrder(w, id, Advance(w.orders[id], seen, to, Some(user), now));
      Done(if Gated(to) then written.(checks := w.checks[check := w.checks[check].(used := true)]) else written)
  }

  /** Whether the guarded order update of `assignRider` matches a row. */
  predicate Unclaimed(w: World, id: OrderId) {
    id < |w.orders| && w.orders[id].status == Preparing && w.orders[id].riderId.None?
  }

  /** Both guarded updates of `assignRider`, or neither. */
  function Assign(w: World, id: OrderId, rider: RiderId, actor: Option<UserId>, claim: bool, now: Time): Outcome {
    if claim && !(rider < |w.riders| && w.riders[rider].status == Available) then Failed(Conflict)
    else if !Unclaimed(w, id) then Failed(Conflict)
    else
      var claimed := if claim then PutRider(w, rider, w.riders[rider].(status := Busy)) else w;
      Done(PutOrder(claimed, id,
                    Advance(w.orders[id], Preparing, RiderAssigned, actor, now).(riderId := Some(rider))))
  }

  function Confirm(w: World, id: OrderId, seen: Status, user: UserId, code: string, now: Time): Outcome {
    if id >= |w.orders| then Failed(NotFound)
    else if w.orders[id].customer != user then Failed(Forbidden)
    else if seen != Delivered then Failed(BadRequest)
    else if w.orders[id].otp != code then Failed(BadRequest)
    else Done(PutOrder(w, id,
                       Advance(w.orders[id], Delivered, CustomerConfirmed, Some(user), now).(otpVerified := true)))
  }

  function Cancel(w: World, id: OrderId, seen: Status, user: UserId, role: Role, reason: string, now: Time): Outcome {
    if id >= |w.orders| then Failed(NotFound)
    else if !Cancellable(seen) then Failed(BadRequest)
    else if role == Customer && w.orders[id].customer != user then Failed(Forbidden)
    else
      var o := w.orders[id];
      Done(PutOrder(w.(stock := ReleaseAll(w.stock, o.station, o.items)), id,
                    Advance(o, seen, Cancelled, Some(user), now).(cancellationReason := Some(reason))))
  }

  // ---------------------------------------------------------------- riders and wallets

  /** 1 for an order that keeps this rider busy. */
  function ActiveOn(rider: RiderId): Order -> int {
    (o: Order) => if o.riderId == Some(rider) && Active(o.status) then 1 else 0
  }

  /** `releaseRiderIfFree` counts without a lock and then writes. */
  function Release(w: World, rider: RiderId, active: int): Outcome {
    if active != 0 then Failed(Skipped)
    else if rider >= |w.riders| then Failed(NotFound)
    else Done(PutRider(w, rider, w.riders[rider].(status := Available)))
  }

  function CreditTo(wallet: Wallet, amount: int, order: OrderId): Wallet {
    var balance := wallet.available + amount;
    Wallet(balance, wallet.earned + amount, wallet.withdrawn, wallet.version + 1,
           wallet.log + [Posting(Credit, amount, balance, Some(order))])
  }

  function DebitFrom(wallet: Wallet, amount: int): Wallet {
    var balance := wallet.available - amount;
    Wallet(balance, wallet.earned, wallet.withdrawn + amount, wallet.version + 1,
           wallet.log + [Posting(Debit, amount, balance, None)])
  }

  predicate HasWallet(w: World, rider: RiderId) {
    rider < |w.riders| && w.riders[rider].wallet.Some?
  }

  function PutWallet(w: World, rider: RiderId, wallet: Wallet): World
    requires rider < |w.riders|
  {
    PutRider(w, rider, w.riders[rider].(wallet := Some(wallet)))
  }

  function TakeOut(w: World, rider: RiderId, amount: int): Outcome {
    if !HasWallet(w, rider) then Failed(NotFound)
    else if w.riders[rider].wallet.value.available < amount then Failed(BadRequest)
    else Done(PutWallet(w, rider, DebitFrom(w.riders[rider].wallet.value, amount)))
  }

  // ---------------------------------------------------------------- settlement

  /** The handler reads the order outside any transaction, tests nothing but its status, and computes
    * the split. Nothing keeps a second handler of the same order out. */
  function Load(env: Env, w: World, id: OrderId, tieUp: bool): Outcome {
    if id >= |w.orders| || w.orders[id].status != CustomerConfirmed then Failed(Skipped)
    else
      var o := w.orders[id];
      var split := SplitOf(o.total, o.deliveryFee, CommissionRate(w.rules, o.station, env.fallbackRate), tieUp);
      Done(w.(handlers := w.handlers
          + [Handler(id, o.station, o.items, split, o.total, o.riderId, 0, Committing, false)]))
  }

  function PutHandler(w: World, h: nat, handler: Handler): World
    requires h < |w.handlers|
  {
    w.(handlers := w.handlers[h := handler])
  }

  predicate CanCommit(w: World, h: nat) {
    h < |w.handlers| && w.handlers[h].stage == Committing && w.handlers[h].done < |w.handlers[h].items|
  }

  /** One `commitReservation`, in its own transaction. A missing row kills the handler: the
    * outer transaction rolls back, the items already committed stay committed. */
  function CommitNext(w: World, h: nat): Outcome {
    if !CanCommit(w, h) then Failed(Skipped)
    else
      var handler := w.handlers[h];
      var item := handler.items[handler.done];
      var slot := Slot(handler.station, item.kind);
      if slot !in w.stock then Done(PutHandler(w, h, handler.(stage := Aborted)))
      else
        Done(PutHandler(w.(stock := w.stock[slot := CommitRow(w.stock[slot], item.quantity)]), h,
                        handler.(done := handler.done + 1)))
  }

  predicate CanBook(w: World, id: OrderId, h: nat) {
    && h < |w.handlers| && w.handlers[h].order == id && id < |w.orders|
    && w.handlers[h].stage == Committing && w.handlers[h].done == |w.handlers[h].items|
  }

  function AddRevenue(stations: seq<Station>, station: StationId, share: int): seq<Station> {
    if station < |stations| then stations[station := stations[station].(revenue := stations[station].revenue + share)]
    else stations
  }

  /** The outer transaction becomes visible: shares, COMPLETED, history, station revenue. It writes
    * whatever the order's status has become. */
  function Book(w: World, id: OrderId, h: nat, now: Time): Outcome {
    if !CanBook(w, id, h) then Failed(Skipped)
    else
      var handler := w.handlers[h];
      Done(PutHandler(
        w.(stations := AddRevenue(w.stations, handler.station, handler.split.station),
           orders := w.orders[id :=
             Advance(w.orders[id], CustomerConfirmed, Completed, None, now).(shares := handler.split)]),
        h, handler.(stage := Booked(handler.station < |w.stations|))))
  }

  /** The wallet credit that follows the transaction. */
  function Pay(w: World, h: nat): Outcome {
    if h >= |w.handlers| || !w.handlers[h].stage.Booked? then Failed(Skipped)
    else
      var handler := w.handlers[h];
      if handler.credited || handler.payee.None? || handler.split.rider <= 0 then Failed(Skipped)
      else if !HasWallet(w, handler.payee.value) then Failed(NotFound)
      else
        var rider := handler.payee.value;
        var paid := CreditTo(w.riders[rider].wallet.value, handler.split.rider, handler.order);
        Done(PutHandler(PutWallet(w, rider, paid), h, handler.(credited := true)))
  }

  // ---------------------------------------------------------------- stock

  function Adjust(w: World, slot: Slot, filledDelta: int, emptyDelta: int): Outcome {
    if slot !in w.stock then Failed(NotFound)
    else
      var row := w.stock[slot];
      if row.filled + filledDelta < 0 || row.empty + emptyDelta < 0 then Failed(Conflict)
      else Done(w.(stock := w.stock[slot := row.(filled := row.filled + filledDelta, empty := row.empty + emptyDelta,
                                                 version := row.version + 1)]))
  }

  /** `upsertInventory` as `setPricing` calls it: creates a zero row or leaves the counts alone. */
  function Upsert(w: World, slot: Slot): World {
    if slot in w.stock then w else w.(stock := w.stock[slot := Inventory(0, 0, 0, 1)])
  }

  // ---------------------------------------------------------------- batches

  /** Every order of the group gets the batch id. */
  function Tag(orders: seq<Order>, group: seq<OrderId>, batch: BatchId): (r: seq<Order>)
    ensures |r| == |orders|
  {
    if group == [] then orders
    else
      var rest := Tag(orders, group[..|group| - 1], batch);
      var id := group[|group| - 1];
      if id < |orders| then rest[id := rest[id].(batchId := Some(batch))] else rest
  }

  function OpenBatch(w: World, group: seq<OrderId>, centroid: Coords): World {
    w.(orders := Tag(w.orders, group, |w.batches|), batches := w.batches + [Batch(None, Open, centroid, |group|)])
  }

  function AssignBatch(w: World, batch: BatchId, rider: RiderId): Outcome {
    if batch >= |w.batches| then Failed(NotFound)
    else Done(w.(batches := w.batches[batch := w.batches[batch].(rider := Some(rider), status := Assigned)]))
  }

  // ---------------------------------------------------------------- change requests and payments

  function Raise(w: World, order: OrderId, station: StationId, amount: nat): Outcome {
    if order >= |w.orders| then Failed(NotFound)
    else if w.orders[order].station != station then Failed(BadRequest)
    else Done(w.(changes := w.changes + [Change(order, station, amount, Raised, None)]))
  }

  function PaymentWithKey(payments: seq<Payment>, key: Key, from: nat): Option<PaymentId>
    decreases |payments| - from
  {
    if from >= |payments| then None
    else if payments[from].key == Some(key) then Some(from)
    else PaymentWithKey(payments, key, from + 1)
  }

  /** Whether the lookup of `initiate` finds a payment. */
  predicate Known(w: World, key: Option<Key>) {
    key.Some? && PaymentWithKey(w.payments, key.value, 0).Some?
  }

  /** `initiate`: if the lookup found a payment with the key it is reused, otherwise one is inserted. The
    * table does not keep two payments with one key apart. */
  function Initiate(w: World, order: OrderId, amount: int, key: Option<Key>, known: bool): World {
    if key.Some? && known then w
    else w.(payments := w.payments + [Payment(order, amount, key, Initiated, 0)])
  }

  function ClientKeyOf(text: Option<string>): Option<Key> {
    if text.Some? then Some(ClientKey(text.value)) else None
  }

  /** `approve` reads the request and then initiates its payment. */
  function Approve(w: World, change: ChangeId, seen: ChangeStatus, known: bool): Outcome {
    if change >= |w.changes| then Failed(NotFound)
    else if seen != Raised then Failed(BadRequest)
    else Done(Initiate(w, w.changes[change].order, w.changes[change].amount, Some(ChangeKey(change)), known))
  }

  /** The second half of `approve`, any time later. All it knows is that `initiate` returned
    * this payment for the key of this change request; it may replace another one. */
  function Store(w: World, change: ChangeId, payment: PaymentId): Outcome {
    if change < |w.changes| && payment < |w.payments| && w.payments[payment].key == Some(ChangeKey(change)) then
      Done(w.(changes := w.changes[change := w.changes[change].(reference := Some(payment))]))
    else Failed(Skipped)
  }

  /** `reject` reads the request and then overwrites its status. */
  function Reject(w: World, change: ChangeId, seen: ChangeStatus): Outcome {
    if change >= |w.changes| then Failed(NotFound)
    else if seen != Raised then Failed(BadRequest)
    else Done(w.(changes := w.changes[change := w.changes[change].(status := Rejected)]))
  }

  /** A retry of a failed payment is counted before it is made, from the count that the job's query
    * returned; a payment that used up its retries is passed over. */
  function Recount(w: World, payment: PaymentId, count: nat): Outcome {
    if payment >= |w.payments| then Failed(NotFound)
    else if count >= MAX_RETRIES then Failed(Skipped)
    else Done(w.(payments := w.payments[payment := w.payments[payment].(retries := count + 1)]))
  }

  /** The outcome of a provider lookup is written and, when paid, announced. The earlier
    * "already completed" test of `verify` is an unlocked read, so it guards nothing here. */
  function Record(w: World, payment: PaymentId, result: Verification): Outcome {
    if payment >= |w.payments| then Failed(NotFound)
    else
      match result
      case VerifiedPaid =>
        Done(w.(payments := w.payments[payment := w.payments[payment].(status := Paid)],
                completions := w.completions + [Completion(payment, w.payments[payment].order)]))
      case VerifiedFailed =>
        Done(w.(payments := w.payments[payment := w.payments[payment].(status := Declined)]))
      case StillPending => Done(w)
  }

  /** The raised change request of the order with this stored reference. */
  function PendingFor(changes: seq<Change>, order: OrderId, payment: PaymentId, from: nat): Option<ChangeId>
    decreases |changes| - from
  {
    if from >= |changes| then None
    else if changes[from].order == order && changes[from].status == Raised && changes[from].reference == Some(payment)
    then Some(from)
    else PendingFor(changes, order, payment, from + 1)
  }

  lemma PendingForFinds(changes: seq<Change>, order: OrderId, payment: PaymentId, from: nat)
    ensures var found := PendingFor(changes, order, payment, from);
            found.Some? ==>
              && from <= found.value < |changes| && changes[found.value].order == order
              && changes[found.value].status == Raised && changes[found.value].reference == Some(payment)
    ensures PendingFor(changes, order, payment, from).None? ==>
              forall c :: from <= c < |changes| ==>
                !(changes[c].order == order && changes[c].status == Raised && changes[c].reference == Some(payment))
    decreases |changes| - from
  {
  }

  /** `handlePaymentCompleted` finds the request that an emitted event is about. */
  function Match(w: World, event: nat): Outcome {
    if event >= |w.completions| then Failed(Skipped)
    else
      var c := w.completions[event];
      match PendingFor(w.changes, c.order, c.payment, 0)
      case None => Failed(Skipped)
      case Some(found) =>
        if found >= |w.changes| then Failed(Skipped)
        else
          var delivery := Delivery(found, c.payment, c.order, w.changes[found].amount, Matched);
          Done(w.(deliveries := w.deliveries + [delivery]))
  }

  function PutDelivery(w: World, d: nat, progress: Progress): World
    requires d < |w.deliveries|
  {
    w.(deliveries := w.deliveries[d := w.deliveries[d].(progress := progress)])
  }

  predicate Stands(w: World, d: nat, progress: Progress) {
    d < |w.deliveries| && w.deliveries[d].progress == progress
  }

  /** It marks the request APPROVED, whatever it has become since it was found. */
  function Mark(w: World, d: nat): Outcome {
    if !Stands(w, d, Matched) || w.deliveries[d].change >= |w.changes| then Failed(Skipped)
    else
      var c := w.deliveries[d].change;
      Done(PutDelivery(w.(changes := w.changes[c := w.changes[c].(status := Approved)]), d, Marked))
  }

  /** It reads the order's amounts, */
  function ReadAmounts(w: World, d: nat): Outcome {
    if !Stands(w, d, Marked) || w.deliveries[d].order >= |w.orders| then Failed(Skipped)
    else
      var o := w.orders[w.deliveries[d].order];
      Done(PutDelivery(w, d, ReadBack(o.subtotal, o.total)))
  }

  predicate CanAdd(w: World, d: nat) {
    d < |w.deliveries| && w.deliveries[d].progress.ReadBack? && w.deliveries[d].order < |w.orders|
  }

  /** and overwrites them with their sums with the request's amount. */
  function Add(w: World, d: nat): Outcome {
    if !CanAdd(w, d) then Failed(Skipped)
    else
      var delivery := w.deliveries[d];
      var o, read := w.orders[delivery.order], delivery.progress;
      Done(PutDelivery(
        PutOrder(w, delivery.order,
            o.(subtotal := read.subtotal + delivery.amount, total := read.total + delivery.amount)),
        d, Added))
  }

  // ---------------------------------------------------------------- runs

  /** What each transaction commits, or why it fails. Proofs that need only the lemmas about single
    * transactions hide this body. */
  function Execute(env: Env, w: World, tx: Tx, now: Time): Outcome {
    match tx
    case CreateOrder(d) => PlaceOrder(w, d)
    case VerifyCheckpoint(id, seen, to) => Verify(env, w, id, seen, to)
    case UpdateStatus(id, seen, to, user, check) => WriteStatus(w, id, seen, to, user, check, now)
    case AssignRider(id, rider, actor, claim) => Assign(w, id, rider, actor, claim, now)
    case ConfirmDelivery(id, seen, user, code) => Confirm(w, id, seen, user, code, now)
    case CancelOrder(id, seen, user, role, reason) => Cancel(w, id, seen, user, role, reason, now)
    case ReleaseRider(rider, active) => Release(w, rider, active)
    case SetAvailability(rider, status) =>
      if rider < |w.riders| then Done(PutRider(w, rider, w.riders[rider].(status := status))) else Failed(NotFound)
    case LoadSettlement(id, tieUp) => Load(env, w, id, tieUp)
    case CommitItem(h) => CommitNext(w, h)
    case BookSettlement(id, h) => Book(w, id, h, now)
    case CreditPayee(h) => Pay(w, h)
    case Withdraw(rider, sum) => TakeOut(w, rider, sum)
    case AdjustStock(slot, filled, empty) => Adjust(w, slot, filled, empty)
    case UpsertInventory(slot) => Done(Upsert(w, slot))
    case MakeBatch(group, centroid) => Done(OpenBatch(w, group, centroid))
    case CloseBatch(batch, rider) => AssignBatch(w, batch, rider)
    case RaiseChange(order, station, extra) => Raise(w, order, station, extra)
    case BeginApproval(change, seen, known) => Approve(w, change, seen, known)
    case StoreReference(change, payment) => Store(w, change, payment)
    case RejectChange(change, seen) => Reject(w, change, seen)
    case InitiatePayment(order, sum, text, known) => Done(Initiate(w, order, sum, ClientKeyOf(text), known))
    case MarkProcessing(p) =>
      if p < |w.payments| then Done(w.(payments := w.payments[p := w.payments[p].(status := Processing)]))
      else Failed(NotFound)
    case CountRetry(p, count) => Recount(w, p, count)
    case RecordVerification(p, result) => Record(w, p, result)
    case MatchCompletion(event) => Match(w, event)
    case ApproveMatched(d) => Mark(w, d)
    case ReadTotal(d) => ReadAmounts(w, d)
    case AddAmount(d) => Add(w, d)
    case DeactivateRules(rate, scope) =>
      if 0 <= rate <= 10000 then Done(w.(rules := Deactivate(w.rules, scope))) else Failed(BadRequest)
    case InsertRule(rate, scope) =>
      if 0 <= rate <= 10000 then Done(w.(rules := w.rules + [Rule(scope, rate, true)])) else Failed(BadRequest)
    case RecordLocation(order, rider, at) =>
      var moved := if rider < |w.riders| then PutRider(w, rider, w.riders[rider].(place := Some(at))) else w;
      Done(moved.(tracks := w.tracks + [Track(order, rider, at)]))
    case CreateStation(place) => Done(w.(stations := w.stations + [Station(place, 0)]))
    case MoveStation(s, place) =>
      if s < |w.stations| then Done(w.(stations := w.stations[s := w.stations[s].(place := place)]))
          else Failed(NotFound)
    case CreateRider => Done(w.(riders := w.riders + [Rider(Offline, false, None, None)]))
    case CreateWallet(rider) =>
      if rider >= |w.riders| || w.riders[rider].wallet.Some? then Failed(Conflict)
      else Done(PutWallet(w, rider, Wallet(0, 0, 0, 1, [])))
    case ReviewRider(rider, verified) =>
      if rider < |w.riders| then Done(PutRider(w, rider, w.riders[rider].(verified := verified))) else Failed(NotFound)
  }

  /** A failed transaction leaves the database as it was. */
  function Apply(env: Env, w: World, tx: Tx, now: Time): World {
    match Execute(env, w, tx, now)
    case Done(next) => next
    case Failed(_) => w
  }

  function Run(env: Env, w: World, calls: seq<Call>): World {
    if calls == [] then w
    else Apply(env, Run(env, w, calls[..|calls| - 1]), calls[|calls| - 1].tx, calls[|calls| - 1].now)
  }

  lemma RunNone(env: Env, w: World)
    ensures Run(env, w, []) == w
  {
  }

  lemma {:induction false} RunConcat(env: Env, w: World, a: seq<Call>, b: seq<Call>)
    ensures Run(env, w, a + b) == Run(env, Run(env, w, a), b)
  {
    hide Execute;
    if b == [] {
      assert a + b == a;
    } else {
      var n := |b| - 1;
      assert (a + b)[..|a| + n] == a + b[..n];
      RunConcat(env, w, a, b[..n]);
    }
  }

  lemma RunHead(env: Env, w: World, head: Call, rest: seq<Call>)
    ensures Run(env, w, [head] + rest) == Run(env, Apply(env, w, head.tx, head.now), rest)
  {
    RunConcat(env, w, [head], rest);
    assert [head][..0] == [];
  }

  lemma RunTwo(env: Env, w: World, a: Call, b: Call)
    ensures Run(env, w, [a, b]) == Apply(env, Apply(env, w, a.tx, a.now), b.tx, b.now)
  {
    hide Execute;
    RunHead(env, w, a, [b]);
    assert [a] + [b] == [a, b];
    assert [b][..0] == [];
  }

  /** The k-th transaction of the run commits. */
  ghost predicate Succeeds(env: Env, w: World, calls: seq<Call>, k: nat)
    requires k < |calls|
  {
    Execute(env, Run(env, w, calls[..k]), calls[k].tx, calls[k].now).Done?
  }

  /** The transactions that enter a status. */
  predicate EntersStatus(tx: Tx) {
    tx.UpdateStatus? || tx.AssignRider? || tx.ConfirmDelivery? || tx.CancelOrder? || tx.BookSettlement?
  }

  /** The transactions that never write an orders row. */
  predicate LeavesOrders(tx: Tx) {
    !(tx.CreateOrder? || EntersStatus(tx) || tx.MakeBatch? || tx.AddAmount?)
  }

  /** The tables that a transaction leaves alone. */
  ghost predicate TablesLeft(w: World, next: World, tx: Tx) {
    && (LeavesOrders(tx) ==> next.orders == w.orders)
    && (tx.CreateOrder? || tx.CancelOrder? || tx.CommitItem? || tx.AdjustStock? || tx.UpsertInventory?
        || next.stock == w.stock)
    && (tx.AssignRider? || tx.ReleaseRider? || tx.SetAvailability? || tx.CreditPayee? || tx.Withdraw?
        || tx.RecordLocation? || tx.CreateRider? || tx.CreateWallet? || tx.ReviewRider? || next.riders == w.riders)
    && (tx.BookSettlement? || tx.CreateStation? || tx.MoveStation? || next.stations == w.stations)
    && (tx.MakeBatch? || tx.CloseBatch? || next.batches == w.batches)
    && (tx.DeactivateRules? || tx.InsertRule? || next.rules == w.rules)
    && (tx.RaiseChange? || tx.StoreReference? || tx.RejectChange? || tx.ApproveMatched? || next.changes == w.changes)
    && (tx.BeginApproval? || tx.InitiatePayment? || tx.MarkProcessing? || tx.CountRetry? || tx.RecordVerification?
        || next.payments == w.payments)
    && (tx.RecordVerification? || next.completions == w.completions)
    && (tx.RecordLocation? || next.tracks == w.tracks)
    && (tx.LoadSettlement? || tx.CommitItem? || tx.BookSettlement? || tx.CreditPayee? || next.handlers == w.handlers)
    && (tx.MatchCompletion? || tx.ApproveMatched? || tx.ReadTotal? || tx.AddAmount? || next.deliveries == w.deliveries)
    && (tx.VerifyCheckpoint? || tx.UpdateStatus? || next.checks == w.checks)
  }

  predicate OnOrders(tx: Tx) {
    tx.CreateOrder? || tx.VerifyCheckpoint? || tx.MakeBatch? || tx.CloseBatch?
  }

  predicate OnRequests(tx: Tx) {
    tx.RaiseChange? || tx.StoreReference? || tx.RejectChange?
  }

  /** The transactions that write the payments table. */
  predicate TouchesPayments(tx: Tx) {
    tx.BeginApproval? || tx.InitiatePayment? || tx.MarkProcessing? || tx.CountRetry? || tx.RecordVerification?
  }

  /** The four steps of `handlePaymentCompleted`. */
  predicate Delivers(tx: Tx) {
    tx.MatchCompletion? || tx.ApproveMatched? || tx.ReadTotal? || tx.AddAmount?
  }

  lemma StatusFrames(env: Env, w: World, tx: Tx, now: Time)
    requires EntersStatus(tx)
    ensures TablesLeft(w, Apply(env, w, tx, now), tx)
  {
    hide Advance, ReleaseAll, IsValidTransition, MayWrite;
  }

  lemma OrderFrames(env: Env, w: World, tx: Tx, now: Time)
    requires OnOrders(tx)
    ensures TablesLeft(w, Apply(env, w, tx, now), tx)
  {
    hide OnTheSpot, Target, ReserveAll, NewOrder, Tag;
  }

  lemma RequestFrames(env: Env, w: World, tx: Tx, now: Time)
    requires OnRequests(tx)
    ensures TablesLeft(w, Apply(env, w, tx, now), tx)
  {
  }

  lemma PaymentFrames(env: Env, w: World, tx: Tx, now: Time)
    requires TouchesPayments(tx)
    ensures TablesLeft(w, Apply(env, w, tx, now), tx)
  {
  }

  lemma DeliveryFrames(env: Env, w: World, tx: Tx, now: Time)
    requires Delivers(tx)
    ensures TablesLeft(w, Apply(env, w, tx, now), tx)
  {
    hide PendingFor;
  }

  lemma OtherFrames(env: Env, w: World, tx: Tx, now: Time)
    requires !EntersStatus(tx) && !OnOrders(tx) && !OnRequests(tx) && !TouchesPayments(tx) && !Delivers(tx)
    ensures TablesLeft(w, Apply(env, w, tx, now), tx)
  {
    hide SplitOf, CommissionRate, CommitRow, CreditTo, DebitFrom;
  }

  lemma Frames(env: Env, w: World, tx: Tx, now: Time)
    ensures TablesLeft(w, Apply(env, w, tx, now), tx)
  {
    hide Execute, Apply, TablesLeft;
    if EntersStatus(tx) {
      StatusFrames(env, w, tx, now);
    } else if OnOrders(tx) {
      OrderFrames(env, w, tx, now);
    } else if OnRequests(tx) {
      RequestFrames(env, w, tx, now);
    } else if TouchesPayments(tx) {
      PaymentFrames(env, w, tx, now);
    } else if Delivers(tx) {
      DeliveryFrames(env, w, tx, now);
    } else {
      OtherFrames(env, w, tx, now);
    }
  }

  lemma OrdersLeft(env: Env, w: World, tx: Tx, now: Time)
    requires LeavesOrders(tx)
    ensures Apply(env, w, tx, now).orders == w.orders
  {
    hide Execute, Apply;
    Frames(env, w, tx, now);
  }

  // ---------------------------------------------------------------- serial runs

  /** The group is as `clusterPendingOrders` read it: its orders still wait, unbatched and unclaimed. */
  ghost predicate FreshGroup(w: World, group: seq<OrderId>) {
    && 1 <= |group| <= 3
    && (forall i, j :: 0 <= i < j < |group| ==> group[i] != group[j])
    && (forall id :: id in group ==> Unclaimed(w, id) && w.orders[id].batchId.None?)
  }

  /** Handlers of the order. */
  function HandlerOf(id: OrderId): Handler -> int {
    (h: Handler) => if h.order == id then 1 else 0
  }

  /** How often the history enters CUSTOMER_CONFIRMED: each entry emitted one event. */
  function Confirmations(history: seq<Entry>): nat {
    if history == [] then 0
    else Confirmations(history[..|history| - 1]) + (if history[|history| - 1].to == CustomerConfirmed then 1 else 0)
  }

  /** Some confirmation event of the order has not started a handler yet. */
  predicate EventLeft(w: World, id: OrderId) {
    id < |w.orders| && Total(w.handlers, HandlerOf(id)) < Confirmations(w.orders[id].history)
  }

  predicate StillConfirmed(w: World, h: nat) {
    h < |w.handlers| && w.handlers[h].order < |w.orders| ==> w.orders[w.handlers[h].order].status == CustomerConfirmed
  }

  /** A lookup of `initiate` that found nothing would still find nothing when the payment is inserted. */
  predicate LookupHolds(w: World, tx: Tx) {
    match tx
    case BeginApproval(c, _, known) => Known(w, Some(ChangeKey(c))) ==> known
    case InitiatePayment(_, _, text, known) => Known(w, ClientKeyOf(text)) ==> known
    case _ => true
  }

  /** What the transaction's unlocked reads returned still holds when it writes, and a confirmation
    * event starts at most one handler. */
  ghost predicate Serial(w: World, tx: Tx) {
    match tx
    case VerifyCheckpoint(id, seen, _) => id < |w.orders| ==> w.orders[id].status == seen
    case UpdateStatus(id, seen, _, _, _) => id < |w.orders| ==> w.orders[id].status == seen
    case ConfirmDelivery(id, seen, _, _) => id < |w.orders| ==> w.orders[id].status == seen
    case CancelOrder(id, seen, _, _, _) => id < |w.orders| ==> w.orders[id].status == seen
    case ReleaseRider(rider, active) => active == Total(w.orders, ActiveOn(rider))
    case LoadSettlement(id, _) => id < |w.orders| && w.orders[id].status == CustomerConfirmed ==> EventLeft(w, id)
    case CommitItem(h) => StillConfirmed(w, h)
    case BookSettlement(_, h) => StillConfirmed(w, h)
    case BeginApproval(c, seen, _) => (c < |w.changes| ==> w.changes[c].status == seen) && LookupHolds(w, tx)
    case InitiatePayment(_, _, _, _) => LookupHolds(w, tx)
    case RejectChange(c, seen) => c < |w.changes| ==> w.changes[c].status == seen
    case ApproveMatched(d) =>
      Stands(w, d, Matched) && w.deliveries[d].change < |w.changes| ==>
          w.changes[w.deliveries[d].change].status == Raised
    case AddAmount(d) =>
      CanAdd(w, d) ==>
        var o, read := w.orders[w.deliveries[d].order], w.deliveries[d].progress;
        o.subtotal == read.subtotal && o.total == read.total
    case InsertRule(_, scope) => ActiveRate(w.rules, scope).None?
    case MakeBatch(group, _) => FreshGroup(w, group)
    case _ => true
  }

  ghost predicate SerialRun(env: Env, w: World, calls: seq<Call>) {
    forall k :: 0 <= k < |calls| ==> Serial(Run(env, w, calls[..k]), calls[k].tx)
  }

  lemma {:induction false} SerialPrefix(env: Env, w: World, calls: seq<Call>, n: nat)
    requires SerialRun(env, w, calls) && n <= |calls|
    ensures SerialRun(env, w, calls[..n])
  {
    hide Execute;
    forall k | 0 <= k < n ensures Serial(Run(env, w, calls[..n][..k]), calls[..n][k].tx) {
      assert calls[..n][..k] == calls[..k];
    }
  }

  lemma RunSnoc(env: Env, w: World, calls: seq<Call>, call: Call)
    ensures Run(env, w, calls + [call]) == Apply(env, Run(env, w, calls), call.tx, call.now)
  {
    hide Execute, Apply;
    assert (calls + [call])[..|calls|] == calls;
  }

  lemma SingleCallIsSerial(env: Env, w: World, call: Call)
    requires Serial(w, call.tx)
    ensures SerialRun(env, w, [call]) && Run(env, w, [call]) == Apply(env, w, call.tx, call.now)
  {
    hide Execute;
    assert [call][..0] == [];
  }

  lemma {:induction false} SerialSnoc(env: Env, w: World, calls: seq<Call>, call: Call)
    requires SerialRun(env, w, calls) && Serial(Run(env, w, calls), call.tx)
    ensures SerialRun(env, w, calls + [call])
    ensures Run(env, w, calls + [call]) == Apply(env, Run(env, w, calls), call.tx, call.now)
  {
    hide Execute, Apply;
    var all := calls + [call];
    assert all[..|calls|] == calls;
    forall k | 0 <= k < |all| ensures Serial(Run(env, w, all[..k]), all[k].tx) {
      if k < |calls| { assert all[..k] == calls[..k]; }
    }
  }

  /** A database before the first order: stations, riders and stock of any kind, nothing reserved. */
  ghost predicate Initial(w: World) {
    && w.orders == [] && w.batches == [] && w.changes == [] && w.payments == [] && w.completions == []
    && w.handlers == [] && w.deliveries == [] && w.checks == []
    && forall slot :: slot in w.stock ==> w.stock[slot].reserved == 0 <= w.stock[slot].filled
  }
}
