/** The rows of the Powergas tables, the whole database as one value, and the
  * transactions that write it. Row ids are row numbers: ids are fresh by construction.
  * Money is in cents, rates are in basis points. */
module Domain {
  import opened Prelude

  type OrderId = nat
  type RiderId = nat
  type StationId = nat
  type BatchId = nat
  type ChangeId = nat
  type PaymentId = nat
  type UserId = nat
  type TypeId = nat
  type Time = int

  datatype Status =
    | Pending | Accepted | InventoryReserved | Preparing | RiderAssigned
    | RiderEnRoutePickup | RiderArrivedPickup | CylinderPickedUp | RiderEnRouteStation
    | AtStation | RiderEnRouteDelivery | RiderArrivedDelivery | Delivered
    | CustomerConfirmed | Completed | Cancelled | Refunded

  datatype Tier = Standard | Express
  datatype Role = Customer | OtherRole
  datatype Coords = Coords(lat: real, lng: real)
  datatype Item = Item(kind: TypeId, quantity: nat, unitPrice: nat)
  datatype Entry = Entry(from: Option<Status>, to: Status, changedBy: Option<UserId>)

  /** The three-way division of an order total. */
  datatype Split = Split(commission: int, station: int, rider: int)

  /** One execution of `settle`, the handler of a confirmation event: not a table, but its local
    * variables (what it read of the order), how many items it has committed, and where it stands.
    * An order may have any number of them. */
  datatype Stage = Committing | Aborted | Booked(recorded: bool)
  datatype Handler = Handler(
    order: OrderId, station: StationId, items: seq<Item>,
    split: Split, total: int, payee: Option<RiderId>,
    done: nat, stage: Stage, credited: bool)

  /** An `orders` row with its items and its status history. `stamps` holds the eight
    * milestone time columns, keyed by the status that sets them. */
  datatype Order = Order(
    customer: UserId, station: StationId, tier: Tier, lat: Option<real>, lng: Option<real>,
    items: seq<Item>, otp: string,
    status: Status, history: seq<Entry>, stamps: map<Status, Time>,
    riderId: Option<RiderId>, batchId: Option<BatchId>,
    subtotal: int, deliveryFee: int, surcharge: int, total: int, shares: Split,
    otpVerified: bool, cancellationReason: Option<string>)

  /** What the customer submits. */
  datatype Draft = Draft(
    customer: UserId, station: StationId, tier: Tier, lat: Option<real>, lng: Option<real>,
    items: seq<Item>, otp: string)

  datatype Slot = Slot(station: StationId, kind: TypeId)
  datatype Inventory = Inventory(filled: int, empty: int, reserved: int, version: int)
  type Stock = map<Slot, Inventory>

  datatype RiderStatus = Available | Busy | Offline | Suspended
  datatype PostingKind = Credit | Debit
  datatype Posting = Posting(kind: PostingKind, amount: int, balanceAfter: int, order: Option<OrderId>)
  datatype Wallet = Wallet(available: int, earned: int, withdrawn: int, version: int, log: seq<Posting>)
  datatype Rider = Rider(status: RiderStatus, verified: bool, place: Option<Coords>, wallet: Option<Wallet>)

  datatype Station = Station(place: Option<Coords>, revenue: int)

  datatype BatchStatus = Open | Assigned
  datatype Batch = Batch(rider: Option<RiderId>, status: BatchStatus, centroid: Coords, orderCount: int)

  datatype Rule = Rule(scope: Option<StationId>, rate: int, active: bool)

  datatype ChangeStatus = Raised | Approved | Rejected
  datatype Change = Change(order: OrderId, station: StationId, amount: nat, status: ChangeStatus,
                           reference: Option<PaymentId>)

  datatype Key = ClientKey(text: string) | ChangeKey(change: ChangeId)
  datatype PaymentStatus = Initiated | Processing | Paid | Declined
  datatype Payment = Payment(order: OrderId, amount: int, key: Option<Key>, status: PaymentStatus, retries: nat)
  datatype Verification = VerifiedPaid | VerifiedFailed | StillPending

  /** Payload of one emitted `payment.completed` event. */
  datatype Completion = Completion(payment: PaymentId, order: OrderId)

  /** One execution of `handlePaymentCompleted` that found a request: the request it read, and how far
    * it has come. `ReadBack` holds the order amounts it read and is about to overwrite. */
  datatype Progress = Matched | Marked | ReadBack(subtotal: int, total: int) | Added
  datatype Delivery = Delivery(
    change: ChangeId, payment: PaymentId, order: OrderId, amount: nat, progress: Progress)

  /** One execution of `updateStatus` for a checkpoint that has passed its checks: the status it read,
    * and whether it has written yet. */
  datatype Check = Check(order: OrderId, seen: Status, to: Status, used: bool)

  datatype Track = Track(order: OrderId, rider: RiderId, at: Coords)

  datatype World = World(
    orders: seq<Order>, stock: Stock, riders: seq<Rider>, stations: seq<Station>,
    batches: seq<Batch>, rules: seq<Rule>, changes: seq<Change>, payments: seq<Payment>,
    completions: seq<Completion>, tracks: seq<Track>,
    handlers: seq<Handler>, deliveries: seq<Delivery>, checks: seq<Check>)

  /** The two distance functions and the configured commission fallback. */
  datatype Env = Env(km: (Coords, Coords) -> real, metres: (Coords, Coords) -> int, fallbackRate: int)

  datatype Error = NotFound | BadRequest | Conflict | Forbidden | Skipped

  /** A transaction commits a new database or fails and leaves the old one. */
  datatype Outcome = Done(world: World) | Failed(error: Error)

  /** One database transaction, or one write that follows an unlocked read. `seen` is the status,
    * `active` the number of orders, and `known` whether a payment had the key, according to the unlocked
    * read; they may be stale. `check` is the check that an `updateStatus` to a checkpoint has passed. */
  datatype Tx =
    | CreateOrder(draft: Draft)
    | VerifyCheckpoint(order: OrderId, seen: Status, to: Status)
    | UpdateStatus(order: OrderId, seen: Status, to: Status, user: UserId, check: nat)
    | AssignRider(order: OrderId, rider: RiderId, actor: Option<UserId>, claim: bool)
    | ConfirmDelivery(order: OrderId, seen: Status, user: UserId, code: string)
    | CancelOrder(order: OrderId, seen: Status, user: UserId, role: Role, reason: string)
    | ReleaseRider(rider: RiderId, active: int)
    | SetAvailability(rider: RiderId, availability: RiderStatus)
    | LoadSettlement(order: OrderId, tieUp: bool)
    | CommitItem(handler: nat)
    | BookSettlement(order: OrderId, handler: nat)
    | CreditPayee(handler: nat)
    | Withdraw(rider: RiderId, sum: int)
    | AdjustStock(slot: Slot, filledDelta: int, emptyDelta: int)
    | UpsertInventory(slot: Slot)
    | MakeBatch(group: seq<OrderId>, centroid: Coords)
    | CloseBatch(batch: BatchId, rider: RiderId)
    | RaiseChange(order: OrderId, station: StationId, extra: nat)
    | BeginApproval(change: ChangeId, status: ChangeStatus, known: bool)
    | StoreReference(change: ChangeId, payment: PaymentId)
    | RejectChange(change: ChangeId, status: ChangeStatus)
    | InitiatePayment(order: OrderId, sum: int, text: Option<string>, known: bool)
    | MarkProcessing(payment: PaymentId)
    | CountRetry(payment: PaymentId, count: nat)
    | RecordVerification(payment: PaymentId, result: Verification)
    | MatchCompletion(event: nat)
    | ApproveMatched(delivery: nat)
    | ReadTotal(delivery: nat)
    | AddAmount(delivery: nat)
    | DeactivateRules(rate: int, scope: Option<StationId>)
    | InsertRule(rate: int, scope: Option<StationId>)
    | RecordLocation(order: OrderId, rider: RiderId, at: Coords)
    | CreateStation(place: Option<Coords>)
    | MoveStation(station: StationId, place: Option<Coords>)
    | CreateRider
    | CreateWallet(rider: RiderId)
    | ReviewRider(rider: RiderId, verified: bool)

  /** A transaction and the clock value it uses. */
  datatype Call = Call(tx: Tx, now: Time)
}
