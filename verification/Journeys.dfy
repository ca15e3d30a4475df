/** Concrete runs from an empty database in which a promise is broken: one order that goes all the way,
  * oversold or settled twice, and a few short ones. */
module Journeys {
  import opened Prelude
  import opened Domain
  import opened Lifecycle
  import opened StockLevels
  import opened Pricing
  import opened Transactions
  import opened OrderHistory
  import opened Handlers
  import opened StockLedger
  import opened SettlementService
  import opened SettlementEffect
  import opened BatchRuns
  import opened FleetSafety

  const SHELF := Slot(0, 0)
  const HERE := Coords(0.0, 0.0)

  /** Everywhere is near, and the platform takes nothing. */
  function FlatEnv(): Env {
    Env((a, b) => 0.0, (a, b) => 0, 0)
  }

  function Driver(status: RiderStatus): Rider {
    Rider(status, true, Some(HERE), Some(Wallet(0, 0, 0, 1, [])))
  }

  /** One station with this many cylinders, one available rider, and no orders. */
  function Opened(cylinders: nat): World {
    World([], map[SHELF := Inventory(cylinders, 0, 0, 1)], [Driver(Available)], [Station(Some(HERE), 0)],
          [], [], [], [], [], [], [], [], [])
  }

  /** One cylinder for 5.00. */
  function OneOrder(): Draft {
    Draft(0, 0, Standard, Some(0.0), Some(0.0), [Item(0, 1, 500)], "")
  }

  lemma OrderPlaced(stock: Inventory, w: World)
    requires w.stock == map[SHELF := stock] && stock.filled - stock.reserved >= 1
    ensures PlaceOrder(w, OneOrder()) ==
            Done(w.(stock := map[SHELF := stock.(reserved := stock.reserved + 1, version := stock.version + 1)],
                    orders := w.orders + [NewOrder(OneOrder())]))
  {
    var d := OneOrder();
    var next := map[SHELF := stock.(reserved := stock.reserved + 1, version := stock.version + 1)];
    assert ReserveAll(w.stock, d.station, d.items) == ReserveAll(next, d.station, d.items[1..]);
  }

  // ---------------------------------------------------------------- one order, all the way

  /** The k-th status of an order that is delivered. */
  function Stop(k: nat): Status {
    match k
    case 0 => Pending
    case 1 => Accepted
    case 2 => InventoryReserved
    case 3 => Preparing
    case 4 => RiderAssigned
    case 5 => RiderEnRoutePickup
    case 6 => RiderArrivedPickup
    case 7 => CylinderPickedUp
    case 8 => RiderEnRouteStation
    case 9 => AtStation
    case 10 => RiderEnRouteDelivery
    case 11 => RiderArrivedDelivery
    case _ => Delivered
  }

  /** The one order stands at its k-th stop, its rider tracked where everything is. */
  ghost predicate Travels(w: World, stock: Inventory, k: nat) {
    && |w.orders| == 1 && w.orders[0].status == Stop(k)
    && w.orders[0].station == 0 && w.orders[0].items == OneOrder().items
    && w.orders[0].lat == Some(0.0) && w.orders[0].lng == Some(0.0)
    && w.orders[0].customer == 0 && w.orders[0].otp == ""
    && w.orders[0].total == 1500 && w.orders[0].deliveryFee == 1000
    && w.orders[0].riderId == (if k < 4 then None else Some(0))
    && w.stock == map[SHELF := stock] && w.stations == [Station(Some(HERE), 0)]
    && w.riders == [Driver(if k < 4 then Available else Busy)] && w.rules == []
    && w.handlers == [] && w.tracks == [Track(0, 0, HERE)] && |w.checks| == ChecksBefore(k + 1)
  }

  /** The checks made before the k-th stop. */
  function ChecksBefore(k: nat): nat {
    if k <= 6 then 0 else if k <= 9 then 1 else if k <= 11 then 2 else if k <= 12 then 3 else 4
  }

  function VerifyLeg(k: nat): Tx
    requires k > 0
  {
    VerifyCheckpoint(0, Stop(k - 1), Stop(k))
  }

  function WriteLeg(k: nat): Tx
    requires k > 0
  {
    UpdateStatus(0, Stop(k - 1), Stop(k), 0, ChecksBefore(k))
  }

  /** The calls that take the order to its k-th stop; checkpoints are checked first. */
  function Leg(k: nat): seq<Call>
    requires k > 0
  {
    if k == 4 then [Call(AssignRider(0, 0, None, true), 0)]
    else (if Gated(Stop(k)) then [Call(VerifyLeg(k), 0)] else []) + [Call(WriteLeg(k), 0)]
  }

  function Walk(opening: seq<Call>, k: nat): seq<Call> {
    if k == 0 then opening else Walk(opening, k - 1) + Leg(k)
  }

  lemma AssignTravels(w: World, stock: Inventory)
    requires Travels(w, stock, 3)
    ensures Serial(w, AssignRider(0, 0, None, true))
    ensures Travels(Apply(FlatEnv(), w, AssignRider(0, 0, None, true), 0), stock, 4)
  {
  }

  /** On the way to its k-th stop, the check of that stop passed. */
  ghost predicate Checked(w: World, stock: Inventory, k: nat)
    requires k > 0
  {
    && |w.checks| == ChecksBefore(k) + 1 && w.checks[ChecksBefore(k)] == Check(0, Stop(k - 1), Stop(k), false)
    && Travels(w.(checks := w.checks[..ChecksBefore(k)]), stock, k - 1)
  }

  lemma CheckTravels(w: World, stock: Inventory, k: nat)
    requires 0 < k <= 12 && k != 4 && Travels(w, stock, k - 1) && Gated(Stop(k))
    ensures Serial(w, VerifyLeg(k))
    ensures Checked(Apply(FlatEnv(), w, VerifyLeg(k), 0), stock, k)
  {
    assert LatestPosition(w.tracks, 0) == Some(HERE);
    var next := Apply(FlatEnv(), w, VerifyLeg(k), 0);
    assert next == w.(checks := w.checks + [Check(0, Stop(k - 1), Stop(k), false)]);
    assert next.(checks := next.checks[..|w.checks|]) == w;
  }

  lemma WriteTravels(w: World, stock: Inventory, k: nat)
    requires 0 < k <= 12 && k != 4
    requires if Gated(Stop(k)) then Checked(w, stock, k) else Travels(w, stock, k - 1)
    ensures Serial(w, WriteLeg(k))
    ensures Travels(Apply(FlatEnv(), w, WriteLeg(k), 0), stock, k)
  {
  }

  lemma LegTravels(start: World, calls: seq<Call>, stock: Inventory, k: nat)
    requires 0 < k <= 12 && SerialRun(FlatEnv(), start, calls) && Travels(Run(FlatEnv(), start, calls), stock, k - 1)
    ensures SerialRun(FlatEnv(), start, calls + Leg(k))
    ensures Travels(Run(FlatEnv(), start, calls + Leg(k)), stock, k)
  {
    hide Execute, Apply, Run, Serial, Stop, Travels, VerifyLeg, WriteLeg;
    var w := Run(FlatEnv(), start, calls);
    if k == 4 {
      AssignTravels(w, stock);
      SerialSnoc(FlatEnv(), start, calls, Leg(4)[0]);
    } else if Gated(Stop(k)) {
      CheckTravels(w, stock, k);
      SerialSnoc(FlatEnv(), start, calls, Leg(k)[0]);
      WriteTravels(Run(FlatEnv(), start, calls + [Leg(k)[0]]), stock, k);
      SerialSnoc(FlatEnv(), start, calls + [Leg(k)[0]], Leg(k)[1]);
      assert calls + Leg(k) == calls + [Leg(k)[0]] + [Leg(k)[1]];
    } else {
      WriteTravels(w, stock, k);
      SerialSnoc(FlatEnv(), start, calls, Leg(k)[0]);
      assert calls + Leg(k) == calls + [Leg(k)[0]];
    }
  }

  lemma {:induction false} WalkTravels(start: World, opening: seq<Call>, stock: Inventory, k: nat)
    requires k <= 12 && SerialRun(FlatEnv(), start, opening) && Travels(Run(FlatEnv(), start, opening), stock, 0)
    ensures SerialRun(FlatEnv(), start, Walk(opening, k))
    ensures Travels(Run(FlatEnv(), start, Walk(opening, k)), stock, k)
  {
    hide Execute, Apply, Run, Serial, Travels, Leg;
    if k > 0 {
      WalkTravels(start, opening, stock, k - 1);
      LegTravels(start, Walk(opening, k - 1), stock, k);
    }
  }

  lemma ConfirmArrives(w: World, stock: Inventory)
    requires Travels(w, stock, 12)
    ensures var next := Apply(FlatEnv(), w, ConfirmDelivery(0, Delivered, 0, ""), 0);
            && Serial(w, ConfirmDelivery(0, Delivered, 0, ""))
            && next == w.(orders := next.orders) && |next.orders| == 1
            && next.orders[0] == Advance(w.orders[0], Delivered, CustomerConfirmed, Some(0), 0).(otpVerified := true)
  {
  }

  // ---------------------------------------------------------------- oversold

  function CarelessOpening(): seq<Call> {
    [Call(CreateOrder(OneOrder()), 0), Call(RecordLocation(0, 0, HERE), 0), Call(AdjustStock(SHELF, -1, 0), 0)]
  }

  lemma CarefulSteps(cylinders: nat)
    requires cylinders >= 1
    ensures var w1 := Apply(FlatEnv(), Opened(cylinders), CreateOrder(OneOrder()), 0);
            && w1 == Opened(cylinders).(stock := map[SHELF := Inventory(cylinders, 0, 1, 2)],
                                        orders := [NewOrder(OneOrder())])
            && Travels(Apply(FlatEnv(), w1, RecordLocation(0, 0, HERE), 0), Inventory(cylinders, 0, 1, 2), 0)
  {
    OrderPlaced(Inventory(cylinders, 0, 0, 1), Opened(cylinders));
  }

  lemma CarelessStep(w: World)
    requires Travels(w, Inventory(1, 0, 1, 2), 0)
    ensures Travels(Apply(FlatEnv(), w, AdjustStock(SHELF, -1, 0), 0), Inventory(0, 0, 1, 3), 0)
    ensures !CarefulAdjustment(w, AdjustStock(SHELF, -1, 0))
  {
  }

  function Opening(): seq<Call> {
    [Call(CreateOrder(OneOrder()), 0), Call(RecordLocation(0, 0, HERE), 0)]
  }

  lemma OpeningTravels(cylinders: nat)
    requires cylinders >= 1
    ensures SerialRun(FlatEnv(), Opened(cylinders), Opening())
    ensures Travels(Run(FlatEnv(), Opened(cylinders), Opening()), Inventory(cylinders, 0, 1, 2), 0)
  {
    hide Execute, Apply;
    var env, w, calls := FlatEnv(), Opened(cylinders), Opening();
    CarefulSteps(cylinders);
    SingleCallIsSerial(env, w, calls[0]);
    SerialSnoc(env, w, [calls[0]], calls[1]);
    assert calls == [calls[0]] + [calls[1]];
  }

  /** To the door, confirmed, and the first item of its settlement. */
  function OversoldCalls(): seq<Call> {
    Walk(CarelessOpening(), 12) + [Call(ConfirmDelivery(0, Delivered, 0, ""), 0)]
    + [Call(LoadSettlement(0, false), 0)] + [Call(CommitItem(0), 0)]
  }

  lemma CommitOversells(w: World)
    requires |w.orders| == 1 && w.orders[0].status == CustomerConfirmed && w.orders[0].station == 0
    requires w.orders[0].items == OneOrder().items && w.handlers == [] && w.stock == map[SHELF := Inventory(0, 0, 1, 3)]
    requires EventLeft(w, 0)
    ensures var loaded := Apply(FlatEnv(), w, LoadSettlement(0, false), 0);
            && Serial(w, LoadSettlement(0, false)) && Serial(loaded, CommitItem(0))
            && Apply(FlatEnv(), loaded, CommitItem(0), 0).stock == map[SHELF := Inventory(-1, 0, 0, 4)]
  {
  }

  lemma FirstEventIsLeft(start: World, calls: seq<Call>)
    requires Initial(start) && SerialRun(FlatEnv(), start, calls)
    requires var w := Run(FlatEnv(), start, calls);
             |w.orders| == 1 && w.orders[0].status == CustomerConfirmed && w.handlers == []
    ensures EventLeft(Run(FlatEnv(), start, calls), 0)
  {
    SoundOverRuns(FlatEnv(), start, calls);
    ConfirmationsOfPath(Run(FlatEnv(), start, calls).orders[0]);
  }

  lemma CarelessWalk()
    ensures SerialRun(FlatEnv(), Opened(1), Walk(CarelessOpening(), 12))
    ensures Travels(Run(FlatEnv(), Opened(1), Walk(CarelessOpening(), 12)), Inventory(0, 0, 1, 3), 12)
    ensures !CarefulAdjustment(Run(FlatEnv(), Opened(1), Opening()), CarelessOpening()[2].tx)
  {
    hide Execute, Apply, Run, Travels, Walk;
    OpeningTravels(1);
    CarelessStep(Run(FlatEnv(), Opened(1), Opening()));
    SerialSnoc(FlatEnv(), Opened(1), Opening(), CarelessOpening()[2]);
    assert CarelessOpening() == Opening() + [CarelessOpening()[2]];
    WalkTravels(Opened(1), CarelessOpening(), Inventory(0, 0, 1, 3), 12);
  }

  /** Without careful adjustments the stock can be oversold: in this serial run `adjustStock` accepts
    * taking the reserved cylinder off the shelf, and the settlement drives the filled count below zero. */
  lemma {:induction false} StockCanBeOversold()
    ensures Initial(Opened(1)) && SerialRun(FlatEnv(), Opened(1), OversoldCalls())
    ensures Run(FlatEnv(), Opened(1), OversoldCalls()).stock == map[SHELF := Inventory(-1, 0, 0, 4)]
    ensures !CarefulAdjustment(Run(FlatEnv(), Opened(1), Opening()), CarelessOpening()[2].tx)
  {
    hide Execute, Apply, Run, Walk, Serial, EventLeft;
    var env, w, walk := FlatEnv(), Opened(1), Walk(CarelessOpening(), 12);
    var confirm, load, commit :=
        Call(ConfirmDelivery(0, Delivered, 0, ""), 0), Call(LoadSettlement(0, false), 0), Call(CommitItem(0), 0);
    CarelessWalk();
    ConfirmArrives(Run(env, w, walk), Inventory(0, 0, 1, 3));
    SerialSnoc(env, w, walk, confirm);
    FirstEventIsLeft(w, walk + [confirm]);
    CommitOversells(Run(env, w, walk + [confirm]));
    SerialSnoc(env, w, walk + [confirm], load);
    SerialSnoc(env, w, walk + [confirm] + [load], commit);
  }

  // ---------------------------------------------------------------- settled twice

  /** Two confirmations that both read DELIVERED: the first is settled before the second is written. */
  function ConfirmCall(): Call {
    Call(ConfirmDelivery(0, Delivered, 0, ""), 0)
  }

  /** The order is confirmed: what it takes to settle it, now or again. */
  ghost predicate Waits(w: World, stock: Inventory, revenue: int, wallet: Wallet) {
    && |w.orders| == 1 && w.orders[0].status == CustomerConfirmed
    && w.orders[0].station == 0 && w.orders[0].items == OneOrder().items
    && w.orders[0].customer == 0 && w.orders[0].otp == ""
    && w.orders[0].total == 1500 && w.orders[0].deliveryFee == 1000 && w.orders[0].riderId == Some(0)
    && w.stock == map[SHELF := stock] && w.stations == [Station(Some(HERE), revenue)]
    && w.riders == [Driver(Busy).(wallet := Some(wallet))] && w.rules == []
  }

  /** The wallet after crediting one delivery of this order. */
  function Credited(wallet: Wallet): Wallet {
    CreditTo(wallet, 700, 0)
  }

  lemma SettleOnce(w: World, stock: Inventory, revenue: int, wallet: Wallet)
    requires Waits(w, stock, revenue, wallet) && stock.reserved >= 0
    ensures Settleable(w, 0)
    ensures var next := Run(FlatEnv(), w, SettleCalls(w, 0, false, 0));
            && |next.orders| == 1 && next.orders[0].status == Completed
            && next.orders[0] ==
               Advance(w.orders[0], CustomerConfirmed, Completed, None, 0).(shares := next.orders[0].shares)
            && SHELF in next.stock && next.stock.Keys == {SHELF}
            && next.stock[SHELF].filled == stock.filled - 1 && next.stock[SHELF].reserved == Max(0, stock.reserved - 1)
            && next.stations == [Station(Some(HERE), revenue + 800)]
            && next.riders == [Driver(Busy).(wallet := Some(Credited(wallet)))] && next.rules == []
            && |next.handlers| == |w.handlers| + 1
  {
    hide Execute, Apply, Run;
    assert w.stock.Keys == {SHELF};
    SettlementIsExact(FlatEnv(), w, 0, false, 0);
    assert SplitNow(FlatEnv(), w, 0, false) == Split(0, 800, 700);
    OneItemDemand();
  }

  lemma OneItemDemand()
    ensures Demand(OneOrder().items, 0) == 1
  {
    assert OneOrder().items[1..] == [];
  }

  /** A confirmation that read DELIVERED commits whatever the order has become. */
  lemma LateConfirmation(w: World)
    requires |w.orders| == 1 && w.orders[0].customer == 0 && w.orders[0].otp == ""
    ensures var next := Apply(FlatEnv(), w, ConfirmDelivery(0, Delivered, 0, ""), 0);
            && next == w.(orders := next.orders) && |next.orders| == 1
            && next.orders[0] == Advance(w.orders[0], Delivered, CustomerConfirmed, Some(0), 0).(otpVerified := true)
  {
  }

  function WalkedTo(): World {
    Run(FlatEnv(), Opened(2), Walk(Opening(), 12))
  }

  function ConfirmedOnce(): World {
    Apply(FlatEnv(), WalkedTo(), ConfirmCall().tx, 0)
  }

  function SettledOnce(): World {
    Run(FlatEnv(), ConfirmedOnce(), SettleCalls(ConfirmedOnce(), 0, false, 0))
  }

  function ConfirmedTwice(): World {
    Apply(FlatEnv(), SettledOnce(), ConfirmCall().tx, 0)
  }

  function TwiceSettledCalls(): seq<Call> {
    Walk(Opening(), 12) + [ConfirmCall()] + SettleCalls(ConfirmedOnce(), 0, false, 0)
    + [ConfirmCall()] + SettleCalls(ConfirmedTwice(), 0, false, 0)
  }

  lemma FirstTime()
    ensures Waits(ConfirmedOnce(), Inventory(2, 0, 1, 2), 0, Wallet(0, 0, 0, 1, []))
    ensures ConfirmedOnce().handlers == []
    ensures var w := SettledOnce();
            && w.stock.Keys == {SHELF} && w.stock[SHELF].filled == 1 && w.stock[SHELF].reserved == 0
            && |w.orders| == 1 && w.orders[0].customer == 0 && w.orders[0].otp == "" && w.orders[0].status == Completed
            && w.orders[0].station == 0 && w.orders[0].items == OneOrder().items
            && w.orders[0].total == 1500 && w.orders[0].deliveryFee == 1000 && w.orders[0].riderId == Some(0)
            && w.stations == [Station(Some(HERE), 800)] && w.rules == [] && |w.handlers| == 1
            && w.riders == [Driver(Busy).(wallet := Some(Credited(Wallet(0, 0, 0, 1, []))))]
  {
    hide Execute, Apply, Run, Walk, Serial;
    OpeningTravels(2);
    WalkTravels(Opened(2), Opening(), Inventory(2, 0, 1, 2), 12);
    ConfirmArrives(WalkedTo(), Inventory(2, 0, 1, 2));
    SettleOnce(ConfirmedOnce(), Inventory(2, 0, 1, 2), 0, Wallet(0, 0, 0, 1, []));
  }

  lemma SecondTime()
    ensures var w := Run(FlatEnv(), ConfirmedTwice(), SettleCalls(ConfirmedTwice(), 0, false, 0));
            && |w.orders| == 1 && w.orders[0].total == 1500 && |w.handlers| == 2 && !FaithfulPath(w.orders[0])
            && SHELF in w.stock && w.stock[SHELF].filled == 0
            && w.stations == [Station(Some(HERE), 1600)]
            && w.riders == [Driver(Busy).(wallet := Some(Credited(Credited(Wallet(0, 0, 0, 1, [])))))]
  {
    hide Execute, Apply, Run, Walk, Serial, SettleCalls;
    FirstTime();
    LateConfirmation(SettledOnce());
    var stock := SettledOnce().stock[SHELF];
    assert SettledOnce().stock == map[SHELF := stock];
    SettleOnce(ConfirmedTwice(), stock, 800, Credited(Wallet(0, 0, 0, 1, [])));
    SettleOnce(ConfirmedOnce(), Inventory(2, 0, 1, 2), 0, Wallet(0, 0, 0, 1, []));
    BrokenChain(ConfirmedOnce().orders[0], SettledOnce().orders[0], ConfirmedTwice().orders[0],
                Run(FlatEnv(), ConfirmedTwice(), SettleCalls(ConfirmedTwice(), 0, false, 0)).orders[0]);
  }

  /** COMPLETED, then an entry that leaves DELIVERED: no path. */
  lemma BrokenChain(first: Order, settled: Order, confirmed: Order, last: Order)
    requires settled.history == first.history + [Entry(Some(CustomerConfirmed), Completed, None)]
    requires confirmed.history == settled.history + [Entry(Some(Delivered), CustomerConfirmed, Some(0))]
    requires last.history == confirmed.history + [Entry(Some(CustomerConfirmed), Completed, None)]
    ensures !FaithfulPath(last)
  {
    var n := |first.history|;
    assert last.history[n].to == Completed && last.history[n + 1].from == Some(Delivered);
  }

  lemma TwiceSettledRun()
    ensures Run(FlatEnv(), Opened(2), TwiceSettledCalls()) ==
            Run(FlatEnv(), ConfirmedTwice(), SettleCalls(ConfirmedTwice(), 0, false, 0))
  {
    hide Execute, Apply, Run, Walk, SettleCalls;
    var env, w := FlatEnv(), Opened(2);
    var a := Walk(Opening(), 12) + [ConfirmCall()];
    var b := a + SettleCalls(ConfirmedOnce(), 0, false, 0);
    RunSnoc(env, w, Walk(Opening(), 12), ConfirmCall());
    RunConcat(env, w, a, SettleCalls(ConfirmedOnce(), 0, false, 0));
    RunSnoc(env, w, b, ConfirmCall());
    RunConcat(env, w, b + [ConfirmCall()], SettleCalls(ConfirmedTwice(), 0, false, 0));
  }

  /** One order of 15.00 that is settled twice, although each of its two confirmation events is handled
    * once: both confirmations read DELIVERED, and the second is written after the first was settled.
    * The shelf loses two cylinders for one sold, the station books 16.00, the rider is credited 14.00, and the
    * history is no path any more. */
  lemma {:induction false} OrderCanBeSettledTwice()
    ensures Initial(Opened(2))
    ensures var w := Run(FlatEnv(), Opened(2), TwiceSettledCalls());
            && |w.orders| == 1 && w.orders[0].total == 1500 && |w.handlers| == 2 && !FaithfulPath(w.orders[0])
            && SHELF in w.stock && w.stock[SHELF].filled == 0
            && w.stations[0..] == [Station(Some(HERE), 1600)]
            && |w.riders| == 1 && w.riders[0].wallet.Some?
            && w.riders[0].wallet.value.earned == 1400 && |w.riders[0].wallet.value.log| == 2
  {
    hide Execute, Apply, Run, Walk, SettleCalls;
    TwiceSettledRun();
    SecondTime();
  }

  // ---------------------------------------------------------------- short runs

  /** `updateStatus` cancels an order: its cylinder stays reserved, though nothing live needs it. */
  function BypassCalls(): seq<Call> {
    [Call(CreateOrder(OneOrder()), 0), Call(UpdateStatus(0, Pending, Cancelled, 0, 0), 0)]
  }

  lemma BypassSteps()
    ensures var w1 := Apply(FlatEnv(), Opened(1), CreateOrder(OneOrder()), 0);
            var w2 := Apply(FlatEnv(), w1, UpdateStatus(0, Pending, Cancelled, 0, 0), 0);
            && Serial(w1, UpdateStatus(0, Pending, Cancelled, 0, 0))
            && w2.stock == map[SHELF := Inventory(1, 0, 1, 2)] && |w2.orders| == 1
            && !Live(w2.orders[0]) && w2.orders[0].cancellationReason.None?
  {
    OrderPlaced(Inventory(1, 0, 0, 1), Opened(1));
  }

  lemma {:induction false} BypassStrandsACylinder()
    ensures Initial(Opened(1)) && SerialRun(FlatEnv(), Opened(1), BypassCalls())
    ensures var w := Run(FlatEnv(), Opened(1), BypassCalls());
            SHELF in w.stock && w.stock[SHELF].reserved == 1 && SumTo(|w.orders|, LiveAt(w, SHELF)) == 0
  {
    hide Execute, Apply;
    var env, w, calls := FlatEnv(), Opened(1), BypassCalls();
    BypassSteps();
    SingleCallIsSerial(env, w, calls[0]);
    SerialSnoc(env, w, [calls[0]], calls[1]);
    assert calls == [calls[0]] + [calls[1]];
    var last := Run(env, w, calls);
    SumZeroIff(|last.orders|, LiveAt(last, SHELF));
  }

  /** Two orders; the first is cancelled twice by calls that both read it PENDING. */
  function TwiceCancelled(): seq<Call> {
    var cancel := Call(CancelOrder(0, Pending, 0, Customer, ""), 0);
    [Call(CreateOrder(OneOrder()), 0)] + [Call(CreateOrder(OneOrder()), 0)] + [cancel] + [cancel]
  }

  lemma CreateTwice()
    ensures var w1 := Apply(FlatEnv(), Opened(2), CreateOrder(OneOrder()), 0);
            Apply(FlatEnv(), w1, CreateOrder(OneOrder()), 0) ==
            Opened(2).(stock := map[SHELF := Inventory(2, 0, 2, 3)],
                       orders := [NewOrder(OneOrder()), NewOrder(OneOrder())])
  {
    hide PlaceOrder, NewOrder;
    var w1 := Opened(2).(stock := map[SHELF := Inventory(2, 0, 1, 2)], orders := [NewOrder(OneOrder())]);
    OrderPlaced(Inventory(2, 0, 0, 1), Opened(2));
    OrderPlaced(Inventory(2, 0, 1, 2), w1);
    assert [] + [NewOrder(OneOrder())] == [NewOrder(OneOrder())];
  }

  lemma CancelOneCylinder(w: World, stock: Inventory)
    requires |w.orders| == 2 && w.orders[0].customer == 0 && w.orders[0].station == 0
    requires w.orders[0].items == OneOrder().items && w.stock == map[SHELF := stock] && stock.reserved >= 1
    ensures var next := Apply(FlatEnv(), w, CancelOrder(0, Pending, 0, Customer, ""), 0);
            && next.stock == map[SHELF := stock.(reserved := stock.reserved - 1)] && next.handlers == w.handlers
            && |next.orders| == 2 && next.orders[1] == w.orders[1] && next.orders[0].customer == 0
            && next.orders[0].station == 0 && next.orders[0].items == w.orders[0].items
            && next.orders[0].status == Cancelled
  {
    var items := OneOrder().items;
    assert ReleaseAll(w.stock, 0, items) ==
        ReleaseAll(map[SHELF := stock.(reserved := stock.reserved - 1)], 0, items[1..]);
  }

  lemma LiveOfTheOther(w: World)
    requires |w.orders| == 2 && !Live(w.orders[0]) && w.orders[1] == NewOrder(OneOrder()) && w.handlers == []
    ensures SumTo(2, LiveAt(w, SHELF)) == 1
  {
    OneItemDemand();
    assert Total(w.handlers, SoldFor(1, SHELF)) == 0;
    assert Wanted(w.orders[1], SHELF) == 1;
    assert Live(w.orders[1]) && w.orders[1].cancellationReason.None?;
    assert HeldAt(w, SHELF)(1) == 1;
    assert LiveAt(w, SHELF)(1) == 1;
    assert SumTo(0, LiveAt(w, SHELF)) == 0;
    assert SumTo(1, LiveAt(w, SHELF)) == LiveAt(w, SHELF)(0) == 0;
    assert SumTo(2, LiveAt(w, SHELF)) == SumTo(1, LiveAt(w, SHELF)) + LiveAt(w, SHELF)(1);
  }

  /** The second cancellation releases the cylinder of the other order, which is live and needs it. */
  lemma {:induction false} StaleCancelReleasesAnothers()
    ensures Initial(Opened(2))
    ensures var w := Run(FlatEnv(), Opened(2), TwiceCancelled());
            && SHELF in w.stock && w.stock[SHELF].reserved == 0
            && |w.orders| == 2 && SumTo(2, LiveAt(w, SHELF)) == 1
  {
    hide Execute, Apply;
    var env, w, calls := FlatEnv(), Opened(2), TwiceCancelled();
    var create, cancel := calls[0], calls[3];
    SingleCallIsSerial(env, w, create);
    RunSnoc(env, w, [create], create);
    RunSnoc(env, w, [create] + [create], cancel);
    RunSnoc(env, w, [create] + [create] + [cancel], cancel);
    CreateTwice();
    var two := Run(env, w, [create] + [create]);
    CancelOneCylinder(two, Inventory(2, 0, 2, 3));
    CancelOneCylinder(Apply(env, two, cancel.tx, 0), Inventory(2, 0, 1, 3));
    LiveOfTheOther(Run(env, w, calls));
  }

  /** A rider with an order in hand sets himself AVAILABLE: the fleet is safe before and not after. */
  lemma {:induction false} AvailableWithWorkInHand()
    ensures Initial(Opened(1)) && SerialRun(FlatEnv(), Opened(1), Walk(Opening(), 4))
    ensures FleetSafe(Run(FlatEnv(), Opened(1), Walk(Opening(), 4)))
    ensures !FleetSafe(Run(FlatEnv(), Opened(1), Walk(Opening(), 4) + [Call(SetAvailability(0, Available), 0)]))
  {
    hide Execute, Apply, Run, Walk, Serial;
    var env, w, walk, free := FlatEnv(), Opened(1), Walk(Opening(), 4), Call(SetAvailability(0, Available), 0);
    OpeningTravels(1);
    WalkTravels(w, Opening(), Inventory(1, 0, 1, 2), 4);
    RunSnoc(env, w, walk, free);
    FreeWhileBusy(Run(env, w, walk));
  }

  lemma FreeWhileBusy(w: World)
    requires |w.orders| == 1 && w.orders[0].status == RiderAssigned && w.orders[0].riderId == Some(0)
    requires w.riders == [Driver(Busy)]
    ensures FleetSafe(w) && !FleetSafe(Apply(FlatEnv(), w, SetAvailability(0, Available), 0))
  {
    var next := Apply(FlatEnv(), w, SetAvailability(0, Available), 0);
    assert next.orders == w.orders && next.riders == [Driver(Available)];
    assert w.orders == [] + [w.orders[0]];
    forall r: RiderId ensures FleetSafety.Load(w, r) == FleetSafety.Load(next, r) == if r == 0 then 1 else 0 {
      TotalAppend([], w.orders[0], InHand(r));
    }
    assert StatusOf(next, 0) == Some(Available);
  }

  /** Two overlapping clusterings that both read the order unbatched. */
  function ClusteredTwice(): seq<Call> {
    Walk(Opening(), 3) + [Call(MakeBatch([0], HERE), 0)] + [Call(MakeBatch([0], HERE), 0)]
  }

  lemma BatchesOne(w: World)
    requires |w.orders| == 1
    ensures var next := Apply(FlatEnv(), w, MakeBatch([0], HERE), 0);
            && |next.orders| == 1 && next.orders[0].batchId == Some(|w.batches|)
            && next.batches == w.batches + [Batch(None, Open, HERE, 1)]
  {
    TagRows(w.orders, [0], |w.batches|);
  }

  /** The order ends up in the second batch, and the first batch counts an order that it does not have. */
  lemma {:induction false} OverlappingClusteringsRebatch()
    ensures Initial(Opened(1))
    ensures var n, w := |Run(FlatEnv(), Opened(1), Walk(Opening(), 3)).batches|,
            Run(FlatEnv(), Opened(1), ClusteredTwice());
            && |w.batches| == n + 2 && w.batches[n].orderCount == 1 && |w.orders| == 1
            && w.orders[0].batchId == Some(n + 1) && Total(w.orders, InBatch(n)) == 0
  {
    hide Execute, Apply, Run, Walk, Serial;
    var env, w, walk, make := FlatEnv(), Opened(1), Walk(Opening(), 3), Call(MakeBatch([0], HERE), 0);
    OpeningTravels(1);
    WalkTravels(w, Opening(), Inventory(1, 0, 1, 2), 3);
    BatchesOne(Run(env, w, walk));
    RunSnoc(env, w, walk, make);
    BatchesOne(Run(env, w, walk + [make]));
    RunSnoc(env, w, walk + [make], make);
    var last := Run(env, w, ClusteredTwice());
    TotalZero(last.orders, InBatch(|Run(env, w, walk).batches|));
  }

  /** Two overlapping `setCommission` calls: both deactivate before either inserts. */
  function OverlappingRules(): seq<Call> {
    [Call(DeactivateRules(1000, None), 0)] + [Call(DeactivateRules(2000, None), 0)]
    + [Call(InsertRule(1000, None), 0)] + [Call(InsertRule(2000, None), 0)]
  }

  lemma RuleSteps(env: Env, w: World, rate: int)
    requires 0 <= rate <= 10000
    ensures Apply(env, w, DeactivateRules(rate, None), 0) == w.(rules := Deactivate(w.rules, None))
    ensures Apply(env, w, InsertRule(rate, None), 0) == w.(rules := w.rules + [Rule(None, rate, true)])
  {
  }

  lemma RateByOrder(station: StationId)
    ensures CommissionRate([Rule(None, 1000, true), Rule(None, 2000, true)], station, 0) == 1000
    ensures CommissionRate([Rule(None, 2000, true), Rule(None, 1000, true)], station, 0) == 2000
  {
    var a, b := [Rule(None, 1000, true), Rule(None, 2000, true)], [Rule(None, 2000, true), Rule(None, 1000, true)];
    ActiveRateIsARule(a, Some(station));
    ActiveRateIsARule(b, Some(station));
  }

  /** They leave two active rules in one scope, and the rate then depends on the order of the rows. */
  lemma {:induction false} OverlappingRulesLeaveTwo(station: StationId)
    ensures Initial(Opened(0))
    ensures var rules := Run(FlatEnv(), Opened(0), OverlappingRules()).rules;
            && rules == [Rule(None, 1000, true), Rule(None, 2000, true)]
            && CommissionRate(rules, station, 0) == 1000
            && CommissionRate([rules[1], rules[0]], station, 0) == 2000
  {
    hide Execute, Apply;
    var env, w, calls := FlatEnv(), Opened(0), OverlappingRules();
    RuleSteps(env, w, 1000);
    RuleSteps(env, w, 2000);
    assert w.(rules := []) == w;
    SingleCallIsSerial(env, w, calls[0]);
    RunSnoc(env, w, [calls[0]], calls[1]);
    RunSnoc(env, w, [calls[0]] + [calls[1]], calls[2]);
    RunSnoc(env, w, [calls[0]] + [calls[1]] + [calls[2]], calls[3]);
    var one := w.(rules := [Rule(None, 1000, true)]);
    RuleSteps(env, one, 2000);
    assert [] + [Rule(None, 1000, true)] == one.rules;
    assert one.rules + [Rule(None, 2000, true)] == [Rule(None, 1000, true), Rule(None, 2000, true)];
    RateByOrder(station);
  }
}
