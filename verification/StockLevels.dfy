/** The stock arithmetic of one station: reserving, releasing and committing the items
  * of an order, and what a whole list of items does to the counts. */
module StockLevels {
  import opened Domain

  /** Summed quantity of one cylinder type over all items, repeated types included. */
  function Demand(items: seq<Item>, kind: TypeId): (sum: nat) {
    if items == [] then 0
    else (if items[0].kind == kind then items[0].quantity else 0) + Demand(items[1..], kind)
  }

  datatype Reservation = Reserved(stock: Stock) | Refused(error: Error)

  function ReserveOne(stock: Stock, station: StationId, item: Item): Reservation {
    var slot := Slot(station, item.kind);
    if slot !in stock then Refused(NotFound)
    else
      var row := stock[slot];
      if row.filled - row.reserved < item.quantity then Refused(Conflict)
      else Reserved(stock[slot := row.(reserved := row.reserved + item.quantity, version := row.version + 1)])
  }

  /** The reservation loop of `create`: item by item, stopping at the first refusal. */
  function ReserveAll(stock: Stock, station: StationId, items: seq<Item>): Reservation {
    if items == [] then Reserved(stock)
    else
      match ReserveOne(stock, station, items[0])
      case Refused(e) => Refused(e)
      case Reserved(next) => ReserveAll(next, station, items[1..])
  }

  function Max(a: int, b: int): int { if a < b then b else a }

  function ReleaseOne(stock: Stock, station: StationId, item: Item): Stock {
    var slot := Slot(station, item.kind);
    if slot in stock && stock[slot].reserved >= item.quantity then
      stock[slot := stock[slot].(reserved := Max(0, stock[slot].reserved - item.quantity))]
    else stock
  }

  /** The release loop of `cancel`. */
  function ReleaseAll(stock: Stock, station: StationId, items: seq<Item>): Stock {
    if items == [] then stock
    else ReleaseAll(ReleaseOne(stock, station, items[0]), station, items[1..])
  }

  /** `commitReservation`: unlike the release it checks nothing. */
  function CommitRow(row: Inventory, quantity: nat): Inventory {
    Inventory(row.filled - quantity, row.empty, Max(0, row.reserved - quantity), row.version + 1)
  }

  ghost predicate RowsExist(stock: Stock, station: StationId, items: seq<Item>) {
    forall item :: item in items ==> Slot(station, item.kind) in stock
  }

  /** Every requested type has, in aggregate, enough unreserved cylinders. */
  ghost predicate Available(stock: Stock, station: StationId, items: seq<Item>)
    requires RowsExist(stock, station, items)
  {
    forall item :: item in items ==>
      Demand(items, item.kind) <= stock[Slot(station, item.kind)].filled - stock[Slot(station, item.kind)].reserved
  }

  /** `after` is `before` with the reserved counts of the station moved by `sign` times the demand. */
  ghost predicate Shifted(before: Stock, after: Stock, station: StationId, items: seq<Item>, sign: int) {
    && after.Keys == before.Keys
    && forall slot :: slot in before ==>
      && after[slot].filled == before[slot].filled
      && after[slot].empty == before[slot].empty
      && after[slot].reserved ==
           before[slot].reserved + (if slot.station == station then sign * Demand(items, slot.kind) else 0)
  }

  lemma DemandOfMember(items: seq<Item>, item: Item)
    requires item in items
    ensures Demand(items, item.kind) >= item.quantity
  {
    if items[0] != item {
      DemandOfMember(items[1..], item);
    }
  }

  lemma DemandOfAbsent(items: seq<Item>, kind: TypeId)
    requires forall item :: item in items ==> item.kind != kind
    ensures Demand(items, kind) == 0
  {
    if items != [] {
      assert items[0] in items;
      DemandOfAbsent(items[1..], kind);
    }
  }

  /** Reserving item by item succeeds exactly when the aggregate check does, and then adds
    * exactly the aggregate demand to every row. */
  lemma {:induction false} ReserveRefinesAggregate(stock: Stock, station: StationId, items: seq<Item>)
    requires RowsExist(stock, station, items)
    ensures ReserveAll(stock, station, items).Reserved? <==> Available(stock, station, items)
    ensures ReserveAll(stock, station, items).Reserved? ==>
              Shifted(stock, ReserveAll(stock, station, items).stock, station, items, 1)
    ensures ReserveAll(stock, station, items).Refused? ==>
              ReserveAll(stock, station, items) == Refused(Conflict)
  {
    if items != [] {
      var first, rest := items[0], items[1..];
      assert first in items;
      assert forall item :: item in rest ==> item in items;
      assert forall item :: item in items ==> item == first || item in rest;
      var one := ReserveOne(stock, station, first);
      DemandOfMember(items, first);
      if one.Reserved? {
        ReserveRefinesAggregate(one.stock, station, rest);
        if Available(stock, station, items) {
          forall item | item in rest
            ensures Demand(rest, item.kind) <=
                  one.stock[Slot(station, item.kind)].filled - one.stock[Slot(station, item.kind)].reserved
          {
            assert item in items;
          }
        }
        if Available(one.stock, station, rest) {
          forall item | item in items
            ensures Demand(items, item.kind) <=
                    stock[Slot(station, item.kind)].filled - stock[Slot(station, item.kind)].reserved
          {
            if item.kind == first.kind && !(exists other :: other in rest && other.kind == first.kind) {
              DemandOfAbsent(rest, first.kind);
            } else if item.kind == first.kind {
              var other :| other in rest && other.kind == first.kind;
            } else {
              assert item in rest;
            }
          }
        }
      }
    }
  }

  /** A missing row refuses the whole reservation. */
  lemma {:induction false} ReserveNeedsEveryRow(stock: Stock, station: StationId, items: seq<Item>)
    requires ReserveAll(stock, station, items).Reserved?
    ensures RowsExist(stock, station, items)
  {
    if items != [] {
      var one := ReserveOne(stock, station, items[0]);
      ReserveNeedsEveryRow(one.stock, station, items[1..]);
      assert one.stock.Keys == stock.Keys;
      forall item | item in items ensures Slot(station, item.kind) in stock {
        if item != items[0] { assert item in items[1..]; }
      }
    }
  }

  /** When the reserved counts cover the order, the release loop never skips an item and its
    * `Math.max` never clips: it takes off exactly the aggregate demand. */
  lemma {:induction false} ReleaseTakesExactlyTheDemand(stock: Stock, station: StationId, items: seq<Item>)
    requires RowsExist(stock, station, items)
    requires forall item :: item in items ==> stock[Slot(station, item.kind)].reserved >= Demand(items, item.kind)
    ensures Shifted(stock, ReleaseAll(stock, station, items), station, items, -1)
  {
    if items != [] {
      var first, rest := items[0], items[1..];
      assert first in items;
      DemandOfMember(items, first);
      var next := ReleaseOne(stock, station, first);
      forall item | item in rest
        ensures Slot(station, item.kind) in next && next[Slot(station, item.kind)].reserved >= Demand(rest, item.kind)
      {
        assert item in items;
      }
      ReleaseTakesExactlyTheDemand(next, station, rest);
    }
  }

  /** Releasing what was just reserved gives every count back. */
  lemma ReleaseUndoesReserve(stock: Stock, station: StationId, items: seq<Item>)
    requires ReserveAll(stock, station, items).Reserved?
    requires forall slot :: slot in stock ==> stock[slot].reserved >= 0
    ensures var after := ReleaseAll(ReserveAll(stock, station, items).stock, station, items);
            && after.Keys == stock.Keys
            && forall slot :: slot in stock ==>
                 after[slot].reserved == stock[slot].reserved && after[slot].filled == stock[slot].filled
  {
    ReserveNeedsEveryRow(stock, station, items);
    ReserveRefinesAggregate(stock, station, items);
    ReleaseTakesExactlyTheDemand(ReserveAll(stock, station, items).stock, station, items);
  }

  /** What the items before and from the n-th on need add up. */
  lemma {:induction false} DemandSplits(items: seq<Item>, n: nat, kind: TypeId)
    requires n <= |items|
    ensures Demand(items, kind) == Demand(items[..n], kind) + Demand(items[n..], kind)
  {
    if n > 0 {
      DemandSplits(items[1..], n - 1, kind);
      assert items[..n][1..] == items[1..][..n - 1] && items[n..] == items[1..][n - 1..];
    } else {
      assert items[0..] == items;
    }
  }

  lemma DemandOfNext(items: seq<Item>, n: nat, kind: TypeId)
    requires n < |items|
    ensures Demand(items[..n + 1], kind) ==
            Demand(items[..n], kind) + (if items[n].kind == kind then items[n].quantity else 0)
  {
    DemandSplits(items[..n + 1], n, kind);
    assert items[..n + 1][..n] == items[..n] && items[..n + 1][n..] == [items[n]];
    assert [items[n]][1..] == [];
  }

  /** What the release loop takes off one row that starts at `reserved`: items too large are skipped. */
  function Drained(items: seq<Item>, kind: TypeId, reserved: int): int {
    if items == [] then 0
    else if items[0].kind == kind && reserved >= items[0].quantity then
      items[0].quantity + Drained(items[1..], kind, reserved - items[0].quantity)
    else Drained(items[1..], kind, reserved)
  }

  /** Row by row, that is what the release loop does to the stock. */
  lemma {:induction false} ReleaseDrains(stock: Stock, station: StationId, items: seq<Item>)
    ensures var after := ReleaseAll(stock, station, items);
            && after.Keys == stock.Keys
            && forall slot :: slot in stock ==>
                 && after[slot].filled == stock[slot].filled && after[slot].empty == stock[slot].empty
                 && after[slot].reserved == stock[slot].reserved
                      - (if slot.station == station then Drained(items, slot.kind, stock[slot].reserved) else 0)
  {
    if items != [] {
      ReleaseDrains(ReleaseOne(stock, station, items[0]), station, items[1..]);
    }
  }

  /** The loop takes nothing exactly when it skips every item that is worth something. */
  lemma {:induction false} DrainsNothingIff(items: seq<Item>, kind: TypeId, reserved: int)
    ensures Drained(items, kind, reserved) >= 0
    ensures Drained(items, kind, reserved) == 0 <==>
            forall item :: item in items && item.kind == kind ==> item.quantity == 0 || reserved < item.quantity
  {
    if items != [] {
      var first, rest := items[0], items[1..];
      assert forall item :: item in items <==> item == first || item in rest;
      if first.kind == kind && reserved >= first.quantity {
        DrainsNothingIff(rest, kind, reserved - first.quantity);
      } else {
        DrainsNothingIff(rest, kind, reserved);
      }
    }
  }

  /** With enough reserved, it takes the whole demand. */
  lemma {:induction false} DrainsDemand(items: seq<Item>, kind: TypeId, reserved: int)
    requires reserved >= Demand(items, kind)
    ensures Drained(items, kind, reserved) == Demand(items, kind)
  {
    if items != [] {
      DrainsDemand(items[1..], kind, if items[0].kind == kind then reserved - items[0].quantity else reserved);
    }
  }
}
