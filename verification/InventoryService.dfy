/** Stock adjustment, commit and upsert. */
module InventoryService {
  import opened Domain
  import opened StockLevels
  import opened Transactions
  import opened Tables

  method AdjustStock(db: Database, slot: Slot, filledDelta: int, emptyDelta: int) returns (reply: Reply)
    modifies db`stock
    ensures Did(old(db.Snapshot()), db.Snapshot(), Adjust(old(db.Snapshot()), slot, filledDelta, emptyDelta), reply)
    ensures reply ==
            if slot !in old(db.stock) then Refusal(NotFound)
            else if old(db.stock)[slot].filled + filledDelta < 0 || old(db.stock)[slot].empty + emptyDelta < 0
            then Refusal(Conflict) else Ok
    ensures if reply.Ok? then
              var row := old(db.stock)[slot];
              db.stock == old(db.stock)[slot := Inventory(row.filled + filledDelta, row.empty + emptyDelta,
                                                          row.reserved, row.version + 1)]
            else db.stock == old(db.stock)
  {
    if slot !in db.stock { return Refusal(NotFound); }
    var row := db.stock[slot];
    var newFilled := row.filled + filledDelta;
    var newEmpty := row.empty + emptyDelta;
    if newFilled < 0 || newEmpty < 0 { return Refusal(Conflict); }
    db.stock := db.stock[slot := row.(filled := newFilled, empty := newEmpty, version := row.version + 1)];
    return Ok;
  }

  /** Reserved becomes sold: filled and reserved drop by the quantity, with no check but for the row. */
  method CommitReservation(db: Database, station: StationId, kind: TypeId, quantity: nat) returns (reply: Reply)
    modifies db`stock
    ensures var slot := Slot(station, kind);
            if slot in old(db.stock)
            then reply == Ok && db.stock == old(db.stock)[slot := CommitRow(old(db.stock)[slot], quantity)]
            else reply == Refusal(NotFound) && db.stock == old(db.stock)
    ensures reply.Ok? ==>
              var slot := Slot(station, kind);
              && slot in db.stock && db.stock.Keys == old(db.stock).Keys
              && db.stock[slot].filled == old(db.stock)[slot].filled - quantity
              && db.stock[slot].empty == old(db.stock)[slot].empty
              && (old(db.stock)[slot].reserved >= quantity ==>
                    db.stock[slot].reserved == old(db.stock)[slot].reserved - quantity)
              && (old(db.stock)[slot].reserved < quantity ==> db.stock[slot].reserved == 0)
  {
    var slot := Slot(station, kind);
    if slot !in db.stock { return Refusal(NotFound); }
    var row := db.stock[slot];
    db.stock := db.stock[slot :=
        Inventory(row.filled - quantity, row.empty, Max(0, row.reserved - quantity), row.version + 1)];
    return Ok;
  }

  method UpsertPricing(db: Database, slot: Slot)
    modifies db`stock
    ensures db.Snapshot() == Upsert(old(db.Snapshot()), slot)
    ensures slot in db.stock && (slot !in old(db.stock) ==> db.stock[slot] == Inventory(0, 0, 0, 1))
    ensures forall other :: other in old(db.stock) ==> other in db.stock && db.stock[other] == old(db.stock)[other]
  {
    if slot !in db.stock {
      db.stock := db.stock[slot := Inventory(0, 0, 0, 1)];
    }
  }
}
