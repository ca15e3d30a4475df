/** The shared tables that every service reads and overwrites in place. */
module Tables {
  import opened Domain
  import opened Transactions

  class Database {
    var orders: seq<Order>
    var stock: Stock
    var riders: seq<Rider>
    var stations: seq<Station>
    var batches: seq<Batch>
    var rules: seq<Rule>
    var changes: seq<Change>
    var payments: seq<Payment>
    var completions: seq<Completion>
    var tracks: seq<Track>

    // Work in progress: the calls that have read something and not yet finished writing.
    var handlers: seq<Handler>
    var deliveries: seq<Delivery>
    var checks: seq<Check>

    /** The tables as one value. */
    function Snapshot(): World
      reads this
    {
      World(orders, stock, riders, stations, batches, rules, changes, payments, completions, tracks,
            handlers, deliveries, checks)
    }

    constructor ()
      ensures Snapshot() == World([], map[], [], [], [], [], [], [], [], [], [], [], [])
      ensures Initial(Snapshot())
    {
      orders, stock, riders, stations, batches := [], map[], [], [], [];
      rules, changes, payments, completions, tracks := [], [], [], [], [];
      handlers, deliveries, checks := [], [], [];
    }
  }

  /** What a service call answers. */
  datatype Reply = Ok | Refusal(error: Error)

  /** The call did what the transaction does: commit it, or fail and change nothing. */
  ghost predicate Did(before: World, after: World, outcome: Outcome, reply: Reply) {
    match outcome
    case Done(next) => reply == Ok && after == next
    case Failed(error) => reply == Refusal(error) && after == before
  }

  function SeenStatus(orders: seq<Order>, id: OrderId): Status {
    if id < |orders| then orders[id].status else Pending
  }
}
