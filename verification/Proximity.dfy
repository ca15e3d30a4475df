/** Proximity through the state machine: no writer gets round the geofence checks. */
module Proximity {
  import opened Prelude
  import opened Domain
  import opened Lifecycle
  import opened Transactions
  import opened OrderHistory
  import opened RowFrames
  import opened OrderPaths
  import opened Positions

  const CHECKPOINTS := {RiderArrivedPickup, AtStation, RiderArrivedDelivery, Delivered}

  lemma CheckpointsAreGated(s: Status)
    ensures Gated(s) <==> s in CHECKPOINTS
  {
  }

  /** At step m of the run an `updateStatus` passed its checks for `to`, from the status it read: a legal
    * move, and the last position recorded for the order within 100 m of the target. */
  ghost predicate CheckedAt(env: Env, w: World, calls: seq<Call>, m: nat, id: OrderId, seen: Status, to: Status)
    requires m < |calls|
  {
    var before := Run(env, w, calls[..m]);
    && calls[m].tx == VerifyCheckpoint(id, seen, to) && IsValidTransition(seen, to)
    && id < |before.orders| && AtCheckpoint(env, before, id, to)
  }

  /** The number under which the check of step m is on record. */
  function CheckOf(env: Env, w: World, calls: seq<Call>, m: nat): nat
    requires m < |calls|
  {
    |Run(env, w, calls[..m]).checks|
  }

  /** At step j of the run an `updateStatus` with check c wrote the k-th entry of the order's history. */
  ghost predicate WroteAt(env: Env, w: World, calls: seq<Call>, j: nat, id: OrderId, k: nat, entry: Entry, c: nat)
    requires j < |calls|
  {
    var before, tx := Run(env, w, calls[..j]), calls[j].tx;
    && tx.UpdateStatus? && tx.order == id && tx.check == c && Succeeds(env, w, calls, j)
    && entry == Entry(Some(tx.seen), tx.to, Some(tx.user))
    && id < |before.orders| && |before.orders[id].history| == k
  }

  /** The k-th entry of the order's history was written at step j on the check of step m. */
  ghost predicate CheckedEntry(env: Env, w: World, calls: seq<Call>, id: OrderId, k: nat, entry: Entry, m: nat, j: nat)
    requires m < j < |calls|
  {
    && WroteAt(env, w, calls, j, id, k, entry, CheckOf(env, w, calls, m))
    && entry.from.Some? && CheckedAt(env, w, calls, m, id, entry.from.value, entry.to)
  }

  lemma CheckedEarlier(env: Env, w: World, calls: seq<Call>, m: nat, id: OrderId, seen: Status, to: Status)
    requires m < |calls| - 1
    ensures CheckedAt(env, w, calls[..|calls| - 1], m, id, seen, to) <==> CheckedAt(env, w, calls, m, id, seen, to)
    ensures CheckOf(env, w, calls[..|calls| - 1], m) == CheckOf(env, w, calls, m)
  {
    hide Execute;
    assert calls[..|calls| - 1][..m] == calls[..m];
  }

  lemma WroteEarlier(env: Env, w: World, calls: seq<Call>, j: nat, id: OrderId, k: nat, entry: Entry, c: nat)
    requires j < |calls| - 1 && WroteAt(env, w, calls[..|calls| - 1], j, id, k, entry, c)
    ensures WroteAt(env, w, calls, j, id, k, entry, c)
  {
    hide Execute;
    assert calls[..|calls| - 1][..j] == calls[..j];
  }

  // ---------------------------------------------------------------- the record of checks

  /** One transaction on the record: nothing, one check more, or one check used up by its write. */
  lemma ChecksStep(env: Env, w: World, tx: Tx, now: Time)
    ensures var next := Apply(env, w, tx, now).checks;
            || next == w.checks
            || (&& tx.VerifyCheckpoint? && IsValidTransition(tx.seen, tx.to)
                && tx.order < |w.orders| && AtCheckpoint(env, w, tx.order, tx.to)
                && next == w.checks + [Check(tx.order, tx.seen, tx.to, false)])
            || (&& tx.UpdateStatus? && tx.check < |w.checks|
                && next == w.checks[tx.check := w.checks[tx.check].(used := true)])
  {
    hide OnTheSpot, AtCheckpoint;
    if !tx.VerifyCheckpoint? && !tx.UpdateStatus? {
      ChecksLeft(env, w, tx, now);
    } else if tx.VerifyCheckpoint? && Verify(env, w, tx.order, tx.seen, tx.to).Done? {
      SpotIsCheckpoint(env, w, tx.order, tx.to);
    }
  }

  lemma ChecksLeft(env: Env, w: World, tx: Tx, now: Time)
    requires !tx.VerifyCheckpoint? && !tx.UpdateStatus?
    ensures Apply(env, w, tx, now).checks == w.checks
  {
    hide Execute, Apply;
    Frames(env, w, tx, now);
  }

  /** Checks are never forgotten, never changed but for being used up, and never given back. */
  lemma ChecksStay(env: Env, w: World, tx: Tx, now: Time, c: nat)
    requires c < |w.checks|
    ensures c < |Apply(env, w, tx, now).checks|
    ensures var now' := Apply(env, w, tx, now).checks[c];
            now'.(used := w.checks[c].used) == w.checks[c] && (w.checks[c].used ==> now'.used)
  {
    hide Execute, Apply, AtCheckpoint;
    ChecksStep(env, w, tx, now);
  }

  /** Every check on record was made, at the step that put it there. */
  lemma {:induction false} ChecksWereMade(env: Env, w: World, calls: seq<Call>, c: nat)
    requires Initial(w) && c < |Run(env, w, calls).checks|
    ensures exists m :: 0 <= m < |calls| && CheckOf(env, w, calls, m) == c
              && CheckedAt(env, w, calls, m, Run(env, w, calls).checks[c].order,
                           Run(env, w, calls).checks[c].seen, Run(env, w, calls).checks[c].to)
  {
    hide Execute, AtCheckpoint, IsValidTransition;
    if calls != [] {
      var n := |calls| - 1;
      var before, check := Run(env, w, calls[..n]), Run(env, w, calls).checks[c];
      ChecksStep(env, before, calls[n].tx, calls[n].now);
      if c < |before.checks| {
        ChecksStay(env, before, calls[n].tx, calls[n].now, c);
        ChecksWereMade(env, w, calls[..n], c);
        var m :| 0 <= m < n && CheckOf(env, w, calls[..n], m) == c
                 && CheckedAt(env, w, calls[..n], m, check.order, check.seen, check.to);
        CheckedEarlier(env, w, calls, m, check.order, check.seen, check.to);
      } else {
        assert CheckOf(env, w, calls, n) == c;
        assert CheckedAt(env, w, calls, n, check.order, check.seen, check.to);
      }
    }
  }

  lemma {:induction false} UsedStays(env: Env, w: World, calls: seq<Call>, n: nat, c: nat)
    requires n <= |calls| && c < |Run(env, w, calls[..n]).checks| && Run(env, w, calls[..n]).checks[c].used
    ensures c < |Run(env, w, calls).checks| && Run(env, w, calls).checks[c].used
    decreases |calls| - n
  {
    hide Execute;
    if n < |calls| {
      assert calls[..n + 1][..n] == calls[..n];
      ChecksStay(env, Run(env, w, calls[..n]), calls[n].tx, calls[n].now, c);
      UsedStays(env, w, calls, n + 1, c);
    } else {
      assert calls[..n] == calls;
    }
  }

  /** A write to a checkpoint needs its check open and leaves it used. */
  lemma WriteUsesCheck(env: Env, w: World, tx: Tx, now: Time)
    requires tx.UpdateStatus? && Gated(tx.to) && Execute(env, w, tx, now).Done?
    ensures tx.check < |w.checks| && !w.checks[tx.check].used
    ensures tx.check < |Apply(env, w, tx, now).checks| && Apply(env, w, tx, now).checks[tx.check].used
  {
  }

  /** Over every run no two entries share a check. */
  lemma {:induction false} CheckServesOneEntry(env: Env, w: World, calls: seq<Call>, i: nat, j: nat)
    requires i < j < |calls| && Succeeds(env, w, calls, i) && Succeeds(env, w, calls, j)
    requires calls[i].tx.UpdateStatus? && Gated(calls[i].tx.to) && calls[j].tx.UpdateStatus? && Gated(calls[j].tx.to)
    ensures calls[i].tx.check != calls[j].tx.check
  {
    hide Execute, Apply, Gated;
    WriteUsesCheck(env, Run(env, w, calls[..i]), calls[i].tx, calls[i].now);
    assert calls[..i + 1][..i] == calls[..i];
    assert calls[..j][..i + 1] == calls[..i + 1];
    UsedStays(env, w, calls[..j], i + 1, calls[i].tx.check);
    WriteUsesCheck(env, Run(env, w, calls[..j]), calls[j].tx, calls[j].now);
  }

  // ---------------------------------------------------------------- every gated entry has its own check

  /** A step that appends a gated entry is the write of an `updateStatus` whose check is on record. */
  lemma EntryStep(env: Env, w: World, tx: Tx, now: Time, id: OrderId, k: nat)
    requires id < |Apply(env, w, tx, now).orders| && k < |Apply(env, w, tx, now).orders[id].history|
    requires Gated(Apply(env, w, tx, now).orders[id].history[k].to)
    requires id < |w.orders| ==> LegalHistory(w.orders[id]) && StampsMatch(w.orders[id])
    ensures id < |w.orders|
    ensures var o, entry := w.orders[id], Apply(env, w, tx, now).orders[id].history[k];
            || (k < |o.history| && o.history[k] == entry)
            || (&& k == |o.history| && tx.UpdateStatus? && tx.order == id && Execute(env, w, tx, now).Done?
                && entry == Entry(Some(tx.seen), tx.to, Some(tx.user)) && MayWrite(w, id, tx.seen, tx.to, tx.check))
  {
    hide Execute, Apply;
    RowBefore(env, w, tx, now, id);
    assert id < |w.orders|;
    RowFrame(env, w, tx, now, id);
    if EntersStatus(tx) && tx.order == id && Execute(env, w, tx, now).Done? {
      KeepsRecord(env, w, tx, now, id);
      StatusWriteRow(env, w, tx, now);
      CheckpointEntry(env, w, tx, now);
    }
  }

  /** Over every run, whatever is interleaved: every checkpoint in any history was written by an
    * `updateStatus` that had itself, earlier, read the status it left and found the order on the spot.
    * `CheckServesOneEntry` says that no check serves twice. */
  lemma {:induction false} GatedEntriesWereChecked(env: Env, w: World, calls: seq<Call>, id: OrderId, k: nat)
    requires Initial(w) && id < |Run(env, w, calls).orders| && k < |Run(env, w, calls).orders[id].history|
    requires Run(env, w, calls).orders[id].history[k].to in CHECKPOINTS
    ensures exists m, j ::
              0 <= m < j < |calls| && CheckedEntry(env, w, calls, id, k, Run(env, w, calls).orders[id].history[k], m, j)
  {
    hide Execute, AtCheckpoint, Gated, IsValidTransition;
    CheckpointsAreGated(Run(env, w, calls).orders[id].history[k].to);
    if calls != [] {
      var n := |calls| - 1;
      var before, entry := Run(env, w, calls[..n]), Run(env, w, calls).orders[id].history[k];
      if id < |before.orders| { HistoryIsLegal(env, w, calls[..n], id); }
      EntryStep(env, before, calls[n].tx, calls[n].now, id, k);
      if k < |before.orders[id].history| {
        GatedEntriesWereChecked(env, w, calls[..n], id, k);
        var m, j :| 0 <= m < j < n && CheckedEntry(env, w, calls[..n], id, k, entry, m, j);
        CheckedEarlier(env, w, calls, m, id, entry.from.value, entry.to);
        WroteEarlier(env, w, calls, j, id, k, entry, CheckOf(env, w, calls, m));
        assert CheckedEntry(env, w, calls, id, k, entry, m, j);
      } else {
        LastEntryWasChecked(env, w, calls, id, k, entry);
      }
    }
  }

  lemma LastEntryWasChecked(env: Env, w: World, calls: seq<Call>, id: OrderId, k: nat, entry: Entry)
    requires Initial(w) && calls != [] && Gated(entry.to)
    requires var n := |calls| - 1;
             var before, tx := Run(env, w, calls[..n]), calls[n].tx;
             && id < |before.orders| && k == |before.orders[id].history| && tx.UpdateStatus? && tx.order == id
             && Execute(env, before, tx, calls[n].now).Done?
             && entry == Entry(Some(tx.seen), tx.to, Some(tx.user)) && MayWrite(before, id, tx.seen, tx.to, tx.check)
    ensures exists m, j :: 0 <= m < j < |calls| && CheckedEntry(env, w, calls, id, k, entry, m, j)
  {
    hide Execute, AtCheckpoint, IsValidTransition, Run;
    var n := |calls| - 1;
    var c := calls[n].tx.check;
    ChecksWereMade(env, w, calls[..n], c);
    var m :| 0 <= m < n && CheckOf(env, w, calls[..n], m) == c
             && CheckedAt(env, w, calls[..n], m, id, calls[n].tx.seen, entry.to);
    CheckedEarlier(env, w, calls, m, id, calls[n].tx.seen, entry.to);
    assert WroteAt(env, w, calls, n, id, k, entry, c);
    assert CheckedEntry(env, w, calls, id, k, entry, m, n);
  }

  /** So no two checkpoints, of one order or of two, were entered on one check. */
  lemma {:induction false} EntriesHaveOwnChecks(
      env: Env, w: World, calls: seq<Call>, a: OrderId, k: nat, one: Entry, m: nat, j: nat,
      b: OrderId, l: nat, other: Entry, n: nat, i: nat)
    requires m < j < |calls| && CheckedEntry(env, w, calls, a, k, one, m, j) && one.to in CHECKPOINTS
    requires n < i < |calls| && CheckedEntry(env, w, calls, b, l, other, n, i) && other.to in CHECKPOINTS
    requires (a, k) != (b, l)
    ensures m != n && CheckOf(env, w, calls, m) != CheckOf(env, w, calls, n)
  {
    hide Execute, Run, Gated, CheckOf, CheckedAt;
    CheckpointsAreGated(one.to);
    CheckpointsAreGated(other.to);
    if i < j {
      CheckServesOneEntry(env, w, calls, i, j);
    } else if j < i {
      CheckServesOneEntry(env, w, calls, j, i);
    }
  }

  /** The checks and status writes of this order act on its current status. */
  ghost predicate ChecksInPlace(env: Env, w: World, calls: seq<Call>, id: OrderId) {
    && SerialFor(env, w, calls, id)
    && forall m :: 0 <= m < |calls| && calls[m].tx.VerifyCheckpoint? && calls[m].tx.order == id ==>
         Serial(Run(env, w, calls[..m]), calls[m].tx)
  }

  /** When the order's own checks and status writes are serial, each checkpoint was checked while the order
    * stood at the status just before it. */
  lemma {:induction false} CheckedJustBefore(env: Env, w: World, calls: seq<Call>, id: OrderId, k: nat)
    requires Initial(w) && ChecksInPlace(env, w, calls, id)
    requires id < |Run(env, w, calls).orders| && k < |Run(env, w, calls).orders[id].history|
    requires Run(env, w, calls).orders[id].history[k].to in CHECKPOINTS
    ensures k > 0
    ensures var o := Run(env, w, calls).orders[id];
            exists m, j ::
              && 0 <= m < j < |calls| && CheckedEntry(env, w, calls, id, k, o.history[k], m, j)
              && id < |Run(env, w, calls[..m]).orders|
              && Run(env, w, calls[..m]).orders[id].status == o.history[k - 1].to
  {
    hide Execute, AtCheckpoint, IsValidTransition, Run, SerialFor;
    var o := Run(env, w, calls).orders[id];
    PathOverRuns(env, w, calls, id);
    GatedEntriesWereChecked(env, w, calls, id, k);
    var m, j :| 0 <= m < j < |calls| && CheckedEntry(env, w, calls, id, k, o.history[k], m, j);
    assert Serial(Run(env, w, calls[..m]), calls[m].tx);
  }

  /** Over every run in which the status writers act on statuses that the order has really had, however
    * long ago: an order that is DELIVERED, CUSTOMER_CONFIRMED or COMPLETED has an entry for each of the
    * four checkpoints, and each was checked. `confirmDelivery` and `settle` add no way round. */
  lemma {:induction false} DeliveredWasCheckedFourTimes(env: Env, w: World, calls: seq<Call>, id: OrderId, s: Status)
    requires Initial(w) && RealReads(env, w, calls) && id < |Run(env, w, calls).orders|
    requires Run(env, w, calls).orders[id].status in {Delivered, CustomerConfirmed, Completed}
    requires s in CHECKPOINTS
    ensures var o := Run(env, w, calls).orders[id];
            exists k, m, j ::
              && 0 <= k < |o.history| && o.history[k].to == s
              && 0 <= m < j < |calls| && CheckedEntry(env, w, calls, id, k, o.history[k], m, j)
  {
    hide Execute, AtCheckpoint, Run, ReallyRead;
    ClosedOverRuns(env, w, calls);
    var o := Run(env, w, calls).orders[id];
    assert o.history[|o.history| - 1].to == o.status;
    EveryEarlierStatus(o, o.status, s);
    var k :| 0 <= k < |o.history| && o.history[k].to == s;
    GatedEntriesWereChecked(env, w, calls, id, k);
  }
}
