/** The rider wallet ledger, replayed from its log over all runs. */
module Wallets {
  import opened Domain
  import opened Transactions
  import opened Settlements

  function SignedAmount(p: Posting): int {
    if p.kind == Credit then p.amount else -p.amount
  }

  /** Balance effect of a stretch of the log. */
  function Net(log: seq<Posting>): int {
    if log == [] then 0 else Net(log[..|log| - 1]) + SignedAmount(log[|log| - 1])
  }

  function SumOf(log: seq<Posting>, kind: PostingKind): int {
    if log == [] then 0
    else SumOf(log[..|log| - 1], kind) + (if log[|log| - 1].kind == kind then log[|log| - 1].amount else 0)
  }

  /** Every posting records the balance that folding the log up to it gives. */
  ghost predicate BalancesReplay(opening: int, log: seq<Posting>) {
    log == [] ||
    (BalancesReplay(opening, log[..|log| - 1]) && log[|log| - 1].balanceAfter == opening + Net(log))
  }

  /** Folding the postings made since `start` gives every recorded balance and the totals of `w`. */
  ghost predicate Replays(start: Wallet, w: Wallet) {
    var n := |start.log|;
    && n <= |w.log| && w.log[..n] == start.log
    && BalancesReplay(start.available, w.log[n..])
    && w.available == start.available + Net(w.log[n..])
    && w.earned == start.earned + SumOf(w.log[n..], Credit)
    && w.withdrawn == start.withdrawn + SumOf(w.log[n..], Debit)
    && w.version - start.version == |w.log| - n
    && w.available - w.earned + w.withdrawn == start.available - start.earned + start.withdrawn
  }

  lemma SumsAfterPosting(log: seq<Posting>, p: Posting)
    ensures Net(log + [p]) == Net(log) + SignedAmount(p)
    ensures SumOf(log + [p], Credit) == SumOf(log, Credit) + (if p.kind == Credit then p.amount else 0)
    ensures SumOf(log + [p], Debit) == SumOf(log, Debit) + (if p.kind == Debit then p.amount else 0)
  {
    assert (log + [p])[..|log|] == log;
  }

  lemma PostingKeepsReplay(start: Wallet, w: Wallet, next: Wallet, p: Posting)
    requires Replays(start, w)
    requires next.log == w.log + [p] && p.balanceAfter == next.available == w.available + SignedAmount(p)
    requires next.earned == w.earned + (if p.kind == Credit then p.amount else 0)
    requires next.withdrawn == w.withdrawn + (if p.kind == Debit then p.amount else 0)
    requires next.version == w.version + 1
    ensures Replays(start, next)
  {
    var n, m := |start.log|, |w.log|;
    assert next.log[n..] == w.log[n..] + [p];
    assert next.log[..n] == w.log[..n];
    SumsAfterPosting(w.log[n..], p);
    assert next.log[n..][..m - n] == w.log[n..];
  }

  lemma OthersLeaveWallet(env: Env, w: World, tx: Tx, now: Time, rider: RiderId)
    requires HasWallet(w, rider) && WritesRider(tx) && !tx.Withdraw?
    ensures HasWallet(Apply(env, w, tx, now), rider)
    ensures Apply(env, w, tx, now).riders[rider].wallet == w.riders[rider].wallet
  {
  }

  /** A transaction leaves a wallet alone, credits it with a positive amount, or debits it within
    * its balance. */
  lemma WalletStep(env: Env, w: World, tx: Tx, now: Time, rider: RiderId)
    requires HasWallet(w, rider)
    ensures HasWallet(Apply(env, w, tx, now), rider)
    ensures var before, after := w.riders[rider].wallet.value, Apply(env, w, tx, now).riders[rider].wallet.value;
            || after == before
            || (tx.CreditPayee? && tx.handler < |w.handlers|
                && exists amount :: amount > 0 && after == CreditTo(before, amount, w.handlers[tx.handler].order))
            || (tx.Withdraw? && tx.rider == rider && tx.sum <= before.available && after == DebitFrom(before, tx.sum))
  {
    if !WritesRider(tx) && !MovesMoney(tx) {
      RidersLeft(env, w, tx, now);
    } else if WritesRider(tx) && !tx.Withdraw? {
      OthersLeaveWallet(env, w, tx, now, rider);
    } else if Execute(env, w, tx, now).Done? && tx.CreditPayee? {
      assert w.handlers[tx.handler].split.rider > 0;
    }
  }

  lemma StepKeepsReplay(env: Env, w: World, tx: Tx, now: Time, rider: RiderId, start: Wallet)
    requires HasWallet(w, rider) && Replays(start, w.riders[rider].wallet.value)
    ensures HasWallet(Apply(env, w, tx, now), rider)
    ensures Replays(start, Apply(env, w, tx, now).riders[rider].wallet.value)
  {
    hide Execute;
    WalletStep(env, w, tx, now, rider);
    var before, after := w.riders[rider].wallet.value, Apply(env, w, tx, now).riders[rider].wallet.value;
    if after != before {
      PostingKeepsReplay(start, before, after, after.log[|before.log|]);
    }
  }

  /** Over every run, for a wallet with any past: its log replays to every recorded balance, to the
    * current balance and to both totals, and `version` counts the postings. */
  lemma {:induction false} WalletReplays(env: Env, w: World, calls: seq<Call>, rider: RiderId)
    requires HasWallet(w, rider)
    ensures HasWallet(Run(env, w, calls), rider)
    ensures Replays(w.riders[rider].wallet.value, Run(env, w, calls).riders[rider].wallet.value)
  {
    hide Execute;
    if calls != [] {
      var n := |calls| - 1;
      WalletReplays(env, w, calls[..n], rider);
      StepKeepsReplay(env, Run(env, w, calls[..n]), calls[n].tx, calls[n].now, rider, w.riders[rider].wallet.value);
    }
  }

  /** Credits are positive and debits are covered, so no wallet ever goes below zero. */
  lemma {:induction false} BalanceNeverNegative(env: Env, w: World, calls: seq<Call>, rider: RiderId)
    requires HasWallet(w, rider) && w.riders[rider].wallet.value.available >= 0
    ensures HasWallet(Run(env, w, calls), rider)
    ensures Run(env, w, calls).riders[rider].wallet.value.available >= 0
  {
    hide Execute;
    if calls != [] {
      var n := |calls| - 1;
      BalanceNeverNegative(env, w, calls[..n], rider);
      WalletStep(env, Run(env, w, calls[..n]), calls[n].tx, calls[n].now, rider);
    }
  }
}
