/** The job that retries failed payments: bounded over all runs, exact in one uninterrupted pass. */
module PaymentRetries {
  import opened Prelude
  import opened Domain
  import opened Transactions
  import opened ChangeRequests

  const RETRY_PAGE := 50

  /** What the payment providers answer in this pass; None when the lookup throws. */
  type Answers = PaymentId -> Option<Verification>

  function Declines(payments: seq<Payment>): seq<PaymentId> {
    if payments == [] then []
    else
      var n := |payments| - 1;
      Declines(payments[..n]) + (if payments[n].status == Declined then [n] else [])
  }

  /** The page of failed payments that the job reads. */
  function RetryPage(payments: seq<Payment>): seq<PaymentId> {
    var all := Declines(payments);
    if |all| <= RETRY_PAGE then all else all[..RETRY_PAGE]
  }

  /** A row that the job read and that has retries left. */
  predicate Retryable(rows: seq<Payment>, id: PaymentId) {
    id < |rows| && rows[id].retries < MAX_RETRIES
  }

  /** The calls for one row: count the retry, ask the provider, record what it answers. */
  function RetryOne(env: Env, w: World, rows: seq<Payment>, id: PaymentId, answers: Answers, now: Time): seq<Call> {
    if !Retryable(rows, id) then []
    else
      var count := Call(CountRetry(id, rows[id].retries), now);
      var counted := Apply(env, w, count.tx, now);
      if id < |counted.payments| && counted.payments[id].status != Paid && answers(id).Some? then
        [count, Call(RecordVerification(id, answers(id).value), now)]
      else [count]
  }

  /** The calls of the retry loop over the rows it read. */
  function RetryCalls(env: Env, w: World, rows: seq<Payment>, ids: seq<PaymentId>, answers: Answers, now: Time)
    : seq<Call>
    decreases |ids|
  {
    if ids == [] then []
    else
      var first := RetryOne(env, w, rows, ids[0], answers, now);
      first + RetryCalls(env, Run(env, w, first), rows, ids[1..], answers, now)
  }

  /** How many retries the pass reports: lookups that did not throw. */
  function RetryCount(rows: seq<Payment>, ids: seq<PaymentId>, answers: Answers): nat
  {
    if ids == [] then 0
    else
      (if Retryable(rows, ids[0]) && answers(ids[0]).Some? then 1 else 0) + RetryCount(rows, ids[1..], answers)
  }

  lemma {:induction false} DeclinesAreDeclined(payments: seq<Payment>)
    ensures forall id: PaymentId :: id in Declines(payments) <==> id < |payments| && payments[id].status == Declined
    ensures forall i, j :: 0 <= i < j < |Declines(payments)| ==> Declines(payments)[i] < Declines(payments)[j]
  {
    if payments != [] {
      var rest := Declines(payments[..|payments| - 1]);
      DeclinesAreDeclined(payments[..|payments| - 1]);
      assert forall i :: 0 <= i < |rest| ==> rest[i] in rest;
    }
  }

  // ---------------------------------------------------------------- bounded over all runs

  ghost predicate RetriesBounded(w: World) {
    forall p :: 0 <= p < |w.payments| ==> w.payments[p].retries <= MAX_RETRIES
  }

  lemma KeepsRetriesBounded(env: Env, w: World, tx: Tx, now: Time)
    requires RetriesBounded(w)
    ensures RetriesBounded(Apply(env, w, tx, now))
  {
    if !TouchesChanges(tx) {
      OthersLeaveChanges(env, w, tx, now);
    }
  }

  /** However many retry jobs overlap, and however stale the counts they read, no payment is ever
    * counted as retried more than three times. */
  lemma {:induction false} RetriesNeverExceedThree(env: Env, w: World, calls: seq<Call>)
    requires Initial(w)
    ensures forall p :: 0 <= p < |Run(env, w, calls).payments| ==> Run(env, w, calls).payments[p].retries <= 3
  {
    hide Execute;
    if calls != [] {
      var n := |calls| - 1;
      RetriesNeverExceedThree(env, w, calls[..n]);
      KeepsRetriesBounded(env, Run(env, w, calls[..n]), calls[n].tx, calls[n].now);
    }
  }

  // ---------------------------------------------------------------- one pass

  /** What one pass makes of a failed payment it read. */
  function AfterRetry(p: Payment, answer: Option<Verification>): Payment {
    if p.retries >= MAX_RETRIES then p
    else
      var counted := p.(retries := p.retries + 1);
      match answer
      case Some(VerifiedPaid) => counted.(status := Paid)
      case _ => counted
  }

  function Announcement(rows: seq<Payment>, id: PaymentId, answer: Option<Verification>): seq<Completion> {
    if Retryable(rows, id) && answer == Some(VerifiedPaid) then [Completion(id, rows[id].order)] else []
  }

  /** The completions that the pass announces, in order. */
  function Announcements(rows: seq<Payment>, ids: seq<PaymentId>, answers: Answers): seq<Completion> {
    if ids == [] then []
    else Announcement(rows, ids[0], answers(ids[0])) + Announcements(rows, ids[1..], answers)
  }

  lemma StepsOfOne(env: Env, w: World, id: PaymentId, count: nat, answer: Verification, now: Time)
    requires id < |w.payments|
    ensures count < MAX_RETRIES ==>
              Apply(env, w, CountRetry(id, count), now) ==
                  w.(payments := w.payments[id := w.payments[id].(retries := count + 1)])
    ensures Apply(env, w, RecordVerification(id, answer), now) == Record(w, id, answer).world
  {
  }

  lemma RetryOneEffect(env: Env, w: World, rows: seq<Payment>, id: PaymentId, answers: Answers, now: Time)
    requires id < |rows| && id < |w.payments| && w.payments[id] == rows[id] && rows[id].status == Declined
    ensures Run(env, w, RetryOne(env, w, rows, id, answers, now)) ==
            w.(payments := w.payments[id := AfterRetry(rows[id], answers(id))],
               completions := w.completions + Announcement(rows, id, answers(id)))
  {
    hide Execute, Apply;
    var calls := RetryOne(env, w, rows, id, answers, now);
    if Retryable(rows, id) {
      var counted := w.(payments := w.payments[id := rows[id].(retries := rows[id].retries + 1)]);
      StepsOfOne(env, w, id, rows[id].retries, StillPending, now);
      if answers(id).Some? {
        RunTwo(env, w, calls[0], calls[1]);
        StepsOfOne(env, counted, id, 0, answers(id).value, now);
      } else {
        assert [calls[0]][..0] == [];
      }
    }
  }

  /** The payment as the pass leaves it. */
  function PassRow(w: World, rows: seq<Payment>, ids: seq<PaymentId>, answers: Answers, p: PaymentId): Payment
    requires p < |w.payments|
  {
    if p in ids && p < |rows| then AfterRetry(rows[p], answers(p)) else w.payments[p]
  }

  lemma {:induction false} RetryLoopEffect(env: Env, w: World, rows: seq<Payment>,
                                           ids: seq<PaymentId>, answers: Answers, now: Time)
    requires forall id :: id in ids ==>
               id < |rows| && id < |w.payments| && w.payments[id] == rows[id] && rows[id].status == Declined
    requires forall i, j :: 0 <= i < j < |ids| ==> ids[i] < ids[j]
    ensures var next := Run(env, w, RetryCalls(env, w, rows, ids, answers, now));
            && |next.payments| == |w.payments|
            && (forall p: PaymentId :: p < |w.payments| ==> next.payments[p] == PassRow(w, rows, ids, answers, p))
            && next.completions == w.completions + Announcements(rows, ids, answers)
            && next == w.(payments := next.payments, completions := next.completions)
    decreases |ids|
  {
    hide Execute, Apply, RetryOne, AfterRetry, Announcement;
    if ids != [] {
      var id, rest := ids[0], ids[1..];
      var first := RetryOne(env, w, rows, id, answers, now);
      var next := Run(env, w, first);
      assert id in ids && id !in rest;
      assert forall other :: other in rest ==> other in ids;
      RetryOneEffect(env, w, rows, id, answers, now);
      RetryLoopEffect(env, next, rows, rest, answers, now);
      RunConcat(env, w, first, RetryCalls(env, next, rows, rest, answers, now));
    }
  }

  /** 1 for a failed payment. */
  function Failing(): Payment -> int {
    (p: Payment) => if p.status == Declined then 1 else 0
  }

  lemma {:induction false} DeclinesInOrder(payments: seq<Payment>)
    ensures |Declines(payments)| == Total(payments, Failing())
    ensures forall i :: 0 <= i < |Declines(payments)| ==>
              Declines(payments)[i] < |payments| && Total(payments[..Declines(payments)[i]], Failing()) == i
  {
    if payments != [] {
      var n := |payments| - 1;
      var rest := Declines(payments[..n]);
      DeclinesInOrder(payments[..n]);
      forall i | 0 <= i < |rest| ensures payments[..n][..rest[i]] == payments[..rest[i]] {
      }
    }
  }

  /** The page holds the failed payments with fewer than fifty failed ones before them. */
  lemma PageIsFirstFifty(payments: seq<Payment>, id: PaymentId)
    ensures id in RetryPage(payments) <==>
            id < |payments| && payments[id].status == Declined && Total(payments[..id], Failing()) < 50
  {
    DeclinesAreDeclined(payments);
    DeclinesInOrder(payments);
    var all, page := Declines(payments), RetryPage(payments);
    assert forall i :: 0 <= i < |page| ==> page[i] == all[i];
    if id in page {
      var i :| 0 <= i < |page| && page[i] == id;
      assert all[i] in all;
    }
    if id < |payments| && payments[id].status == Declined && Total(payments[..id], Failing()) < 50 {
      var i :| 0 <= i < |all| && all[i] == id;
      assert page[i] == id;
    }
  }

  /** A failed payment of the page with retries left. */
  ghost predicate IsDue(rows: seq<Payment>, id: PaymentId) {
    id < |rows| && rows[id].status == Declined && Total(rows[..id], Failing()) < 50 && rows[id].retries < 3
  }

  /** The retryable ids of a list that get an answer like this. */
  ghost function Answered(rows: seq<Payment>, ids: seq<PaymentId>, answers: Answers, paid: bool): set<PaymentId> {
    set id | id in ids && Retryable(rows, id)
             && if paid then answers(id) == Some(VerifiedPaid) else answers(id).Some?
  }

  lemma AnsweredSplits(rows: seq<Payment>, ids: seq<PaymentId>, answers: Answers, paid: bool)
    requires ids != [] && forall i, j :: 0 <= i < j < |ids| ==> ids[i] < ids[j]
    ensures var head, rest := Answered(rows, [ids[0]], answers, paid), Answered(rows, ids[1..], answers, paid);
            Answered(rows, ids, answers, paid) == head + rest && head * rest == {}
            && |Answered(rows, ids, answers, paid)| == |head| + |rest|
  {
    var head, rest := Answered(rows, [ids[0]], answers, paid), Answered(rows, ids[1..], answers, paid);
    assert forall id :: id in ids <==> id == ids[0] || id in ids[1..];
    assert Answered(rows, ids, answers, paid) == head + rest;
    assert head * rest == {};
  }

  lemma AnsweredOne(rows: seq<Payment>, id: PaymentId, answers: Answers, paid: bool)
    ensures Answered(rows, [id], answers, paid) ==
            if Retryable(rows, id) && (if paid then answers(id) == Some(VerifiedPaid) else answers(id).Some?) then {id}
            else {}
  {
  }

  /** The pass reports the lookups that went through, and announces the payments now paid, each once. */
  lemma {:induction false} CountsAre(rows: seq<Payment>, ids: seq<PaymentId>, answers: Answers)
    requires forall i, j :: 0 <= i < j < |ids| ==> ids[i] < ids[j]
    ensures RetryCount(rows, ids, answers) == |Answered(rows, ids, answers, false)|
    ensures |Announcements(rows, ids, answers)| == |Answered(rows, ids, answers, true)|
    ensures forall c :: c in Announcements(rows, ids, answers) <==>
                      c.payment in Answered(rows, ids, answers, true) && c.order == rows[c.payment].order
  {
    hide Answered;
    if ids == [] {
      NoneAnswered(rows, answers);
    } else {
      CountsAre(rows, ids[1..], answers);
      AnsweredSplits(rows, ids, answers, false);
      AnsweredSplits(rows, ids, answers, true);
      AnsweredOne(rows, ids[0], answers, false);
      AnsweredOne(rows, ids[0], answers, true);
      RetryableAnswered(rows, ids, answers);
    }
  }

  lemma NoneAnswered(rows: seq<Payment>, answers: Answers)
    ensures Answered(rows, [], answers, false) == {} && Answered(rows, [], answers, true) == {}
  {
  }

  lemma RetryableAnswered(rows: seq<Payment>, ids: seq<PaymentId>, answers: Answers)
    ensures forall id :: id in Answered(rows, ids, answers, true) ==> id < |rows|
  {
  }

  /** The rows that a pass looks up, and those it finds paid. */
  ghost function LookedUp(rows: seq<Payment>, answers: Answers, paid: bool): set<PaymentId> {
    set id: PaymentId | id < |rows| && IsDue(rows, id)
                        && if paid then answers(id) == Some(VerifiedPaid) else answers(id).Some?
  }

  lemma PageAnswered(rows: seq<Payment>, answers: Answers, paid: bool)
    ensures Answered(rows, RetryPage(rows), answers, paid) == LookedUp(rows, answers, paid)
  {
    forall id: PaymentId ensures id in RetryPage(rows) && Retryable(rows, id) <==> IsDue(rows, id) {
      PageIsFirstFifty(rows, id);
    }
  }

  /** What a pass reports and announces, by rows. */
  lemma PassReports(rows: seq<Payment>, answers: Answers)
    ensures RetryCount(rows, RetryPage(rows), answers) == |LookedUp(rows, answers, false)|
    ensures var news := Announcements(rows, RetryPage(rows), answers);
            && |news| == |LookedUp(rows, answers, true)|
            && forall c :: c in news <==>
                 c.payment in LookedUp(rows, answers, true) && c.order == rows[c.payment].order
  {
    hide Answered, LookedUp, Announcements, RetryCount;
    DeclinesAreDeclined(rows);
    PageAnswered(rows, answers, false);
    PageAnswered(rows, answers, true);
    assert forall i :: 0 <= i < |RetryPage(rows)| ==> RetryPage(rows)[i] == Declines(rows)[i];
    LookedUpExist(rows, answers);
    CountsAre(rows, RetryPage(rows), answers);
  }

  lemma LookedUpExist(rows: seq<Payment>, answers: Answers)
    ensures forall id :: id in LookedUp(rows, answers, true) ==> id < |rows|
  {
  }

  /** What one pass makes of a row: a failed payment of the page with retries left is counted once more, and is
    * paid when the provider says so. */
  ghost predicate IsRetried(rows: seq<Payment>, id: PaymentId, answers: Answers, after: Payment)
    requires id < |rows|
  {
    var p := rows[id];
    if IsDue(rows, id) then
      after == p.(retries := p.retries + 1, status := if answers(id) == Some(VerifiedPaid) then Paid else Declined)
    else after == p
  }

  /** One uninterrupted pass, row by row. */
  lemma PassByRows(env: Env, w: World, answers: Answers, now: Time)
    ensures var next := Run(env, w, RetryCalls(env, w, w.payments, RetryPage(w.payments), answers, now));
            && |next.payments| == |w.payments|
            && forall id: PaymentId :: id < |w.payments| ==> IsRetried(w.payments, id, answers, next.payments[id])
  {
    hide Execute, Run, RetryCalls, RetryPage;
    RetryPassIsExact(env, w, answers, now);
    var next := Run(env, w, RetryCalls(env, w, w.payments, RetryPage(w.payments), answers, now));
    forall id: PaymentId | id < |w.payments| ensures IsRetried(w.payments, id, answers, next.payments[id]) {
      PageIsFirstFifty(w.payments, id);
    }
  }

  /** What one pass does to the payments and the announcements, and what it reports. */
  ghost predicate Passed(before: seq<Payment>, after: seq<Payment>, news: seq<Completion>, retried: nat,
                         answers: Answers) {
    var paid := LookedUp(before, answers, true);
    && |after| == |before|
    && (forall id: PaymentId :: id < |before| ==> IsRetried(before, id, answers, after[id]))
    && retried == |LookedUp(before, answers, false)|
    && |news| == |paid|
    && forall c :: c in news <==> c.payment in paid && c.payment < |before| && c.order == before[c.payment].order
  }

  lemma PassIsPassed(env: Env, w: World, answers: Answers, now: Time)
    ensures var page := RetryPage(w.payments);
            var next := Run(env, w, RetryCalls(env, w, w.payments, page, answers, now));
            && w.completions <= next.completions
            && Passed(w.payments, next.payments, next.completions[|w.completions|..],
                      RetryCount(w.payments, page, answers), answers)
  {
    hide Run, RetryCalls, RetryPage, LookedUp, Announcements, RetryCount, IsRetried;
    PassReports(w.payments, answers);
    LookedUpExist(w.payments, answers);
    RetryPassIsExact(env, w, answers, now);
    PassByRows(env, w, answers, now);
    var news := Announcements(w.payments, RetryPage(w.payments), answers);
    assert (w.completions + news)[|w.completions|..] == news;
  }

  /** One uninterrupted pass: the failed payments of the page with retries left are counted once more,
    * those the provider now reports paid become paid and are announced, in page order, and nothing
    * else changes. */
  lemma RetryPassIsExact(env: Env, w: World, answers: Answers, now: Time)
    ensures var ids := RetryPage(w.payments);
            var next := Run(env, w, RetryCalls(env, w, w.payments, ids, answers, now));
            && |next.payments| == |w.payments|
            && (forall p: PaymentId :: p < |w.payments| ==>
                  next.payments[p] == if p in ids then AfterRetry(w.payments[p], answers(p)) else w.payments[p])
            && next.completions == w.completions + Announcements(w.payments, ids, answers)
            && next == w.(payments := next.payments, completions := next.completions)
  {
    hide Execute;
    DeclinesAreDeclined(w.payments);
    var ids := RetryPage(w.payments);
    assert forall id :: id in ids ==> id in Declines(w.payments);
    RetryLoopEffect(env, w, w.payments, ids, answers, now);
  }
}
