/** Commission rules over runs. */
module Commissions {
  import opened Prelude
  import opened Domain
  import opened Pricing
  import opened Transactions

  ghost predicate OneRuleEach(rules: seq<Rule>) {
    forall scope: Option<StationId> :: Total(rules, ActiveIn(scope)) <= 1
  }

  predicate SetsRules(tx: Tx) {
    tx.DeactivateRules? || tx.InsertRule?
  }

  lemma RulesLeft(env: Env, w: World, tx: Tx, now: Time)
    requires !SetsRules(tx)
    ensures Apply(env, w, tx, now).rules == w.rules
  {
    hide Execute, Apply;
    Frames(env, w, tx, now);
  }

  lemma DeactivationKeepsOne(rules: seq<Rule>, scope: Option<StationId>)
    requires OneRuleEach(rules)
    ensures OneRuleEach(Deactivate(rules, scope))
    ensures ActiveRate(Deactivate(rules, scope), scope).None?
  {
    DeactivateRows(rules, scope);
    forall asked: Option<StationId> ensures Total(Deactivate(rules, scope), ActiveIn(asked)) <= 1 {
      TotalDominates(rules, Deactivate(rules, scope), ActiveIn(asked));
    }
    ActiveRateIsARule(Deactivate(rules, scope), scope);
  }

  /** No active rule in a scope means a count of zero. */
  lemma NoneActiveIsZero(rules: seq<Rule>, scope: Option<StationId>)
    ensures ActiveRate(rules, scope).None? <==> Total(rules, ActiveIn(scope)) == 0
  {
    ActiveRateIsARule(rules, scope);
    if ActiveRate(rules, scope).None? {
      TotalZero(rules, ActiveIn(scope));
    } else {
      var i :| 0 <= i < |rules| && rules[i].active && rules[i].scope == scope;
      TotalCovers(rules, i, ActiveIn(scope));
    }
  }

  lemma InsertionIff(rules: seq<Rule>, rate: int, scope: Option<StationId>)
    requires OneRuleEach(rules)
    ensures OneRuleEach(rules + [Rule(scope, rate, true)]) <==> ActiveRate(rules, scope).None?
  {
    var rule := Rule(scope, rate, true);
    NoneActiveIsZero(rules, scope);
    TotalNonNegative(rules, ActiveIn(scope));
    TotalAppend(rules, rule, ActiveIn(scope));
    if ActiveRate(rules, scope).None? {
      forall asked: Option<StationId> ensures Total(rules + [rule], ActiveIn(asked)) <= 1 {
        TotalAppend(rules, rule, ActiveIn(asked));
      }
    }
  }

  /** It inserts a rule into a scope that has become active again since it was deactivated. */
  predicate Clashes(w: World, tx: Tx) {
    tx.InsertRule? && 0 <= tx.rate <= 10000 && ActiveRate(w.rules, tx.scope).Some?
  }

  /** Each scope keeps at most one active rule under a transaction exactly when the transaction does not do
    * that; and one whose deactivation still stands never does. */
  lemma OneRuleSurvivesIff(env: Env, w: World, tx: Tx, now: Time)
    requires OneRuleEach(w.rules)
    ensures OneRuleEach(Apply(env, w, tx, now).rules) <==> !Clashes(w, tx)
    ensures Serial(w, tx) ==> !Clashes(w, tx)
  {
    if !SetsRules(tx) {
      RulesLeft(env, w, tx, now);
    } else if tx.DeactivateRules? {
      DeactivationKeepsOne(w.rules, tx.scope);
    } else {
      InsertionIff(w.rules, tx.rate, tx.scope);
    }
  }

  /** No insertion of the run clashes. Whatever else is stale or overlaps does not matter to the rules. */
  ghost predicate NoClash(env: Env, w: World, calls: seq<Call>) {
    forall k :: 0 <= k < |calls| ==> !Clashes(Run(env, w, calls[..k]), calls[k].tx)
  }

  /** Then each scope keeps at most one active rule. */
  lemma {:induction false} OneRuleOverRuns(env: Env, w: World, calls: seq<Call>)
    requires OneRuleEach(w.rules) && NoClash(env, w, calls)
    ensures OneRuleEach(Run(env, w, calls).rules)
  {
    hide Execute, Clashes;
    if calls != [] {
      var n := |calls| - 1;
      forall k | 0 <= k < n ensures !Clashes(Run(env, w, calls[..n][..k]), calls[..n][k].tx) {
        assert calls[..n][..k] == calls[..k];
      }
      OneRuleOverRuns(env, w, calls[..n]);
      OneRuleSurvivesIff(env, Run(env, w, calls[..n]), calls[n].tx, calls[n].now);
    }
  }

  /** The two writes of one `setCommission`. */
  function SetCalls(rate: int, scope: Option<StationId>, now: Time): seq<Call> {
    [Call(DeactivateRules(rate, scope), now), Call(InsertRule(rate, scope), now)]
  }

  /** An undisturbed `setCommission` is serial and sets the rule. */
  lemma SettingIsExact(env: Env, w: World, rate: int, scope: Option<StationId>, now: Time)
    requires OneRuleEach(w.rules) && 0 <= rate <= 10000
    ensures SerialRun(env, w, SetCalls(rate, scope, now))
    ensures Run(env, w, SetCalls(rate, scope, now)) == w.(rules := SetRule(w.rules, rate, scope))
  {
    var calls := SetCalls(rate, scope, now);
    DeactivationKeepsOne(w.rules, scope);
    SingleCallIsSerial(env, w, calls[0]);
    SerialSnoc(env, w, [calls[0]], calls[1]);
    assert calls == [calls[0]] + [calls[1]];
  }

  /** With one active rule each, the first active rule of a scope is the only one: whichever row an
    * unordered lookup returns, it is that one. */
  lemma ActiveRateIsTheOne(rules: seq<Rule>, scope: Option<StationId>, i: nat)
    requires OneRuleEach(rules) && i < |rules| && rules[i].active && rules[i].scope == scope
    ensures ActiveRate(rules, scope) == Some(rules[i].rate)
  {
    ActiveRateIsARule(rules, scope);
    assert rules[i] in rules;
    var found := Rule(scope, ActiveRate(rules, scope).value, true);
    var j :| 0 <= j < |rules| && rules[j] == found;
    if i < j {
      TotalCoversTwo(rules, i, j, ActiveIn(scope));
    } else if j < i {
      TotalCoversTwo(rules, j, i, ActiveIn(scope));
    }
  }

  lemma ActiveRateIgnoresOrder(rules: seq<Rule>, others: seq<Rule>, scope: Option<StationId>)
    requires OneRuleEach(rules) && multiset(rules) == multiset(others)
    ensures ActiveRate(others, scope) == ActiveRate(rules, scope)
  {
    ActiveRateIsARule(rules, scope);
    ActiveRateIsARule(others, scope);
    assert forall r :: r in rules <==> r in multiset(rules);
    assert forall r :: r in others <==> r in multiset(others);
    if ActiveRate(others, scope).Some? {
      var i :| 0 <= i < |rules| && rules[i] == Rule(scope, ActiveRate(others, scope).value, true);
      ActiveRateIsTheOne(rules, scope, i);
    }
  }

  /** So the commission of an order is one definite rate over every run in which no insertion clashes: it does
    * not depend on the order in which the database happens to return the rules. */
  lemma CommissionIsDefinite(env: Env, w: World, calls: seq<Call>, others: seq<Rule>, station: StationId)
    requires OneRuleEach(w.rules) && NoClash(env, w, calls) && multiset(Run(env, w, calls).rules) == multiset(others)
    ensures CommissionRate(others, station, env.fallbackRate) ==
            CommissionRate(Run(env, w, calls).rules, station, env.fallbackRate)
  {
    hide Execute, Clashes;
    OneRuleOverRuns(env, w, calls);
    ActiveRateIgnoresOrder(Run(env, w, calls).rules, others, Some(station));
    ActiveRateIgnoresOrder(Run(env, w, calls).rules, others, None);
  }
}
