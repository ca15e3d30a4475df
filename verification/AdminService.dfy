/** Commission rules. */
module AdminService {
  import opened Prelude
  import opened Domain
  import opened Pricing
  import opened Tables

  /** The first write: deactivates the active rules of this scope only. */
  method DeactivateScope(db: Database, scope: Option<StationId>)
    modifies db`rules
    ensures db.rules == Deactivate(old(db.rules), scope)
  {
    DeactivateRows(db.rules, scope);
    for i := 0 to |db.rules|
      invariant |db.rules| == |old(db.rules)|
      invariant forall k :: 0 <= k < i ==> db.rules[k] == Deactivate(old(db.rules), scope)[k]
      invariant forall k :: i <= k < |db.rules| ==> db.rules[k] == old(db.rules)[k]
    {
      if db.rules[i].scope == scope && db.rules[i].active {
        db.rules := db.rules[i := db.rules[i].(active := false)];
      }
    }
  }

  /** Deactivates the active rules of this scope, then adds the new one: two writes. */
  method SetCommission(db: Database, rate: int, scope: Option<StationId>) returns (reply: Reply)
    modifies db`rules
    ensures reply.Ok? <==> 0 <= rate <= 10000
    ensures db.rules == if reply.Ok? then SetRule(old(db.rules), rate, scope) else old(db.rules)
    ensures reply.Ok? ==>
              var n := |old(db.rules)|;
              && |db.rules| == n + 1 && db.rules[n] == Rule(scope, rate, true)
              && forall i :: 0 <= i < n ==>
                   db.rules[i] == if old(db.rules)[i].scope == scope then old(db.rules)[i].(active := false)
                                  else old(db.rules)[i]
  {
    DeactivateRows(db.rules, scope);
    if rate < 0 || rate > 10000 { return Refusal(BadRequest); }
    DeactivateScope(db, scope);
    db.rules := db.rules + [Rule(scope, rate, true)];
    return Ok;
  }
}
