/** Prices, the settlement split and the commission rules. */
module Pricing {
  import opened Prelude
  import opened Domain

  const DELIVERY_FEE := 1000
  const RIDER_SHARE_PERCENT := 70

  function ItemsTotal(items: seq<Item>): (sum: nat) {
    if items == [] then 0 else items[0].unitPrice * items[0].quantity + ItemsTotal(items[1..])
  }

  /** What one item costs. */
  function LineTotal(): Item -> int {
    (i: Item) => i.unitPrice * i.quantity
  }

  /** The subtotal is the sum of the lines. */
  lemma {:induction false} ItemsTotalIsSum(items: seq<Item>)
    ensures ItemsTotal(items) == Total(items, LineTotal())
  {
    if items != [] {
      var n := |items| - 1;
      ItemsTotalSnoc(items[..n], items[n]);
      ItemsTotalIsSum(items[..n]);
      assert items[..n] + [items[n]] == items;
    }
  }

  lemma {:induction false} ItemsTotalSnoc(items: seq<Item>, item: Item)
    ensures ItemsTotal(items + [item]) == ItemsTotal(items) + item.unitPrice * item.quantity
  {
    if items == [] {
      assert (items + [item])[1..] == [];
    } else {
      ItemsTotalSnoc(items[1..], item);
      assert (items + [item])[1..] == items[1..] + [item];
    }
  }

  /** A fifth of the subtotal to the nearest cent for EXPRESS (fifths never tie), else nothing. */
  function Surcharge(subtotal: nat, tier: Tier): nat {
    if tier == Express then (2 * subtotal + 5) / 10 else 0
  }

  /** EXPRESS adds the nearest cent to a fifth of the subtotal, STANDARD nothing. */
  ghost predicate IsSurcharge(cents: int, subtotal: int, tier: Tier) {
    match tier
    case Express => 5 >= 2 * (5 * cents - subtotal) && 2 * (subtotal - 5 * cents) <= 5
    case Standard => cents == 0
  }

  lemma SurchargeIsNearest(subtotal: nat, tier: Tier)
    ensures forall cents :: IsSurcharge(cents, subtotal, tier) <==> cents == Surcharge(subtotal, tier)
  {
  }

  function PriceOf(items: seq<Item>, tier: Tier): nat {
    ItemsTotal(items) + DELIVERY_FEE + Surcharge(ItemsTotal(items), tier)
  }

  /** `cents` is a nearest integer to num/den. */
  ghost predicate Nearest(cents: int, num: int, den: nat) {
    den >= 2 * (cents * den - num) && 2 * (num - cents * den) <= den
  }

  /** `toFixed(2)` on num/den cents; `tieUp` says which way the binary value of an exact tie falls. */
  function ToFixed(num: int, den: nat, tieUp: bool): int
    requires den > 0
  {
    var down := num / den;
    var twice := 2 * (num % den);
    if twice > den || (twice == den && tieUp) then down + 1 else down
  }

  /** Rounding returns exactly the nearest cents, and every nearest cent for some tie rule. */
  lemma ToFixedIsNearest(num: int, den: nat, cents: int)
    requires den > 0
    ensures Nearest(cents, num, den) <==> exists tieUp :: cents == ToFixed(num, den, tieUp)
  {
    var q, r := num / den, num % den;
    assert num == q * den + r;
    var d := cents - q;
    assert cents * den - num == d * den - r;
    if d >= 2 {
      assert (d - 2) * den >= 0;
    } else if d <= -1 {
      assert (d + 1) * den <= 0;
    }
    assert ToFixed(num, den, true) == (if 2 * r >= den then q + 1 else q);
    assert ToFixed(num, den, false) == (if 2 * r > den then q + 1 else q);
  }

  /** The split computed by `settle`. */
  function SplitOf(total: int, deliveryFee: int, rate: int, tieUp: bool): Split {
    var commission := ToFixed(total * rate, 10000, tieUp);
    var rider := ToFixed(deliveryFee * RIDER_SHARE_PERCENT, 100, tieUp);
    Split(commission, total - commission - rider, rider)
  }

  /** The shares sum to the total to the cent; commission and rider share are nearest cents. */
  lemma SplitIsExact(total: int, deliveryFee: int, rate: int, tieUp: bool)
    ensures var s := SplitOf(total, deliveryFee, rate, tieUp);
            && s.commission + s.station + s.rider == total
            && Nearest(s.commission, total * rate, 10000)
            && Nearest(s.rider, deliveryFee * RIDER_SHARE_PERCENT, 100)
  {
    ToFixedIsNearest(total * rate, 10000, ToFixed(total * rate, 10000, tieUp));
    ToFixedIsNearest(deliveryFee * RIDER_SHARE_PERCENT, 100, ToFixed(deliveryFee * RIDER_SHARE_PERCENT, 100, tieUp));
  }

  /** What `calculatePricing` can return: exactly the totals of at least the delivery fee. */
  lemma PricesReachEveryTotal(total: int)
    ensures total >= DELIVERY_FEE <==> exists items, tier :: total == PriceOf(items, tier)
  {
    if total >= DELIVERY_FEE {
      var items := [Item(0, 1, total - DELIVERY_FEE)];
      assert ItemsTotal(items[1..]) == 0;
      assert ItemsTotal(items) == total - DELIVERY_FEE;
      assert PriceOf(items, Standard) == total;
    }
  }

  /** The station's share is never negative, whatever was ordered and however ties fall,
    * exactly for rates up to 30.04%: the 0-100 range of `setCommission` does not guarantee it. */
  lemma StationShareNeverNegative(rate: int)
    requires 0 <= rate
    ensures rate <= 3004 <==>
              forall items, tier, tieUp :: SplitOf(PriceOf(items, tier), DELIVERY_FEE, rate, tieUp).station >= 0
  {
    if rate <= 3004 {
      forall items, tier, tieUp ensures SplitOf(PriceOf(items, tier), DELIVERY_FEE, rate, tieUp).station >= 0 {
        StationShareAtLowRates(PriceOf(items, tier), rate, tieUp);
      }
    } else {
      assert ItemsTotal([]) == 0;
      assert 1000 * rate >= 3005000;
      assert SplitOf(PriceOf([], Standard), DELIVERY_FEE, rate, true).station < 0;
    }
  }

  lemma StationShareAtLowRates(total: int, rate: int, tieUp: bool)
    requires total >= DELIVERY_FEE && 0 <= rate <= 3004
    ensures SplitOf(total, DELIVERY_FEE, rate, tieUp).station >= 0
  {
    SplitIsExact(total, DELIVERY_FEE, rate, tieUp);
    assert total * rate <= total * 3004;
  }

  /** The first active rule of a scope: what `findOne` returns. */
  function ActiveRate(rules: seq<Rule>, scope: Option<StationId>): Option<int> {
    if rules == [] then None
    else if rules[0].active && rules[0].scope == scope then Some(rules[0].rate)
    else ActiveRate(rules[1..], scope)
  }

  /** `getCommissionPercent`: station rule, else platform-wide rule, else configuration. */
  function CommissionRate(rules: seq<Rule>, station: StationId, fallback: int): int {
    match ActiveRate(rules, Some(station))
    case Some(rate) => rate
    case None =>
      match ActiveRate(rules, None)
      case Some(rate) => rate
      case None => fallback
  }

  /** Over the rows: the rate of an active rule of the station if it has one, else of an active platform-wide
    * rule if there is one, else the configured one. */
  ghost predicate IsRate(rules: seq<Rule>, station: StationId, fallback: int, rate: int) {
    if HasActive(rules, Some(station)) then Rule(Some(station), rate, true) in rules
    else if HasActive(rules, None) then Rule(None, rate, true) in rules
    else rate == fallback
  }

  ghost predicate HasActive(rules: seq<Rule>, scope: Option<StationId>) {
    exists i :: 0 <= i < |rules| && rules[i].active && rules[i].scope == scope
  }

  lemma RateByPrecedence(rules: seq<Rule>, station: StationId, fallback: int)
    ensures IsRate(rules, station, fallback, CommissionRate(rules, station, fallback))
  {
    ActiveRateIsARule(rules, Some(station));
    ActiveRateIsARule(rules, None);
  }

  /** The three shares of a total at a rate: they sum to it, and commission and rider share (70% of the fee) are
    * nearest cents. */
  ghost predicate IsSplit(s: Split, total: int, deliveryFee: int, rate: int) {
    && s.commission + s.station + s.rider == total
    && Nearest(s.commission, total * rate, 10000) && Nearest(s.rider, deliveryFee * 70, 100)
  }

  function Deactivate(rules: seq<Rule>, scope: Option<StationId>): (r: seq<Rule>)
    ensures |r| == |rules|
  {
    if rules == [] then []
    else [if rules[0].scope == scope then rules[0].(active := false) else rules[0]] + Deactivate(rules[1..], scope)
  }

  function SetRule(rules: seq<Rule>, rate: int, scope: Option<StationId>): seq<Rule> {
    Deactivate(rules, scope) + [Rule(scope, rate, true)]
  }

  /** The two directions of "first active rule": present means some active rule has that rate. */
  lemma ActiveRateIsARule(rules: seq<Rule>, scope: Option<StationId>)
    ensures ActiveRate(rules, scope).Some? <==> exists r :: r in rules && r.active && r.scope == scope
    ensures ActiveRate(rules, scope).Some? ==> Rule(scope, ActiveRate(rules, scope).value, true) in rules
  {
    if rules != [] {
      ActiveRateIsARule(rules[1..], scope);
      assert forall r :: r in rules <==> r == rules[0] || r in rules[1..];
    }
  }

  lemma {:induction false} ActiveRateAfterSet(rules: seq<Rule>, rate: int, scope: Option<StationId>,
                                              asked: Option<StationId>)
    ensures ActiveRate(SetRule(rules, rate, scope), asked) ==
            (if asked == scope then Some(rate) else ActiveRate(rules, asked))
  {
    var rule := Rule(scope, rate, true);
    if rules == [] {
      assert SetRule(rules, rate, scope) == [rule];
      assert [rule][1..] == [];
    } else {
      ActiveRateAfterSet(rules[1..], rate, scope, asked);
      assert SetRule(rules, rate, scope)[1..] == SetRule(rules[1..], rate, scope);
    }
  }

  /** Setting a rate takes effect at once for its own scope and leaves every station with an
    * override of its own, and every other station's override, as it was. */
  lemma RateAfterSet(rules: seq<Rule>, rate: int, scope: Option<StationId>, station: StationId, fallback: int)
    ensures CommissionRate(SetRule(rules, rate, scope), station, fallback) ==
            (if scope == Some(station) || (scope == None && ActiveRate(rules, Some(station)).None?) then rate
             else CommissionRate(rules, station, fallback))
  {
    ActiveRateAfterSet(rules, rate, scope, Some(station));
    ActiveRateAfterSet(rules, rate, scope, None);
  }

  /** Number of active rules of a scope. */
  function ActiveIn(scope: Option<StationId>): Rule -> int {
    (r: Rule) => if r.active && r.scope == scope then 1 else 0
  }

  /** At most one rule of each scope stays active. */
  lemma OneActiveRulePerScope(rules: seq<Rule>, rate: int, scope: Option<StationId>, asked: Option<StationId>)
    requires Total(rules, ActiveIn(asked)) <= 1
    ensures Total(SetRule(rules, rate, scope), ActiveIn(asked)) <= 1
    ensures asked == scope ==> Total(SetRule(rules, rate, scope), ActiveIn(asked)) == 1
  {
    DeactivateRows(rules, scope);
    if asked == scope {
      TotalZero(Deactivate(rules, scope), ActiveIn(asked));
    } else {
      TotalCongruent(Deactivate(rules, scope), rules, ActiveIn(asked));
    }
    TotalAppend(Deactivate(rules, scope), Rule(scope, rate, true), ActiveIn(asked));
  }

  lemma DeactivateRows(rules: seq<Rule>, scope: Option<StationId>)
    ensures forall i :: 0 <= i < |rules| ==>
      Deactivate(rules, scope)[i] == if rules[i].scope == scope then rules[i].(active := false) else rules[i]
  {
  }
}
