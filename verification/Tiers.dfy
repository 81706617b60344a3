/** Tiered pricing: the waterfall loop of the rating engine and the schedule it implements.

    Usage and prices are exact reals. */
module Tiers {
  import opened Options

  /** A pricing tier: usage up to `upTo` (absent for an open tier) costs `price` per unit. */
  datatype Tier = Tier(upTo: Option<real>, price: real)

  function Max(x: real, y: real): real {
    if x < y then y else x
  }

  function Min(x: real, y: real): real {
    if x < y then x else y
  }

  // ----- The tier schedule, written as a sum over tiers -----

  /** The part of usage `v` that falls into a tier starting at `lower`. */
  function Covered(tier: Tier, lower: real, v: real): (c: real)
    ensures 0.0 <= c
  {
    match tier.upTo
    case None => Max(0.0, v - lower)
    case Some(up) => Max(0.0, Min(v, up) - lower)
  }

  /** The price of usage `v` under the tiers that start at `lower`: each tier charges for the part of
      `v` that lies between its own bound and the previous one. Tiers after an open tier are void. */
  function Schedule(tiers: seq<Tier>, lower: real, v: real): real {
    if tiers == [] then 0.0
    else match tiers[0].upTo
      case None => tiers[0].price * Covered(tiers[0], lower, v)
      case Some(up) => tiers[0].price * Covered(tiers[0], lower, v) + Schedule(tiers[1..], up, v)
  }

  /** The bounds never decrease, starting from `lower`; what follows an open tier is irrelevant. */
  predicate Ascending(tiers: seq<Tier>, lower: real) {
    tiers == [] ||
    match tiers[0].upTo
    case None => true
    case Some(up) => lower <= up && Ascending(tiers[1..], up)
  }

  /** Some tier is open, so every amount of usage is priced. */
  predicate OpenEnded(tiers: seq<Tier>) {
    exists i :: 0 <= i < |tiers| && tiers[i].upTo.None?
  }

  predicate PricesWithin(tiers: seq<Tier>, lo: real, hi: real) {
    forall i :: 0 <= i < |tiers| ==> lo <= tiers[i].price <= hi
  }

  predicate PricesPositive(tiers: seq<Tier>) {
    forall i :: 0 <= i < |tiers| ==> 0.0 < tiers[i].price
  }

  predicate PricesNonNegative(tiers: seq<Tier>) {
    forall i :: 0 <= i < |tiers| ==> 0.0 <= tiers[i].price
  }

  // ----- The waterfall, as the loop computes it -----

  /** What the loop still adds to the cost when `remaining` usage is left and the last bound was `prev`. */
  function Waterfall(tiers: seq<Tier>, prev: real, remaining: real): real {
    if tiers == [] || remaining <= 0.0 then 0.0
    else match tiers[0].upTo
      case None => tiers[0].price * remaining + Waterfall(tiers[1..], prev, 0.0)
      case Some(up) =>
        var consumed := Min(up - prev, remaining);
        tiers[0].price * consumed + Waterfall(tiers[1..], up, remaining - consumed)
  }

  /** Cost of `value` units under the waterfall. */
  function TieredCost(tiers: seq<Tier>, value: real): real {
    Waterfall(tiers, 0.0, value)
  }

  /** Cost of `value` further units after `prior` units: only the increment is charged. */
  function MarginalCost(tiers: seq<Tier>, value: real, prior: real): real {
    TieredCost(tiers, prior + value) - TieredCost(tiers, prior)
  }

  /** The waterfall loop. On ascending tiers it computes the schedule. */
  method ApplyTieredRate(value: real, tiers: seq<Tier>) returns (cost: real)
    ensures cost == TieredCost(tiers, value)
    ensures Ascending(tiers, 0.0) ==> cost == Schedule(tiers, 0.0, value)
  {
    cost := 0.0;
    var remaining := value;
    var prev := 0.0;
    var i := 0;
    while i < |tiers|
      invariant 0 <= i <= |tiers|
      invariant cost + Waterfall(tiers[i..], prev, remaining) == TieredCost(tiers, value)
    {
      var tier := tiers[i];
      assert tiers[i..][0] == tier && tiers[i..][1..] == tiers[i + 1..];
      if remaining <= 0.0 {
        break;
      }
      var tierSize;
      if tier.upTo.Some? {
        tierSize := tier.upTo.value - prev;
        prev := tier.upTo.value;
      } else {
        tierSize := remaining;
      }
      var consumed := tierSize;
      if consumed > remaining {
        consumed := remaining;
      }
      cost := cost + consumed * tier.price;
      remaining := remaining - consumed;
      i := i + 1;
    }
    if Ascending(tiers, 0.0) {
      WaterfallIsSchedule(tiers, 0.0, value);
    }
  }

  // ----- The waterfall computes the schedule exactly when the bounds ascend -----

  lemma {:induction false} ScheduleBelowLower(tiers: seq<Tier>, lower: real, v: real)
    requires Ascending(tiers, lower) && v <= lower
    ensures Schedule(tiers, lower, v) == 0.0
  {
    if tiers != [] && tiers[0].upTo.Some? {
      ScheduleBelowLower(tiers[1..], tiers[0].upTo.value, v);
    }
  }

  lemma {:induction false} WaterfallIsSchedule(tiers: seq<Tier>, lower: real, v: real)
    requires Ascending(tiers, lower)
    ensures Waterfall(tiers, lower, v - lower) == Schedule(tiers, lower, v)
  {
    if v <= lower {
      ScheduleBelowLower(tiers, lower, v);
    } else if tiers != [] && tiers[0].upTo.Some? {
      var up := tiers[0].upTo.value;
      if v <= up {
        ScheduleBelowLower(tiers[1..], up, v);
      } else {
        WaterfallIsSchedule(tiers[1..], up, v);
      }
    }
  }

  /** Every bound lies below `v`. */
  predicate AboveAllBounds(tiers: seq<Tier>, v: real) {
    forall i :: 0 <= i < |tiers| && tiers[i].upTo.Some? ==> tiers[i].upTo.value < v
  }

  // ----- Shape of the schedule -----

  /** The part of usage `v` each tier covers, up to and including the first open tier. */
  function Shares(tiers: seq<Tier>, lower: real, v: real): (r: seq<real>)
    ensures |r| <= |tiers|
  {
    if tiers == [] then []
    else [Covered(tiers[0], lower, v)] +
         if tiers[0].upTo.Some? then Shares(tiers[1..], tiers[0].upTo.value, v) else []
  }

  /** Each share priced at its tier's price. */
  function Priced(tiers: seq<Tier>, shares: seq<real>): real
    requires |shares| <= |tiers|
  {
    if shares == [] then 0.0 else tiers[0].price * shares[0] + Priced(tiers[1..], shares[1..])
  }

  lemma {:induction false} ScheduleIsPricedShares(tiers: seq<Tier>, lower: real, v: real)
    ensures Schedule(tiers, lower, v) == Priced(tiers, Shares(tiers, lower, v))
  {
    if tiers != [] {
      var shares := Shares(tiers, lower, v);
      if tiers[0].upTo.Some? {
        assert shares[1..] == Shares(tiers[1..], tiers[0].upTo.value, v);
        ScheduleIsPricedShares(tiers[1..], tiers[0].upTo.value, v);
      }
    }
  }

  /** The shares of an open-ended ascending schedule add up to the usage above `lower`. */
  lemma {:induction false} SharesTotal(tiers: seq<Tier>, lower: real, v: real)
    requires Ascending(tiers, lower) && OpenEnded(tiers)
    ensures Sum(Shares(tiers, lower, v)) == Max(0.0, v - lower)
  {
    var shares := Shares(tiers, lower, v);
    if tiers[0].upTo.Some? {
      OpenEndedRest(tiers);
      SharesTotal(tiers[1..], tiers[0].upTo.value, v);
      assert shares[1..] == Shares(tiers[1..], tiers[0].upTo.value, v);
    }
  }

  predicate Pointwise(xs: seq<real>, ys: seq<real>) {
    |xs| == |ys| && forall i :: 0 <= i < |xs| ==> xs[i] <= ys[i]
  }

  lemma {:induction false} SharesMonotone(tiers: seq<Tier>, lower: real, v: real, w: real)
    requires v <= w
    ensures Pointwise(Shares(tiers, lower, v), Shares(tiers, lower, w))
  {
    if tiers != [] && tiers[0].upTo.Some? {
      SharesMonotone(tiers[1..], tiers[0].upTo.value, v, w);
    }
  }

  lemma FloorStep(lo: real, p: real, x: real, y: real, m: real, m': real, d: real, d': real)
    requires lo <= p && x <= y && lo * m' <= d'
    requires m == y - x + m' && d == p * y - p * x + d'
    ensures lo * m <= d
  {
    assert 0.0 <= (p - lo) * (y - x) == p * y - p * x - lo * y + lo * x;
  }

  /** Raising the shares by `m` in all raises their price `d` by at least `lo` per unit. */
  lemma {:induction false} PricedFloor(tiers: seq<Tier>, xs: seq<real>, ys: seq<real>, lo: real, m: real, d: real)
    requires (forall i :: 0 <= i < |tiers| ==> lo <= tiers[i].price) && Pointwise(xs, ys) && |xs| <= |tiers|
    requires m == Sum(ys) - Sum(xs) && d == Priced(tiers, ys) - Priced(tiers, xs)
    ensures lo * m <= d
  {
    if xs == [] {
      assert m == 0.0;
    } else {
      var m' := Sum(ys[1..]) - Sum(xs[1..]);
      var d' := Priced(tiers[1..], ys[1..]) - Priced(tiers[1..], xs[1..]);
      PricedFloor(tiers[1..], xs[1..], ys[1..], lo, m', d');
      FloorStep(lo, tiers[0].price, xs[0], ys[0], m, m', d, d');
    }
  }

  lemma CeilingStep(hi: real, p: real, x: real, y: real, m: real, m': real, d: real, d': real)
    requires p <= hi && x <= y && d' <= hi * m'
    requires m == y - x + m' && d == p * y - p * x + d'
    ensures d <= hi * m
  {
    assert 0.0 <= (hi - p) * (y - x) == hi * y - hi * x - p * y + p * x;
  }

  /** Raising the shares by `m` in all raises their price `d` by at most `hi` per unit. */
  lemma {:induction false} PricedCeiling(tiers: seq<Tier>, xs: seq<real>, ys: seq<real>, hi: real, m: real, d: real)
    requires (forall i :: 0 <= i < |tiers| ==> tiers[i].price <= hi) && Pointwise(xs, ys) && |xs| <= |tiers|
    requires m == Sum(ys) - Sum(xs) && d == Priced(tiers, ys) - Priced(tiers, xs)
    ensures d <= hi * m
  {
    if xs == [] {
      assert m == 0.0;
    } else {
      var m' := Sum(ys[1..]) - Sum(xs[1..]);
      var d' := Priced(tiers[1..], ys[1..]) - Priced(tiers[1..], xs[1..]);
      PricedCeiling(tiers[1..], xs[1..], ys[1..], hi, m', d');
      CeilingStep(hi, tiers[0].price, xs[0], ys[0], m, m', d, d');
    }
  }

  lemma OpenEndedRest(tiers: seq<Tier>)
    requires tiers != [] && tiers[0].upTo.Some?
    ensures OpenEnded(tiers) <==> OpenEnded(tiers[1..])
  {
    if OpenEnded(tiers) {
      var i :| 0 <= i < |tiers| && tiers[i].upTo.None?;
      assert tiers[1..][i - 1] == tiers[i];
    }
  }

  /** More usage never costs less, and an increment never has a negative cost. */
  lemma TieredCostMonotone(tiers: seq<Tier>, v: real, w: real)
    requires Ascending(tiers, 0.0) && PricesNonNegative(tiers) && v <= w
    ensures TieredCost(tiers, v) <= TieredCost(tiers, w)
    ensures 0.0 <= MarginalCost(tiers, w - v, v)
  {
    WaterfallIsSchedule(tiers, 0.0, v);
    WaterfallIsSchedule(tiers, 0.0, w);
    ScheduleIsPricedShares(tiers, 0.0, v);
    ScheduleIsPricedShares(tiers, 0.0, w);
    SharesMonotone(tiers, 0.0, v, w);
    var xs, ys := Shares(tiers, 0.0, v), Shares(tiers, 0.0, w);
    PricedFloor(tiers, xs, ys, 0.0, Sum(ys) - Sum(xs), Priced(tiers, ys) - Priced(tiers, xs));
  }

  /** An increment costs between the lowest and the highest tier price times its size. */
  lemma MarginalCostBounds(tiers: seq<Tier>, value: real, prior: real, lo: real, hi: real)
    requires Ascending(tiers, 0.0) && OpenEnded(tiers) && PricesWithin(tiers, lo, hi)
    requires 0.0 <= prior && 0.0 <= value
    ensures lo * value <= MarginalCost(tiers, value, prior) <= hi * value
  {
    var total := prior + value;
    WaterfallIsSchedule(tiers, 0.0, prior);
    WaterfallIsSchedule(tiers, 0.0, total);
    ScheduleIsPricedShares(tiers, 0.0, prior);
    ScheduleIsPricedShares(tiers, 0.0, total);
    SharesTotal(tiers, 0.0, prior);
    SharesTotal(tiers, 0.0, total);
    SharesMonotone(tiers, 0.0, prior, total);
    var xs, ys := Shares(tiers, 0.0, prior), Shares(tiers, 0.0, total);
    PricedFloor(tiers, xs, ys, lo, value, MarginalCost(tiers, value, prior));
    PricedCeiling(tiers, xs, ys, hi, value, MarginalCost(tiers, value, prior));
  }

  /** Without an open tier the lower bound fails: usage beyond the last bound is free. */
  lemma {:induction false} ScheduleFlatAboveBounds(tiers: seq<Tier>, lower: real, v: real, w: real)
    requires Ascending(tiers, lower) && !OpenEnded(tiers)
    requires AboveAllBounds(tiers, v) && v <= w
    ensures Schedule(tiers, lower, v) == Schedule(tiers, lower, w)
  {
    if tiers != [] {
      assert tiers[0].upTo.Some?;
      OpenEndedRest(tiers);
      ScheduleFlatAboveBounds(tiers[1..], tiers[0].upTo.value, v, w);
    }
  }

  lemma UsageBeyondLastBoundIsFree(tiers: seq<Tier>, value: real, prior: real)
    requires Ascending(tiers, 0.0) && !OpenEnded(tiers)
    requires AboveAllBounds(tiers, prior) && 0.0 <= value
    ensures MarginalCost(tiers, value, prior) == 0.0
  {
    WaterfallIsSchedule(tiers, 0.0, prior);
    WaterfallIsSchedule(tiers, 0.0, prior + value);
    ScheduleFlatAboveBounds(tiers, 0.0, prior, prior + value);
  }

  // ----- The exact condition for prices that are not negative -----

  /** What the loop charges for a tier, with its sign: nothing once usage has reached a bound (`top` is the
      largest bound before the tier), else the distance from the previous bound. */
  function Charged(tier: Tier, lower: real, top: real, v: real): real {
    if v <= top then 0.0
    else match tier.upTo
      case None => v - lower
      case Some(up) => Min(up, v) - lower
  }

  /** What the loop charges for each tier, up to and including the first open one. */
  function Charges(tiers: seq<Tier>, lower: real, top: real, v: real): (r: seq<real>)
    ensures |r| <= |tiers|
  {
    if tiers == [] then []
    else
      [Charged(tiers[0], lower, top, v)] +
      match tiers[0].upTo
      case None => []
      case Some(up) => Charges(tiers[1..], up, Max(top, up), v)
  }

  lemma {:induction false} NothingLeftToCharge(tiers: seq<Tier>, lower: real, top: real, v: real)
    requires v <= top
    ensures Priced(tiers, Charges(tiers, lower, top, v)) == 0.0
  {
    if tiers != [] && tiers[0].upTo.Some? {
      NothingLeftToCharge(tiers[1..], tiers[0].upTo.value, Max(top, tiers[0].upTo.value), v);
    }
  }

  lemma {:induction false} WaterfallIsPricedCharges(tiers: seq<Tier>, lower: real, top: real, v: real)
    requires lower <= top < v
    ensures Waterfall(tiers, lower, v - lower) == Priced(tiers, Charges(tiers, lower, top, v))
  {
    if tiers != [] && tiers[0].upTo.Some? {
      var up := tiers[0].upTo.value;
      if up < v {
        WaterfallIsPricedCharges(tiers[1..], up, Max(top, up), v);
      } else {
        NothingLeftToCharge(tiers[1..], up, Max(top, up), v);
      }
    }
  }

  lemma TieredCostIsPricedCharges(tiers: seq<Tier>, v: real)
    ensures TieredCost(tiers, v) == Priced(tiers, Charges(tiers, 0.0, 0.0, v))
  {
    if v <= 0.0 {
      NothingLeftToCharge(tiers, 0.0, 0.0, v);
    } else {
      WaterfallIsPricedCharges(tiers, 0.0, 0.0, v);
    }
  }

  /** On this tier the loop charges what the tier covers: the bound does not lie below the previous one, and
      usage below a larger bound before it is not covered again. */
  predicate TierExact(tier: Tier, lower: real, top: real) {
    match tier.upTo
    case None => top <= lower
    case Some(up) => lower <= up && (top <= lower || up == lower)
  }

  /** Every tier that costs something is exact. */
  predicate LoopExact(tiers: seq<Tier>, lower: real, top: real) {
    tiers == [] ||
    ((tiers[0].price > 0.0 ==> TierExact(tiers[0], lower, top)) &&
     match tiers[0].upTo
     case None => true
     case Some(up) => LoopExact(tiers[1..], up, Max(top, up)))
  }

  /** A tier is never charged more than it covers, and exactly that if it is exact. */
  lemma ChargedBelowCovered(tier: Tier, lower: real, top: real, v: real)
    requires lower <= top
    ensures Charged(tier, lower, top, v) <= Covered(tier, lower, v)
    ensures TierExact(tier, lower, top) ==> Charged(tier, lower, top, v) == Covered(tier, lower, v)
  {
  }

  /** If a tier is not exact, some usage is charged less than the tier covers. */
  lemma InexactUsage(tier: Tier, lower: real, top: real) returns (v: real)
    requires lower <= top && !TierExact(tier, lower, top)
    ensures Charged(tier, lower, top, v) < Covered(tier, lower, v)
  {
    v := if tier.upTo.Some? && tier.upTo.value < lower then top + 1.0 else top;
  }

  /** The amounts agree on every tier that costs something. */
  predicate AgreeWherePriced(tiers: seq<Tier>, xs: seq<real>, ys: seq<real>)
    requires |xs| == |ys| <= |tiers|
  {
    xs == [] || ((tiers[0].price > 0.0 ==> xs[0] == ys[0]) && AgreeWherePriced(tiers[1..], xs[1..], ys[1..]))
  }

  /** One tier more: `p` its price, `x` and `y` its amounts, `c` and `s` the sums without it. */
  lemma PriceStep(p: real, x: real, y: real, c: real, s: real)
    requires 0.0 <= p && x <= y && c <= s
    ensures p * x + c <= p * y + s
    ensures p * x + c == p * y + s <==> (0.0 < p ==> x == y) && c == s
  {
    assert p * (y - x) == p * y - p * x;
    if 0.0 < p && x < y {
      PositiveProduct(p, y - x);
    } else {
      assert p == 0.0 || x == y;
    }
  }

  lemma PositiveProduct(p: real, x: real)
    requires 0.0 < p && 0.0 < x
    ensures 0.0 < p * x
  {
  }

  lemma {:induction false} PricedEqualIffAgree(tiers: seq<Tier>, xs: seq<real>, ys: seq<real>)
    requires PricesNonNegative(tiers) && Pointwise(xs, ys) && |xs| <= |tiers|
    ensures Priced(tiers, xs) <= Priced(tiers, ys)
    ensures Priced(tiers, xs) == Priced(tiers, ys) <==> AgreeWherePriced(tiers, xs, ys)
  {
    if xs != [] {
      PricedEqualIffAgree(tiers[1..], xs[1..], ys[1..]);
      PriceStep(tiers[0].price, xs[0], ys[0], Priced(tiers[1..], xs[1..]), Priced(tiers[1..], ys[1..]));
    }
  }

  lemma {:induction false} ChargesBelowShares(tiers: seq<Tier>, lower: real, top: real, v: real)
    requires lower <= top
    ensures Pointwise(Charges(tiers, lower, top, v), Shares(tiers, lower, v))
    ensures LoopExact(tiers, lower, top) ==>
              AgreeWherePriced(tiers, Charges(tiers, lower, top, v), Shares(tiers, lower, v))
  {
    if tiers != [] {
      ChargedBelowCovered(tiers[0], lower, top, v);
      if tiers[0].upTo.Some? {
        ChargesBelowShares(tiers[1..], tiers[0].upTo.value, Max(top, tiers[0].upTo.value), v);
      }
    }
  }

  lemma {:induction false} UnderchargedUsage(tiers: seq<Tier>, lower: real, top: real) returns (v: real)
    requires lower <= top && !LoopExact(tiers, lower, top)
    ensures |Charges(tiers, lower, top, v)| == |Shares(tiers, lower, v)|
    ensures !AgreeWherePriced(tiers, Charges(tiers, lower, top, v), Shares(tiers, lower, v))
  {
    var tier := tiers[0];
    if tier.price > 0.0 && !TierExact(tier, lower, top) {
      v := InexactUsage(tier, lower, top);
    } else {
      v := UnderchargedUsage(tiers[1..], tier.upTo.value, Max(top, tier.upTo.value));
    }
    ChargesBelowShares(tiers, lower, top, v);
  }

  lemma CostEqualIffAgree(tiers: seq<Tier>, v: real)
    requires PricesNonNegative(tiers)
    ensures |Charges(tiers, 0.0, 0.0, v)| == |Shares(tiers, 0.0, v)|
    ensures TieredCost(tiers, v) == Schedule(tiers, 0.0, v) <==>
            AgreeWherePriced(tiers, Charges(tiers, 0.0, 0.0, v), Shares(tiers, 0.0, v))
  {
    TieredCostIsPricedCharges(tiers, v);
    ScheduleIsPricedShares(tiers, 0.0, v);
    ChargesBelowShares(tiers, 0.0, 0.0, v);
    PricedEqualIffAgree(tiers, Charges(tiers, 0.0, 0.0, v), Shares(tiers, 0.0, v));
  }

  /** With prices that are not negative, free tiers included, the loop agrees with the schedule on every usage if
      and only if every tier that costs something does not end below its start and does not start below an
      earlier bound, unless it is empty. */
  lemma WaterfallIsScheduleIff(tiers: seq<Tier>)
    requires PricesNonNegative(tiers)
    ensures (forall v: real :: TieredCost(tiers, v) == Schedule(tiers, 0.0, v)) <==> LoopExact(tiers, 0.0, 0.0)
  {
    if LoopExact(tiers, 0.0, 0.0) {
      forall v: real ensures TieredCost(tiers, v) == Schedule(tiers, 0.0, v) {
        ChargesBelowShares(tiers, 0.0, 0.0, v);
        CostEqualIffAgree(tiers, v);
      }
    } else {
      var v := UnderchargedUsage(tiers, 0.0, 0.0);
      CostEqualIffAgree(tiers, v);
      assert TieredCost(tiers, v) != Schedule(tiers, 0.0, v);
    }
  }

  lemma {:induction false} ExactIffAscending(tiers: seq<Tier>, lower: real)
    requires PricesPositive(tiers)
    ensures LoopExact(tiers, lower, lower) <==> Ascending(tiers, lower)
  {
    if tiers != [] && tiers[0].upTo.Some? {
      assert tiers[0].price > 0.0;
      if lower <= tiers[0].upTo.value {
        ExactIffAscending(tiers[1..], tiers[0].upTo.value);
      }
    } else if tiers != [] {
      assert tiers[0].price > 0.0;
    }
  }

  /** With positive prices that is: if and only if no bound lies below the one before it. */
  lemma WaterfallIsScheduleIffAscending(tiers: seq<Tier>)
    requires PricesPositive(tiers)
    ensures (forall v: real :: TieredCost(tiers, v) == Schedule(tiers, 0.0, v)) <==> Ascending(tiers, 0.0)
  {
    WaterfallIsScheduleIff(tiers);
    ExactIffAscending(tiers, 0.0);
  }

  /** With a free tier the bounds need not ascend: ten units at one each, then a free tier up to five. */
  lemma FreeDescendingTierIsExact(tiers: seq<Tier>)
    requires tiers == [Tier(Some(10.0), 1.0), Tier(Some(5.0), 0.0)]
    ensures !Ascending(tiers, 0.0) && forall v: real :: TieredCost(tiers, v) == Schedule(tiers, 0.0, v)
  {
    assert tiers[1..] == [Tier(Some(5.0), 0.0)] && tiers[1..][1..] == [];
    assert !Ascending(tiers[1..], 10.0);
    assert LoopExact(tiers[1..], 10.0, 10.0);
    WaterfallIsScheduleIff(tiers);
  }

  // ----- Splitting usage -----

  function Sum(values: seq<real>): real {
    if values == [] then 0.0 else values[0] + Sum(values[1..])
  }

  /** Total of the marginal costs when usage arrives in parts. */
  function SplitCost(tiers: seq<Tier>, parts: seq<real>, prior: real): real {
    if parts == [] then 0.0
    else MarginalCost(tiers, parts[0], prior) + SplitCost(tiers, parts[1..], prior + parts[0])
  }

  /** However usage is split, the marginal costs add up to the marginal cost of the total. */
  lemma {:induction false} SplitCostIsTotal(tiers: seq<Tier>, parts: seq<real>, prior: real)
    ensures SplitCost(tiers, parts, prior) == MarginalCost(tiers, Sum(parts), prior)
  {
    if parts != [] {
      SplitCostIsTotal(tiers, parts[1..], prior + parts[0]);
      assert prior + parts[0] + Sum(parts[1..]) == prior + Sum(parts);
    }
  }
}
