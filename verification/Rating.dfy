/** The rating step: how unrated metering entries become cost entries.

    One step prices a batch of entries and keeps the usage already seen in each window in a cache that
    lives for that batch. The billing calendar, the rate index and the rule engine are parameters. */
module Rating {
  import opened Options
  import opened Tiers
  import opened Rates
  import opened Periods
  import Calendar

  type Instant = Calendar.Instant

  datatype MeteringEntry = MeteringEntry(
    id: int,
    tenant: string,
    resourceType: string,
    resourceId: string,
    instanceType: string,
    meter: string,
    value: real,
    periodStart: Instant,
    periodEnd: Instant)

  datatype CostEntry = CostEntry(
    meteringId: int,
    rateId: int,
    tenant: string,
    resourceType: string,
    resourceId: string,
    meter: string,
    value: real,
    cost: real,
    periodStart: Instant,
    periodEnd: Instant)

  /** The billing calendar: the window of a period string that contains an instant, and its label. */
  datatype Billing = Billing(resolve: (string, Instant) -> Option<Window>, labelOf: (string, Instant) -> string)

  /** What a sweep reads before it rates: the rate index and the rule engine, an arbitrary partial function. */
  datatype Pricing = Pricing(idx: map<RateKey, Rate>, rule: MeteringEntry -> Option<real>)

  /** Key of the prior-usage cache. */
  datatype AccumKey = AccumKey(tenant: string, meter: string, window: string)

  /** How an entry is priced: at a cost of its own, not at all, or by what it adds to the bill for the
      usage of its window. */
  datatype Charge =
    | Alone(rateId: int, cost: real)
    | Unpriced
    | Cumulative(rateId: int, bill: real -> real, period: string, window: Window, key: AccumKey)

  /** How every entry is priced during one sweep. */
  type Charging = MeteringEntry -> Charge

  /** The rule engine is asked about VM uptime only. */
  function TryRule(p: Pricing, e: MeteringEntry): Option<real> {
    if e.resourceType != "compute_instance" || e.meter != "vm_uptime_seconds" then None else p.rule(e)
  }

  function QueryOf(e: MeteringEntry): RateQuery {
    RateQuery(e.tenant, e.instanceType, e.resourceType, e.meter)
  }

  function PeriodOf(r: Rate): string {
    if r.tierPeriod == "" then "monthly" else r.tierPeriod
  }

  /** Rule first, then rate; cumulative tiers need a valid period, else the entry is priced on its own. */
  function Classify(cal: Billing, p: Pricing, e: MeteringEntry): Charge {
    match TryRule(p, e)
    case Some(cost) => Alone(0, cost)
    case None =>
      match MatchRate(p.idx, QueryOf(e))
      case None => Unpriced
      case Some(rate) =>
        if |rate.tiers| > 0 && rate.tierMode == "cumulative" then
          match cal.resolve(PeriodOf(rate), e.periodEnd)
          case None => Alone(rate.id, ApplyRate(e.value, rate))
          case Some(w) =>
            Cumulative(rate.id, u => TieredCost(rate.tiers, u), PeriodOf(rate), w,
                       AccumKey(e.tenant, e.meter, cal.labelOf(PeriodOf(rate), e.periodEnd)))
        else Alone(rate.id, ApplyRate(e.value, rate))
  }

  /** The charging of a sweep. */
  function ChargingOf(cal: Billing, p: Pricing): Charging {
    e => Classify(cal, p, e)
  }

  function MakeCost(e: MeteringEntry, rateId: int, cost: real): CostEntry {
    CostEntry(e.id, rateId, e.tenant, e.resourceType, e.resourceId, e.meter, e.value, cost, e.periodStart, e.periodEnd)
  }

  /** The cost entry of `e`, given the usage before it in its window. */
  function Price(charge: Charge, e: MeteringEntry, prior: real): Option<CostEntry> {
    match charge
    case Alone(rateId, cost) => Some(MakeCost(e, rateId, cost))
    case Unpriced => None
    case Cumulative(rateId, bill, _, _, _) => Some(MakeCost(e, rateId, bill(prior + e.value) - bill(prior)))
  }

  /** A cumulative charge prices the entry as the rate it came from does. */
  lemma CumulativePrice(cal: Billing, p: Pricing, e: MeteringEntry, prior: real)
    requires Classify(cal, p, e).Cumulative?
    ensures exists rate :: MatchRate(p.idx, QueryOf(e)) == Some(rate) &&
              Price(Classify(cal, p, e), e, prior) ==
                Some(MakeCost(e, rate.id, ApplyRateCumulative(e.value, prior, rate)))
  {
  }

  // ----- Usage queries -----

  predicate Of(e: MeteringEntry, tenant: string, meter: string) {
    e.tenant == tenant && e.meter == meter
  }

  /** The time filter of the usage queries: the whole metering period lies in the window, its end included. */
  predicate Counted(e: MeteringEntry, w: Window) {
    w.start <= e.periodStart && e.periodEnd <= w.end
  }

  /** Usage of a tenant and meter that the queries count into a window, over the first `n` entries. */
  function MeteringSum(log: seq<MeteringEntry>, n: int, tenant: string, meter: string, w: Window): real
    requires 0 <= n <= |log|
    decreases n
  {
    if n == 0 then 0.0
    else
      var e := log[n - 1];
      MeteringSum(log, n - 1, tenant, meter, w) + (if Of(e, tenant, meter) && Counted(e, w) then e.value else 0.0)
  }

  /** The same, for entries with a smaller id only. */
  function MeteringSumBefore(log: seq<MeteringEntry>, n: int, tenant: string, meter: string, w: Window, id: int): real
    requires 0 <= n <= |log|
    decreases n
  {
    if n == 0 then 0.0
    else
      var e := log[n - 1];
      MeteringSumBefore(log, n - 1, tenant, meter, w, id) +
      (if Of(e, tenant, meter) && Counted(e, w) && e.id < id then e.value else 0.0)
  }

  predicate Earlier(x: MeteringEntry, y: MeteringEntry) {
    x.id < y.id
  }

  predicate IncreasingIds(log: seq<MeteringEntry>) {
    forall i, j {:trigger Earlier(log[i], log[j])} :: 0 <= i < j < |log| ==> Earlier(log[i], log[j])
  }

  lemma IncreasingIdsOfPrefix(log: seq<MeteringEntry>, more: seq<MeteringEntry>)
    requires IncreasingIds(more) && log <= more
    ensures IncreasingIds(log)
  {
    forall i, j | 0 <= i < j < |log| ensures Earlier(log[i], log[j]) {
      assert Earlier(more[i], more[j]);
    }
  }

  /** With increasing ids, the query before entry `i` sums the log up to position `i`. */
  lemma {:induction false} SumBeforeIsPrefixSum(log: seq<MeteringEntry>, n: int, tenant: string, meter: string,
                                                w: Window, i: int)
    requires IncreasingIds(log) && 0 <= i < |log| && 0 <= n <= |log|
    ensures MeteringSumBefore(log, n, tenant, meter, w, log[i].id) ==
            MeteringSum(log, if n <= i then n else i, tenant, meter, w)
    decreases n
  {
    if 0 < n {
      SumBeforeIsPrefixSum(log, n - 1, tenant, meter, w, i);
      if n - 1 < i {
        assert Earlier(log[n - 1], log[i]);
      } else if i < n - 1 {
        assert Earlier(log[i], log[n - 1]);
      }
    }
  }

  /** Entries that arrive while a batch is rated have larger ids and do not change its queries. */
  lemma {:induction false} LaterArrivalsAreInvisible(log: seq<MeteringEntry>, more: seq<MeteringEntry>, n: int,
                                                     tenant: string, meter: string, w: Window, id: int)
    requires |log| <= n <= |more| && log <= more
    requires forall i :: |log| <= i < |more| ==> id <= more[i].id
    ensures MeteringSumBefore(more, n, tenant, meter, w, id) == MeteringSumBefore(log, |log|, tenant, meter, w, id)
    decreases n
  {
    if |log| < n {
      LaterArrivalsAreInvisible(log, more, n - 1, tenant, meter, w, id);
    } else {
      SumBeforeOfPrefix(log, more, n, tenant, meter, w, id);
    }
  }

  lemma {:induction false} SumBeforeOfPrefix(log: seq<MeteringEntry>, more: seq<MeteringEntry>, n: int,
                                             tenant: string, meter: string, w: Window, id: int)
    requires 0 <= n <= |log| && log <= more
    ensures MeteringSumBefore(more, n, tenant, meter, w, id) == MeteringSumBefore(log, n, tenant, meter, w, id)
    decreases n
  {
    if 0 < n {
      SumBeforeOfPrefix(log, more, n - 1, tenant, meter, w, id);
    }
  }

  // ----- One batch -----

  type Cache = map<AccumKey, real>

  /** The usage before `e` in its window, as the query gives it. */
  function QueriedPrior(f: Charging, log: seq<MeteringEntry>, e: MeteringEntry): real {
    match f(e)
    case Cumulative(_, _, _, w, _) => MeteringSumBefore(log, |log|, e.tenant, e.meter, w, e.id)
    case _ => 0.0
  }

  /** The usage before `e` that the batch loop works with: cached, or queried on a miss. */
  function UsedPrior(f: Charging, log: seq<MeteringEntry>, cache: Cache, e: MeteringEntry): real {
    match f(e)
    case Cumulative(_, _, _, _, key) => if key in cache then cache[key] else QueriedPrior(f, log, e)
    case _ => 0.0
  }

  function NextCache(f: Charging, log: seq<MeteringEntry>, cache: Cache, e: MeteringEntry): Cache {
    match f(e)
    case Cumulative(_, _, _, _, key) => cache[key := UsedPrior(f, log, cache, e) + e.value]
    case _ => cache
  }

  /** The cache after the first `j` entries of a batch. */
  function CacheAfter(f: Charging, log: seq<MeteringEntry>, es: seq<MeteringEntry>, j: int): Cache
    requires 0 <= j <= |es|
    decreases j
  {
    if j == 0 then map[] else NextCache(f, log, CacheAfter(f, log, es, j - 1), es[j - 1])
  }

  /** The prior usage the batch loop uses for entry `j`. */
  function PriorAt(f: Charging, log: seq<MeteringEntry>, es: seq<MeteringEntry>, j: int): real
    requires 0 <= j < |es|
  {
    UsedPrior(f, log, CacheAfter(f, log, es, j), es[j])
  }

  function AsSeq<T>(o: Option<T>): seq<T> {
    match o
    case Some(x) => [x]
    case None => []
  }

  /** The cost entries of the first `j` entries of a batch, in order; entries without a rate have none. */
  function BatchCosts(f: Charging, log: seq<MeteringEntry>, es: seq<MeteringEntry>, j: int): seq<CostEntry>
    requires 0 <= j <= |es|
    decreases j
  {
    if j == 0 then []
    else BatchCosts(f, log, es, j - 1) + AsSeq(Price(f(es[j - 1]), es[j - 1], PriorAt(f, log, es, j - 1)))
  }

  function RateBatch(f: Charging, log: seq<MeteringEntry>, es: seq<MeteringEntry>): seq<CostEntry> {
    BatchCosts(f, log, es, |es|)
  }

  /** The body of the batch loop: rate one entry and move the cache on. */
  method RateEntry(f: Charging, log: seq<MeteringEntry>, cache: Cache, me: MeteringEntry)
    returns (ce: Option<CostEntry>, next: Cache)
    ensures ce == Price(f(me), me, UsedPrior(f, log, cache, me))
    ensures next == NextCache(f, log, cache, me)
  {
    next := cache;
    match f(me) {
      case Alone(rateId, cost) =>
        ce := Some(MakeCost(me, rateId, cost));
      case Unpriced =>
        ce := None;
      case Cumulative(rateId, bill, period, window, key) =>
        var prior;
        if key in cache {
          prior := cache[key];
        } else {
          prior := MeteringSumBefore(log, |log|, me.tenant, me.meter, window, me.id);
        }
        ce := Some(MakeCost(me, rateId, bill(prior + me.value) - bill(prior)));
        next := cache[key := prior + me.value];
    }
  }

  /** The batch loop of a sweep. */
  method RateEntries(f: Charging, log: seq<MeteringEntry>, entries: seq<MeteringEntry>)
    returns (costs: seq<CostEntry>, ratedIds: seq<int>)
    ensures costs == RateBatch(f, log, entries)
    ensures |ratedIds| == |entries| && forall i :: 0 <= i < |entries| ==> ratedIds[i] == entries[i].id
  {
    var cache: Cache := map[];
    costs, ratedIds := [], [];
    for i := 0 to |entries|
      invariant cache == CacheAfter(f, log, entries, i)
      invariant costs == BatchCosts(f, log, entries, i)
      invariant |ratedIds| == i && forall j :: 0 <= j < i ==> ratedIds[j] == entries[j].id
    {
      var ce;
      ce, cache := RateEntry(f, log, cache, entries[i]);
      if ce.Some? {
        costs := costs + [ce.value];
      }
      ratedIds := ratedIds + [entries[i].id];
    }
  }

  // ----- The cache refines the query -----

  /** Whether `y`, rated after `x`, treats `x` the same way through the cache and through the query: the
      cache carries `x` exactly when the query counts it, or `x` adds nothing anyway. */
  predicate CoherentPair(f: Charging, x: MeteringEntry, y: MeteringEntry) {
    var cx, cy := f(x), f(y);
    cy.Cumulative? ==>
      && (x.value == 0.0 || ((cx.Cumulative? && cx.key == cy.key) <==> Counted(x, cy.window)))
      && (cx.Cumulative? && cx.key == cy.key ==> cx.window == cy.window)
  }

  /** Cache keys name the tenant and meter of their entry. */
  predicate OwnKey(f: Charging, e: MeteringEntry) {
    f(e).Cumulative? ==> f(e).key.tenant == e.tenant && f(e).key.meter == e.meter
  }

  predicate Coherent(f: Charging, es: seq<MeteringEntry>, tenant: string, meter: string) {
    && (forall i {:trigger OwnKey(f, es[i])} :: 0 <= i < |es| ==> OwnKey(f, es[i]))
    && (forall i, j {:trigger CoherentPair(f, es[i], es[j])} ::
          0 <= i < j < |es| && Of(es[i], tenant, meter) && Of(es[j], tenant, meter) ==> CoherentPair(f, es[i], es[j]))
  }

  /** The batch is the stretch of the log from position `k`. */
  predicate IsStretch(log: seq<MeteringEntry>, k: int, es: seq<MeteringEntry>) {
    0 <= k <= k + |es| <= |log| && forall j {:trigger es[j]} :: 0 <= j < |es| ==> es[j] == log[k + j]
  }

  lemma CoherentOfStretch(f: Charging, log: seq<MeteringEntry>, k: int, es: seq<MeteringEntry>, tenant: string,
                          meter: string)
    requires Coherent(f, log, tenant, meter) && IsStretch(log, k, es)
    ensures Coherent(f, es, tenant, meter)
  {
    forall i | 0 <= i < |es| ensures OwnKey(f, es[i]) {
      assert OwnKey(f, log[k + i]);
    }
    forall i, j | 0 <= i < j < |es| && Of(es[i], tenant, meter) && Of(es[j], tenant, meter)
      ensures CoherentPair(f, es[i], es[j])
    {
      assert es[i] == log[k + i] && es[j] == log[k + j] && CoherentPair(f, log[k + i], log[k + j]);
    }
  }

  /** If entry `y` has a cached prior, it is the sum that `y` would query over the first `i` entries. */
  predicate CachedFor(f: Charging, log: seq<MeteringEntry>, tenant: string, meter: string, cache: Cache, i: int,
                      y: MeteringEntry)
    requires 0 <= i <= |log|
  {
    f(y).Cumulative? && f(y).key in cache ==> cache[f(y).key] == MeteringSum(log, i, tenant, meter, f(y).window)
  }

  /** After `j` entries of the batch, every cached value is the prefix sum that the entries of the batch still to
      come would query. */
  predicate CacheHolds(f: Charging, log: seq<MeteringEntry>, tenant: string, meter: string, cache: Cache,
                       k: int, es: seq<MeteringEntry>, j: int)
    requires IsStretch(log, k, es) && 0 <= j <= |es|
  {
    forall m {:trigger CachedFor(f, log, tenant, meter, cache, k + j, es[m])} ::
      j <= m < |es| && Of(es[m], tenant, meter) ==> CachedFor(f, log, tenant, meter, cache, k + j, es[m])
  }

  lemma UsedPriorIsPrefixSum(f: Charging, log: seq<MeteringEntry>, tenant: string, meter: string, cache: Cache, i: int)
    requires IncreasingIds(log) && 0 <= i < |log| && CachedFor(f, log, tenant, meter, cache, i, log[i])
    requires Of(log[i], tenant, meter) && f(log[i]).Cumulative?
    ensures UsedPrior(f, log, cache, log[i]) == QueriedPrior(f, log, log[i])
    ensures QueriedPrior(f, log, log[i]) == MeteringSum(log, i, tenant, meter, f(log[i]).window)
  {
    SumBeforeIsPrefixSum(log, |log|, tenant, meter, f(log[i]).window, i);
  }

  /** One entry of the batch moves the cached value of a later one `y` on with the sum it stands for. */
  lemma CachedForStep(f: Charging, log: seq<MeteringEntry>, tenant: string, meter: string, cache: Cache, i: int,
                      y: MeteringEntry)
    requires IncreasingIds(log) && 0 <= i < |log| && OwnKey(f, log[i]) && OwnKey(f, y) && Of(y, tenant, meter)
    requires Of(log[i], tenant, meter) ==>
      CachedFor(f, log, tenant, meter, cache, i, log[i]) && CoherentPair(f, log[i], y)
    requires CachedFor(f, log, tenant, meter, cache, i, y)
    ensures CachedFor(f, log, tenant, meter, NextCache(f, log, cache, log[i]), i + 1, y)
  {
    if Of(log[i], tenant, meter) && f(log[i]).Cumulative? {
      UsedPriorIsPrefixSum(f, log, tenant, meter, cache, i);
    }
  }

  lemma CacheStep(f: Charging, log: seq<MeteringEntry>, tenant: string, meter: string, cache: Cache,
                  k: int, es: seq<MeteringEntry>, j: int)
    requires IncreasingIds(log) && IsStretch(log, k, es) && Coherent(f, es, tenant, meter)
    requires 0 <= j < |es| && CacheHolds(f, log, tenant, meter, cache, k, es, j)
    ensures CacheHolds(f, log, tenant, meter, NextCache(f, log, cache, es[j]), k, es, j + 1)
  {
    var i, next, after := k + j, NextCache(f, log, cache, es[j]), k + j + 1;
    forall m | j + 1 <= m < |es| && Of(es[m], tenant, meter)
      ensures CachedFor(f, log, tenant, meter, next, after, es[m])
    {
      assert OwnKey(f, es[j]) && OwnKey(f, es[m]) && CachedFor(f, log, tenant, meter, cache, i, es[m]);
      if Of(es[j], tenant, meter) {
        assert CoherentPair(f, es[j], es[m]) && CachedFor(f, log, tenant, meter, cache, i, es[j]);
      }
      CachedForStep(f, log, tenant, meter, cache, i, es[m]);
    }
    assert after == k + (j + 1);
  }

  lemma {:induction false} CacheHoldsAlong(f: Charging, log: seq<MeteringEntry>, tenant: string, meter: string,
                                           k: int, es: seq<MeteringEntry>, j: int)
    requires IncreasingIds(log) && IsStretch(log, k, es) && Coherent(f, es, tenant, meter) && 0 <= j <= |es|
    ensures CacheHolds(f, log, tenant, meter, CacheAfter(f, log, es, j), k, es, j)
    decreases j
  {
    if 0 < j {
      CacheHoldsAlong(f, log, tenant, meter, k, es, j - 1);
      CacheStep(f, log, tenant, meter, CacheAfter(f, log, es, j - 1), k, es, j - 1);
    }
  }

  /** At every entry of a batch the prior taken from the cache is the prior the query would return. */
  lemma CacheRefinesQuery(f: Charging, log: seq<MeteringEntry>, tenant: string, meter: string,
                          k: int, es: seq<MeteringEntry>, j: int)
    requires IncreasingIds(log) && IsStretch(log, k, es) && Coherent(f, es, tenant, meter)
    requires 0 <= j < |es| && Of(es[j], tenant, meter) && f(es[j]).Cumulative?
    ensures PriorAt(f, log, es, j) == QueriedPrior(f, log, es[j])
    ensures PriorAt(f, log, es, j) == MeteringSum(log, k + j, tenant, meter, f(es[j]).window)
  {
    CacheHoldsAlong(f, log, tenant, meter, k, es, j);
    assert es[j] == log[k + j] && CachedFor(f, log, tenant, meter, CacheAfter(f, log, es, j), k + j, es[j]);
    UsedPriorIsPrefixSum(f, log, tenant, meter, CacheAfter(f, log, es, j), k + j);
  }
}
