/** A bill that depends on the batch size: memory usage across the start of a month, under the seeded rate. */
module MonthStraddler {
  import opened Options
  import opened Tiers
  import opened Rates
  import opened Calendar
  import opened Periods
  import opened Labels
  import opened Rating
  import opened WindowBills
  import opened CivilBills
  import opened CacheExactness

  const METER: string := "vm_memory_gib_seconds"

  /** Twenty units a month are free, the next hundred cost 0.08 each, and all further ones 0.07. */
  const TIERS: seq<Tier> := [Tier(Some(20.0), 0.0), Tier(Some(120.0), 0.08), Tier(None, 0.07)]

  const RATE: Rate := Rate(3, None, "compute_instance", "", METER, 0.0, TIERS, "cumulative", "monthly")

  function SeededPricing(): Pricing {
    Pricing(RateIndex([RATE]), (e: MeteringEntry) => None)
  }

  function MemoryScheme(): Scheme {
    TierScheme("acme", METER, "monthly", TIERS)
  }

  ghost function SeededCharging(): Charging {
    ChargingOf(Civil(), SeededPricing())
  }

  /** Twenty units of the tenant from `start` to `end`. */
  function TwentyUnits(id: int, start: Instant, end: Instant): MeteringEntry {
    MeteringEntry(id, "acme", "compute_instance", "vm", "", METER, 20.0, start, end)
  }

  /** From an hour before to an hour after the start of month `k`. */
  function Across(k: int): MeteringEntry {
    var start := Midnight(MonthStart(k));
    TwentyUnits(1, start - NANOS_PER_HOUR, start + NANOS_PER_HOUR)
  }

  /** The hour after that. */
  function Within(k: int): MeteringEntry {
    var start := Midnight(MonthStart(k));
    TwentyUnits(2, start + NANOS_PER_HOUR, start + 2 * NANOS_PER_HOUR)
  }

  lemma RateMatches(id: int, start: Instant, end: Instant)
    ensures PricedByTiers(SeededPricing(), TwentyUnits(id, start, end), "monthly", TIERS)
  {
    assert [RATE][..0] == [];
    assert RateIndex([RATE]) == map[KeyOf(RATE) := RATE];
  }

  lemma MonthOfInstant(k: int, t: Instant)
    requires MonthWindow(k).Contains(t)
    ensures Resolved("monthly", t) == Some(MonthWindow(k))
  {
    DayWithin(t, MonthStart(k), MonthStart(k + 1));
    MonthUnique(DayOf(t), k);
  }

  lemma BothEndInMonth(k: int)
    ensures Resolved("monthly", Across(k).periodEnd) == Some(MonthWindow(k))
    ensures Resolved("monthly", Within(k).periodEnd) == Some(MonthWindow(k))
  {
    MonthStartNext(k);
    MonthOfInstant(k, Across(k).periodEnd);
    MonthOfInstant(k, Within(k).periodEnd);
  }

  lemma BothFollow(k: int)
    ensures Follows(Civil(), SeededCharging(), Across(k), MemoryScheme())
    ensures Follows(Civil(), SeededCharging(), Within(k), MemoryScheme())
  {
    BothEndInMonth(k);
    RateMatches(1, Across(k).periodStart, Across(k).periodEnd);
    RateMatches(2, Within(k).periodStart, Within(k).periodEnd);
    PricedByTiersFollows(Civil(), SeededPricing(), Across(k), MemoryScheme(), TIERS);
    PricedByTiersFollows(Civil(), SeededPricing(), Within(k), MemoryScheme(), TIERS);
  }

  lemma ChronologicalPair(cal: Billing, f: Charging, x: MeteringEntry, y: MeteringEntry, s: Scheme)
    requires Tiles(cal) && Follows(cal, f, x, s) && Follows(cal, f, y, s)
    requires Proper(cal, x, s) && Proper(cal, y, s) && InTimeOrder(x, y, s) && SameLabelSameWindow(cal, x, y, s)
    ensures Chronological(cal, f, [x, y], s)
  {
    var es := [x, y];
    assert es[0] == x && es[1] == y;
  }

  lemma BothFitTheMonth(k: int)
    ensures SameLabelSameWindow(Civil(), Across(k), Within(k), MemoryScheme())
    ensures Proper(Civil(), Across(k), MemoryScheme()) && Proper(Civil(), Within(k), MemoryScheme())
  {
    BothEndInMonth(k);
    SameWindowSameLabel("monthly", Across(k).periodEnd, Within(k).periodEnd);
  }

  lemma LogIsChronological(k: int)
    ensures Chronological(Civil(), SeededCharging(), [Across(k), Within(k)], MemoryScheme())
    ensures IncreasingIds([Across(k), Within(k)])
  {
    CivilTiles();
    BothFollow(k);
    BothFitTheMonth(k);
    ChronologicalPair(Civil(), SeededCharging(), Across(k), Within(k), MemoryScheme());
  }

  /** The pair is a straddler: the first entry starts before the month in which both end. */
  lemma MonthHasStraddler(k: int)
    ensures HasStraddler(Civil(), [Across(k), Within(k)], MemoryScheme())
  {
    BothEndInMonth(k);
    var log := [Across(k), Within(k)];
    assert StraddlesInto(Civil(), log[0], log[1], MemoryScheme());
  }

  lemma TierCosts()
    ensures TieredCost(TIERS, 0.0) == 0.0 && TieredCost(TIERS, 20.0) == 0.0 && TieredCost(TIERS, 40.0) == 1.6
  {
    var rest := [Tier(Some(120.0), 0.08), Tier(None, 0.07)];
    assert TIERS[1..] == rest;
    assert Waterfall(rest, 20.0, 0.0) == 0.0;
    assert Waterfall(rest[1..], 120.0, 0.0) == 0.0;
    assert Waterfall(rest, 20.0, 20.0) == 0.08 * 20.0 + Waterfall(rest[1..], 120.0, 0.0);
  }

  lemma Usages(k: int)
    ensures var cal, s, x, y, w := Civil(), MemoryScheme(), Across(k), Within(k), MonthWindow(k);
            && WindowUsage(cal, [x, y], 2, s, w) == 40.0
            && WindowUsage(cal, [x], 1, s, w) == 20.0 && WindowUsage(cal, [y], 1, s, w) == 20.0
            && MeteringSum([x, y], 1, s.tenant, s.meter, w) == 0.0
  {
    BothEndInMonth(k);
    var cal, s, x, y, w := Civil(), MemoryScheme(), Across(k), Within(k), MonthWindow(k);
    assert WindowUsage(cal, [x, y], 1, s, w) == 20.0;
    assert WindowUsage(cal, [x], 0, s, w) == 0.0 && WindowUsage(cal, [y], 0, s, w) == 0.0;
    assert !Counted(x, w);
  }

  lemma PairBills(cal: Billing, f: Charging, x: MeteringEntry, y: MeteringEntry, s: Scheme, w: Window)
    requires IncreasingIds([x, y]) && Chronological(cal, f, [x, y], s) && s.bill(0.0) == 0.0
    requires WindowUsage(cal, [x, y], 2, s, w) == 40.0 && MeteringSum([x, y], 1, s.tenant, s.meter, w) == 0.0
    requires WindowUsage(cal, [x], 1, s, w) == 20.0 && WindowUsage(cal, [y], 1, s, w) == 20.0
    ensures BillOf(cal, RateBatch(f, [x, y], [x, y]), s, w) == s.bill(40.0)
    ensures BillOf(cal, RateBatch(f, [x, y], [x]), s, w) == s.bill(20.0)
    ensures BillOf(cal, RateBatch(f, [x, y], [y]), s, w) == s.bill(20.0)
  {
    var whole, one, two := BillDependsOnTheSplit(cal, f, [x, y], s, w, [x], [y]);
  }

  /** At the start of every month: forty units of memory, of which twenty straddle it, are billed 1.6 if both
      entries are rated in one batch, and nothing if they are rated in two. */
  lemma BillAtMonthStart(k: int)
    ensures var cal, f, s, x, y, w := Civil(), SeededCharging(), MemoryScheme(), Across(k), Within(k), MonthWindow(k);
            && BillOf(cal, RateBatch(f, [x, y], [x, y]), s, w) == 1.6
            && BillOf(cal, RateBatch(f, [x, y], [x]), s, w) + BillOf(cal, RateBatch(f, [x, y], [y]), s, w) == 0.0
  {
    LogIsChronological(k);
    TierCosts();
    Usages(k);
    PairBills(Civil(), SeededCharging(), Across(k), Within(k), MemoryScheme(), MonthWindow(k));
  }

  // ----- The end of a month -----

  /** The last hour of month `k`: the interval ends at the very start of the next month. */
  function LastHour(k: int): MeteringEntry {
    var end := Midnight(MonthStart(k + 1));
    TwentyUnits(1, end - NANOS_PER_HOUR, end)
  }

  /** The hour before that, recorded after it. */
  function HourBefore(k: int): MeteringEntry {
    var end := Midnight(MonthStart(k + 1));
    TwentyUnits(2, end - 2 * NANOS_PER_HOUR, end - NANOS_PER_HOUR)
  }

  lemma EndsOfMonth(k: int)
    ensures Resolved("monthly", LastHour(k).periodEnd) == Some(MonthWindow(k + 1)) != Some(MonthWindow(k))
    ensures Resolved("monthly", HourBefore(k).periodEnd) == Some(MonthWindow(k))
    ensures Counted(LastHour(k), MonthWindow(k))
  {
    MonthStartNext(k);
    MonthStartNext(k + 1);
    MonthOfInstant(k + 1, LastHour(k).periodEnd);
    MonthOfInstant(k, HourBefore(k).periodEnd);
  }

  lemma EndUsage(k: int)
    ensures var x, y := LastHour(k), HourBefore(k);
            && WindowUsage(Civil(), [x, y], 2, MemoryScheme(), MonthWindow(k)) == 20.0
            && MeteringSumBefore([x, y], 2, "acme", METER, MonthWindow(k), y.id) == 20.0
  {
    EndsOfMonth(k);
    var x, y, w := LastHour(k), HourBefore(k), MonthWindow(k);
    assert WindowUsage(Civil(), [x, y], 1, MemoryScheme(), w) == 0.0;
    assert MeteringSumBefore([x, y], 1, "acme", METER, w, y.id) == 20.0;
  }

  lemma CostAfter(cal: Billing, f: Charging, e: MeteringEntry, s: Scheme, log: seq<MeteringEntry>, prior: real,
                  w: Window)
    requires Follows(cal, f, e, s) && Under(e, s) && cal.resolve(s.period, e.periodEnd) == Some(w)
    requires MeteringSumBefore(log, |log|, e.tenant, e.meter, w, e.id) == prior
    ensures var c := Price(f(e), e, QueriedPrior(f, log, e));
            c.Some? && c.value.cost == s.bill(prior + e.value) - s.bill(prior)
  {
  }

  /** An interval that ends at the very end of a month is billed to the next month, and yet counts as usage of the month
      for entries recorded after it: of the twenty units used in the month none is free any more. */
  lemma EndOfMonthCountsTwice(k: int, x: MeteringEntry, y: MeteringEntry)
    requires x == LastHour(k) && y == HourBefore(k)
    ensures WindowUsage(Civil(), [x, y], 2, MemoryScheme(), MonthWindow(k)) == 20.0 && TieredCost(TIERS, 20.0) == 0.0
    ensures var c := Price(SeededCharging()(y), y, QueriedPrior(SeededCharging(), [x, y], y));
            c.Some? && c.value.cost == 1.6
  {
    EndsOfMonth(k);
    EndUsage(k);
    TierCosts();
    RateMatches(2, y.periodStart, y.periodEnd);
    PricedByTiersFollows(Civil(), SeededPricing(), y, MemoryScheme(), TIERS);
    CostAfter(Civil(), SeededCharging(), y, MemoryScheme(), [x, y], 20.0, MonthWindow(k));
  }
}
