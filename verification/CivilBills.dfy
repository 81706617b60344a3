/** The window bill under the civil calendar and the tiers of a rate. */
module CivilBills {
  import opened Options
  import opened Tiers
  import opened Rates
  import opened Periods
  import opened Labels
  import opened Rating
  import opened RatingRuns
  import opened WindowBills

  ghost function Resolved(period: string, ref: Instant): Option<Window> {
    match ResolvePeriod(period, ref)
    case Ok(w) => Some(w)
    case Err(_) => None
  }

  /** The calendar the rating engine bills by. */
  ghost function Civil(): Billing {
    Billing((period: string, ref: Instant) => Resolved(period, ref),
            (period: string, ref: Instant) => PeriodLabel(period, ref))
  }

  lemma CivilWindowIsProper(period: string, t: Instant)
    ensures ProperWindow(Civil(), period, t)
  {
    if Resolved(period, t).Some? {
      WindowsTileTime(period, t, Resolved(period, t).value);
    }
  }

  lemma CivilTiles()
    ensures Tiles(Civil())
  {
    forall p: string, t: Instant ensures ProperWindow(Civil(), p, t) {
      CivilWindowIsProper(p, t);
    }
  }

  /** If `e` belongs to the meter, its window lies in years of four digits. */
  ghost predicate FourDigitYears(e: MeteringEntry, s: Scheme) {
    Under(e, s) ==> var r := Resolved(s.period, e.periodEnd); r.Some? && FourDigit(r.value)
  }

  /** If both belong to the meter, they are not in different weeks that are written alike. */
  ghost predicate NoCollision(x: MeteringEntry, y: MeteringEntry, s: Scheme) {
    Under(x, s) && Under(y, s) && LabelsCollide(s.period, x.periodEnd, y.periodEnd) ==>
      Resolved(s.period, x.periodEnd) == Resolved(s.period, y.periodEnd)
  }

  /** For a pair of entries: cache keys tell their windows apart if and only if their weeks do not collide. */
  lemma PairFits(x: MeteringEntry, y: MeteringEntry, s: Scheme)
    requires FourDigitYears(x, s) && FourDigitYears(y, s)
    ensures SameLabelSameWindow(Civil(), x, y, s) <==> NoCollision(x, y, s)
  {
    if Under(x, s) && Under(y, s) {
      var v, w := Resolved(s.period, x.periodEnd).value, Resolved(s.period, y.periodEnd).value;
      LabelsSharedExactly(s.period, x.periodEnd, y.periodEnd, v, w);
    }
  }

  /** A metering log of the civil calendar, ready to be billed by the window: ids increase, every entry of the
      meter lies in its own window, in years of four digits, and no two lie in weeks that are written alike. */
  ghost predicate Billable(log: seq<MeteringEntry>, s: Scheme) {
    && IncreasingIds(log)
    && AllInside(Civil(), log, s)
    && (forall i :: 0 <= i < |log| ==> FourDigitYears(log[i], s))
    && (forall i, j {:trigger NoCollision(log[i], log[j], s)} :: 0 <= i < j < |log| ==> NoCollision(log[i], log[j], s))
  }

  lemma CivilLabelsFit(log: seq<MeteringEntry>, s: Scheme)
    requires Billable(log, s)
    ensures LabelsFit(Civil(), log, s)
  {
    forall i, j | 0 <= i < j < |log| ensures SameLabelSameWindow(Civil(), log[i], log[j], s) {
      assert FourDigitYears(log[i], s) && FourDigitYears(log[j], s) && NoCollision(log[i], log[j], s);
      PairFits(log[i], log[j], s);
    }
  }

  /** The scheme of a meter under a cumulative tiered rate. */
  function TierScheme(tenant: string, meter: string, period: string, tiers: seq<Tier>): Scheme {
    Scheme(tenant, meter, period, u => TieredCost(tiers, u))
  }

  /** No rule applies to `e`, and the rate that matches it has these cumulative tiers. */
  predicate PricedByTiers(p: Pricing, e: MeteringEntry, period: string, tiers: seq<Tier>) {
    && (e.resourceType == "compute_instance" && e.meter == "vm_uptime_seconds" ==> p.rule(e).None?)
    && var r := MatchRate(p.idx, RateQuery(e.tenant, e.instanceType, e.resourceType, e.meter));
       && r.Some? && r.value.tiers == tiers && tiers != [] && r.value.tierMode == "cumulative"
       && period == if r.value.tierPeriod == "" then "monthly" else r.value.tierPeriod
  }

  lemma PricedByTiersFollows(cal: Billing, p: Pricing, e: MeteringEntry, s: Scheme, tiers: seq<Tier>)
    requires s == TierScheme(s.tenant, s.meter, s.period, tiers)
    requires Under(e, s) ==> PricedByTiers(p, e, s.period, tiers) && Resolves(cal, s.period, e.periodEnd)
    ensures Follows(cal, ChargingOf(cal, p), e, s)
  {
    SweepsUseTheCalendar(cal, p, e);
  }

  /** Every batch of the run sweeps with a pricing that prices the meter by `tiers`. */
  ghost predicate SweptByTiers(steps: seq<Step>, pricings: seq<Pricing>, log: seq<MeteringEntry>, s: Scheme,
                               tiers: seq<Tier>) {
    && |pricings| == |steps|
    && (forall i :: 0 <= i < |steps| && steps[i].Batch? ==> steps[i].f == ChargingOf(Civil(), pricings[i]))
    && (forall i, j :: 0 <= i < |steps| && steps[i].Batch? && 0 <= j < |log| && Under(log[j], s) ==>
          PricedByTiers(pricings[i], log[j], s.period, tiers))
  }

  lemma SweepsFollow(steps: seq<Step>, pricings: seq<Pricing>, log: seq<MeteringEntry>, s: Scheme, tiers: seq<Tier>)
    requires s == TierScheme(s.tenant, s.meter, s.period, tiers) && AllInside(Civil(), log, s)
    requires SweptByTiers(steps, pricings, log, s, tiers)
    ensures StepsFollow(Civil(), steps, log, s)
  {
    forall i | 0 <= i < |steps| && steps[i].Batch? ensures AllFollow(Civil(), steps[i].f, log, s) {
      forall j | 0 <= j < |log| ensures Follows(Civil(), steps[i].f, log[j], s) {
        assert Inside(Civil(), log[j], s);
        PricedByTiersFollows(Civil(), pricings[i], log[j], s, tiers);
      }
    }
  }

  lemma BillableIsRegular(steps: seq<Step>, pricings: seq<Pricing>, log: seq<MeteringEntry>, s: Scheme,
                          tiers: seq<Tier>)
    requires s == TierScheme(s.tenant, s.meter, s.period, tiers)
    requires Billable(log, s) && SweptByTiers(steps, pricings, log, s, tiers)
    ensures Regular(Civil(), log, s) && StepsFollow(Civil(), steps, log, s)
  {
    CivilTiles();
    CivilLabelsFit(log, s);
    SweepsFollow(steps, pricings, log, s, tiers);
  }

  lemma SchemeIsSchedule(s: Scheme, tiers: seq<Tier>, usage: real)
    requires s == TierScheme(s.tenant, s.meter, s.period, tiers) && Ascending(tiers, 0.0)
    ensures s.bill(usage) == Schedule(tiers, 0.0, usage)
  {
    WaterfallIsSchedule(tiers, 0.0, usage);
  }

  /** The bill of a window under a cumulative rate: at every point of every run, whatever the batch sizes and
      the split of usage into entries, it is the tier schedule applied once to the rated usage of the window. */
  lemma TieredWindowBill(steps: seq<Step>, pricings: seq<Pricing>, s: Scheme, tiers: seq<Tier>, w: Window)
    requires s == TierScheme(s.tenant, s.meter, s.period, tiers) && Ascending(tiers, 0.0)
    requires Billable(Exec(steps).db.metering, s) && SweptByTiers(steps, pricings, Exec(steps).db.metering, s, tiers)
    ensures var db, k := Exec(steps).db, |Exec(steps).marks|;
            && k <= |db.metering|
            && WindowCost(Civil(), db.costs, |db.costs|, s, w) ==
               Schedule(tiers, 0.0, WindowUsage(Civil(), db.metering, k, s, w))
  {
    var db, k := Exec(steps).db, |Exec(steps).marks|;
    BillableIsRegular(steps, pricings, db.metering, s, tiers);
    WindowBilledByTotal(Civil(), steps, s, w);
    SchemeIsSchedule(s, tiers, WindowUsage(Civil(), db.metering, k, s, w));
  }

  /** With nothing left unrated: the schedule of the total usage of the window. */
  lemma DrainedTieredBill(steps: seq<Step>, pricings: seq<Pricing>, s: Scheme, tiers: seq<Tier>, w: Window)
    requires s == TierScheme(s.tenant, s.meter, s.period, tiers) && Ascending(tiers, 0.0)
    requires Billable(Exec(steps).db.metering, s) && SweptByTiers(steps, pricings, Exec(steps).db.metering, s, tiers)
    requires var db := Exec(steps).db; Unrated(db.metering, db.rated, |db.metering|) == []
    ensures var db := Exec(steps).db;
            WindowCost(Civil(), db.costs, |db.costs|, s, w) ==
            Schedule(tiers, 0.0, WindowUsage(Civil(), db.metering, |db.metering|, s, w))
  {
    var db := Exec(steps).db;
    BillableIsRegular(steps, pricings, db.metering, s, tiers);
    DrainedWindowBill(Civil(), steps, s, w);
    SchemeIsSchedule(s, tiers, WindowUsage(Civil(), db.metering, |db.metering|, s, w));
  }
}
