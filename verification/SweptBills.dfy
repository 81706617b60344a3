/** The rating sweep and the bills it leaves: what holds after the loop has run. */
module SweptBills {
  import opened Options
  import opened Tiers
  import opened Rates
  import opened Periods
  import opened Rating
  import opened RatingRuns
  import opened WindowBills
  import opened CivilBills
  import opened OwnPrices
  import opened Rater
  import opened Runs

  /** Every window of the scheme is billed by the schedule of its total usage. */
  ghost predicate AllSettled(db: Db, s: Scheme, tiers: seq<Tier>) {
    forall w: Window {:trigger Settled(db, s, tiers, w)} :: Settled(db, s, tiers, w)
  }

  ghost predicate Settled(db: Db, s: Scheme, tiers: seq<Tier>, w: Window) {
    WindowCost(Civil(), db.costs, |db.costs|, s, w) ==
    Schedule(tiers, 0.0, WindowUsage(Civil(), db.metering, |db.metering|, s, w))
  }

  /** A run, then the batches of a sweep that leaves nothing unrated. */
  lemma SweepSettles(steps: seq<Step>, more: seq<Step>, pricings: seq<Pricing>, next: Db, s: Scheme, tiers: seq<Tier>,
                     w: Window)
    requires Leads(Apply, Exec(steps).db, more, next) && Queue(next) == []
    requires s == TierScheme(s.tenant, s.meter, s.period, tiers) && Ascending(tiers, 0.0)
    requires Billable(next.metering, s) && SweptByTiers(steps + more, pricings, next.metering, s, tiers)
    ensures Settled(next, s, tiers, w)
  {
    SweepContinuesRun(steps, more, next);
    DrainedTieredBill(steps + more, pricings, s, tiers, w);
  }

  /** The batches of one sweep price by its rates. */
  lemma SweepPrices(steps: seq<Step>, pricings: seq<Pricing>, more: seq<Step>, p: Pricing, limit: nat,
                    log: seq<MeteringEntry>, s: Scheme, tiers: seq<Tier>)
    requires SweptByTiers(steps, pricings, log, s, tiers) && BatchesOf(more, ChargingOf(Civil(), p), limit)
    requires forall j :: 0 <= j < |log| && Under(log[j], s) ==> PricedByTiers(p, log[j], s.period, tiers)
    ensures SweptByTiers(steps + more, pricings + seq(|more|, i => p), log, s, tiers)
  {
    var all, ps := steps + more, pricings + seq(|more|, i => p);
    forall i | 0 <= i < |all| && all[i].Batch? ensures all[i].f == ChargingOf(Civil(), ps[i]) {
      assert i < |steps| ==> all[i] == steps[i] && ps[i] == pricings[i];
      assert i >= |steps| ==> all[i] == more[i - |steps|] && ps[i] == p;
    }
    forall i, j | 0 <= i < |all| && all[i].Batch? && 0 <= j < |log| && Under(log[j], s)
      ensures PricedByTiers(ps[i], log[j], s.period, tiers)
    {
      assert i < |steps| ==> all[i] == steps[i] && ps[i] == pricings[i];
      assert i >= |steps| ==> ps[i] == p;
    }
  }

  /** From the state of any earlier run, a sweep without failure settles every window of every cumulative tiered
      rate that prices the meter throughout. */
  method SweepAndSettle(engine: Engine, cal: Billing, rates: seq<Rate>, rule: MeteringEntry -> Option<real>,
                        ghost steps: seq<Step>, ghost pricings: seq<Pricing>, ghost s: Scheme, ghost tiers: seq<Tier>)
    requires 1 <= engine.batch && cal == Civil() && engine.store.State() == Exec(steps).db
    requires s == TierScheme(s.tenant, s.meter, s.period, tiers) && Ascending(tiers, 0.0)
    requires Billable(engine.store.metering, s) && SweptByTiers(steps, pricings, engine.store.metering, s, tiers)
    requires forall j :: 0 <= j < |engine.store.metering| && Under(engine.store.metering[j], s) ==>
               PricedByTiers(Pricing(RateIndex(rates), rule), engine.store.metering[j], s.period, tiers)
    modifies engine.store`rated, engine.store`costs
    ensures AllSettled(engine.store.State(), s, tiers)
  {
    ghost var p := Pricing(RateIndex(rates), rule);
    var totalRated;
    ghost var more;
    totalRated, more := engine.Sweep(cal, rates, rule, []);
    ghost var next := engine.store.State();
    SweepPrices(steps, pricings, more, p, engine.batch, next.metering, s, tiers);
    forall w: Window ensures Settled(next, s, tiers, w) {
      SweepSettles(steps, more, pricings + seq(|more|, i => p), next, s, tiers, w);
    }
  }

  /** The batches of one sweep price by its rates and rules. */
  lemma SweepPricesOwn(cal: Billing, steps: seq<Step>, pricings: seq<Pricing>, more: seq<Step>, p: Pricing, limit: nat,
                       log: seq<MeteringEntry>, tenant: string, meter: string, tariff: Tariff)
    requires SweptOwn(cal, steps, pricings, log, tenant, meter, tariff) && BatchesOf(more, ChargingOf(cal, p), limit)
    requires forall j :: 0 <= j < |log| && Of(log[j], tenant, meter) ==> OwnPrice(cal, p, log[j], tariff(log[j]))
    ensures SweptOwn(cal, steps + more, pricings + seq(|more|, i => p), log, tenant, meter, tariff)
  {
    var all, ps := steps + more, pricings + seq(|more|, i => p);
    forall i | 0 <= i < |all| && all[i].Batch? ensures all[i].f == ChargingOf(cal, ps[i]) {
      assert i < |steps| ==> all[i] == steps[i] && ps[i] == pricings[i];
      assert i >= |steps| ==> all[i] == more[i - |steps|] && ps[i] == p;
    }
    forall i, j | 0 <= i < |all| && all[i].Batch? && 0 <= j < |log| && log[j].tenant == tenant && log[j].meter == meter
      ensures OwnPrice(cal, ps[i], log[j], tariff(log[j]))
    {
      assert i < |steps| ==> all[i] == steps[i] && ps[i] == pricings[i];
      assert i >= |steps| ==> ps[i] == p;
    }
  }

  lemma SweepBillsOwn(cal: Billing, steps: seq<Step>, more: seq<Step>, pricings: seq<Pricing>, next: Db,
                      tenant: string, meter: string, tariff: Tariff)
    requires Leads(Apply, Exec(steps).db, more, next) && Queue(next) == [] && IncreasingIds(next.metering)
    requires SweptOwn(cal, steps + more, pricings, next.metering, tenant, meter, tariff)
    ensures OwnBilled(next, |next.metering|, tenant, meter, tariff)
    ensures AllFit(next.costs, next.metering, CopiesAtPrice(tenant, meter, tariff))
  {
    SweepContinuesRun(steps, more, next);
    OwnPricesAreBilled(cal, steps + more, pricings, tenant, meter, tariff);
    EachOwnPriceIsBilled(cal, steps + more, pricings, tenant, meter, tariff);
    RatedEntriesArePrefix(steps + more);
    DrainedIsAll(next, |Exec(steps + more).marks|);
  }

  /** From the state of any earlier run, a sweep without failure bills every entry of a meter whose entries are priced
      on their own: each cost entry at the own price of the entry it bills, and all of them the sum of the own prices,
      which under a flat rate is the price times the usage. */
  method SweepAndBill(engine: Engine, cal: Billing, rates: seq<Rate>, rule: MeteringEntry -> Option<real>,
                      ghost steps: seq<Step>, ghost pricings: seq<Pricing>, ghost tenant: string, ghost meter: string,
                      ghost tariff: Tariff)
    requires 1 <= engine.batch && engine.store.State() == Exec(steps).db && IncreasingIds(engine.store.metering)
    requires SweptOwn(cal, steps, pricings, engine.store.metering, tenant, meter, tariff)
    requires forall j :: 0 <= j < |engine.store.metering| && Of(engine.store.metering[j], tenant, meter) ==>
               var e := engine.store.metering[j]; OwnPrice(cal, Pricing(RateIndex(rates), rule), e, tariff(e))
    modifies engine.store`rated, engine.store`costs
    ensures OwnBilled(engine.store.State(), |engine.store.metering|, tenant, meter, tariff)
    ensures AllFit(engine.store.costs, engine.store.metering, CopiesAtPrice(tenant, meter, tariff))
    ensures forall price :: FlatTariff(tariff, price) ==>
              BilledFlat(engine.store.State(), |engine.store.metering|, tenant, meter, price)
  {
    ghost var p := Pricing(RateIndex(rates), rule);
    var totalRated;
    ghost var more;
    totalRated, more := engine.Sweep(cal, rates, rule, []);
    ghost var next := engine.store.State();
    SweepPricesOwn(cal, steps, pricings, more, p, engine.batch, next.metering, tenant, meter, tariff);
    SweepBillsOwn(cal, steps, more, pricings + seq(|more|, i => p), next, tenant, meter, tariff);
    forall price | FlatTariff(tariff, price) ensures BilledFlat(next, |next.metering|, tenant, meter, price) {
      FlatBilled(next, |next.metering|, tenant, meter, tariff, price);
    }
  }
}
