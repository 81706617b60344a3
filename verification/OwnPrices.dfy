/** Entries that are priced on their own: by a rule, by a flat rate, or by tiers that do not accumulate. */
module OwnPrices {
  import opened Options
  import opened Tiers
  import opened Rates
  import opened Rating
  import opened RatingRuns
  import opened Runs

  // ----- The price of one entry -----

  /** The rule engine answers for the entry: it is asked about VM uptime only. */
  predicate Ruled(p: Pricing, e: MeteringEntry) {
    e.resourceType == "compute_instance" && e.meter == "vm_uptime_seconds" && p.rule(e).Some?
  }

  /** The rate that matches the entry. */
  function RateOf(p: Pricing, e: MeteringEntry): Option<Rate> {
    MatchRate(p.idx, RateQuery(e.tenant, e.instanceType, e.resourceType, e.meter))
  }

  /** The tiers of a rate do not accumulate, or not for this entry because their period is not a valid one. */
  predicate NotCumulative(cal: Billing, rate: Rate, e: MeteringEntry) {
    rate.tierMode == "cumulative" ==>
      cal.resolve(if rate.tierPeriod == "" then "monthly" else rate.tierPeriod, e.periodEnd).None?
  }

  /** The cost of an entry. */
  type Tariff = MeteringEntry -> real

  /** The entry is priced on its own, at this cost: the answer of the rule engine, whatever the rates are; else the
      flat price times the value; else the tier schedule of the value alone. */
  predicate OwnPrice(cal: Billing, p: Pricing, e: MeteringEntry, cost: real) {
    if Ruled(p, e) then cost == p.rule(e).value
    else
      && RateOf(p, e).Some?
      && var rate := RateOf(p, e).value;
         if rate.tiers == [] then cost == rate.price * e.value
         else NotCumulative(cal, rate, e) && Ascending(rate.tiers, 0.0) && cost == Schedule(rate.tiers, 0.0, e.value)
  }

  /** The cost entry of `e`. */
  function BillFor(e: MeteringEntry, rateId: int, cost: real): CostEntry {
    CostEntry(e.id, rateId, e.tenant, e.resourceType, e.resourceId, e.meter, e.value, cost, e.periodStart, e.periodEnd)
  }

  lemma RateCharges(value: real, rate: Rate)
    requires rate.tiers == [] || Ascending(rate.tiers, 0.0)
    ensures ApplyRate(value, rate) ==
            if rate.tiers == [] then rate.price * value else Schedule(rate.tiers, 0.0, value)
  {
    if rate.tiers != [] {
      WaterfallIsSchedule(rate.tiers, 0.0, value);
    }
  }

  /** Such an entry costs that price, whatever usage came before it. */
  lemma OwnPriceIsCharged(cal: Billing, p: Pricing, e: MeteringEntry, cost: real, prior: real)
    requires OwnPrice(cal, p, e, cost)
    ensures var rateId := if Ruled(p, e) then 0 else RateOf(p, e).value.id;
            && Price(ChargingOf(cal, p)(e), e, prior) == Some(BillFor(e, rateId, cost))
            && ChargingOf(cal, p)(e) == Alone(rateId, cost)
  {
    if !Ruled(p, e) {
      assert TryRule(p, e).None? && MatchRate(p.idx, QueryOf(e)) == RateOf(p, e);
      RateCharges(e.value, RateOf(p, e).value);
      assert Classify(cal, p, e) == Alone(RateOf(p, e).value.id, ApplyRate(e.value, RateOf(p, e).value));
      assert ApplyRate(e.value, RateOf(p, e).value) == cost;
    }
  }

  /** Entries other than VM uptime cost the same under any rules. */
  lemma RulesPriceUptimeOnly(cal: Billing, p: Pricing, q: Pricing, e: MeteringEntry, prior: real)
    requires p.idx == q.idx && (e.resourceType != "compute_instance" || e.meter != "vm_uptime_seconds")
    ensures Price(ChargingOf(cal, p)(e), e, prior) == Price(ChargingOf(cal, q)(e), e, prior)
  {
  }

  /** An entry has no price exactly if no rule answers for it and no rate matches it. */
  lemma UnpricedIff(cal: Billing, p: Pricing, e: MeteringEntry, prior: real)
    ensures Price(ChargingOf(cal, p)(e), e, prior).None? <==> !Ruled(p, e) && RateOf(p, e).None?
  {
  }

  // ----- The cost of a meter -----

  /** The cost, if it is of the tenant and meter. */
  function CostIf(c: CostEntry, tenant: string, meter: string): real {
    if c.tenant == tenant && c.meter == meter then c.cost else 0.0
  }

  /** Total of the cost entries of a tenant and meter among the first `n`. */
  function MeterCost(costs: seq<CostEntry>, n: int, tenant: string, meter: string): real
    requires 0 <= n <= |costs|
    decreases n
  {
    if n == 0 then 0.0 else MeterCost(costs, n - 1, tenant, meter) + CostIf(costs[n - 1], tenant, meter)
  }

  /** The tariff added up over the entries of a tenant and meter among the first `n`. */
  function TariffSum(log: seq<MeteringEntry>, n: int, tenant: string, meter: string, tariff: Tariff): real
    requires 0 <= n <= |log|
    decreases n
  {
    if n == 0 then 0.0
    else
      TariffSum(log, n - 1, tenant, meter, tariff) +
      if log[n - 1].tenant == tenant && log[n - 1].meter == meter then tariff(log[n - 1]) else 0.0
  }

  /** If `e` belongs to the meter, it is charged by the tariff on its own. */
  predicate ChargesOwn(f: Charging, e: MeteringEntry, tenant: string, meter: string, tariff: Tariff) {
    Of(e, tenant, meter) ==> f(e).Alone? && f(e).cost == tariff(e)
  }

  predicate AllOwn(f: Charging, log: seq<MeteringEntry>, tenant: string, meter: string, tariff: Tariff) {
    forall i {:trigger ChargesOwn(f, log[i], tenant, meter, tariff)} ::
      0 <= i < |log| ==> ChargesOwn(f, log[i], tenant, meter, tariff)
  }

  lemma {:induction false} MeterCostOfPrefix(xs: seq<CostEntry>, more: seq<CostEntry>, n: int, tenant: string,
                                             meter: string)
    requires 0 <= n <= |xs| && xs <= more
    ensures MeterCost(more, n, tenant, meter) == MeterCost(xs, n, tenant, meter)
    decreases n
  {
    if 0 < n {
      MeterCostOfPrefix(xs, more, n - 1, tenant, meter);
    }
  }

  lemma {:induction false} MeterCostConcat(xs: seq<CostEntry>, ys: seq<CostEntry>, all: seq<CostEntry>, n: int,
                                           tenant: string, meter: string)
    requires all == xs + ys && 0 <= n <= |ys|
    ensures MeterCost(all, |xs| + n, tenant, meter) ==
            MeterCost(xs, |xs|, tenant, meter) + MeterCost(ys, n, tenant, meter)
    decreases n
  {
    if n == 0 {
      MeterCostOfPrefix(xs, all, |xs|, tenant, meter);
    } else {
      MeterCostConcat(xs, ys, all, n - 1, tenant, meter);
      assert all[|xs| + n - 1] == ys[n - 1];
    }
  }

  lemma {:induction false} TariffSumOfPrefix(log: seq<MeteringEntry>, more: seq<MeteringEntry>, n: int, tenant: string,
                                             meter: string, tariff: Tariff)
    requires 0 <= n <= |log| && log <= more
    ensures TariffSum(more, n, tenant, meter, tariff) == TariffSum(log, n, tenant, meter, tariff)
    decreases n
  {
    if 0 < n {
      TariffSumOfPrefix(log, more, n - 1, tenant, meter, tariff);
    }
  }

  lemma {:induction false} TariffSumOfStretch(log: seq<MeteringEntry>, k: int, es: seq<MeteringEntry>, n: int,
                                              tenant: string, meter: string, tariff: Tariff)
    requires IsStretch(log, k, es) && 0 <= n <= |es|
    ensures TariffSum(log, k + n, tenant, meter, tariff) ==
            TariffSum(log, k, tenant, meter, tariff) + TariffSum(es, n, tenant, meter, tariff)
    decreases n
  {
    if 0 < n {
      TariffSumOfStretch(log, k, es, n - 1, tenant, meter, tariff);
      assert log[k + (n - 1)] == es[n - 1];
    }
  }

  lemma MeterCostAppend(xs: seq<CostEntry>, c: CostEntry, all: seq<CostEntry>, n: int, tenant: string, meter: string)
    requires all == xs + [c] && n == |xs| + 1
    ensures MeterCost(all, n, tenant, meter) == MeterCost(xs, n - 1, tenant, meter) + CostIf(c, tenant, meter)
  {
    MeterCostOfPrefix(xs, all, n - 1, tenant, meter);
  }

  lemma MeterCostNext(xs: seq<CostEntry>, o: Option<CostEntry>, all: seq<CostEntry>, tenant: string, meter: string)
    requires all == xs + AsSeq(o)
    ensures MeterCost(all, |all|, tenant, meter) ==
            MeterCost(xs, |xs|, tenant, meter) + if o.Some? then CostIf(o.value, tenant, meter) else 0.0
  {
    if o.None? {
      assert all == xs;
    } else {
      MeterCostAppend(xs, o.value, all, |all|, tenant, meter);
    }
  }

  lemma {:induction false} BatchCostsOwn(f: Charging, log: seq<MeteringEntry>, es: seq<MeteringEntry>, j: int,
                                         tenant: string, meter: string, tariff: Tariff)
    requires 0 <= j <= |es| && AllOwn(f, es, tenant, meter, tariff)
    ensures MeterCost(BatchCosts(f, log, es, j), |BatchCosts(f, log, es, j)|, tenant, meter) ==
            TariffSum(es, j, tenant, meter, tariff)
    decreases j
  {
    if 0 < j {
      BatchCostsOwn(f, log, es, j - 1, tenant, meter, tariff);
      assert ChargesOwn(f, es[j - 1], tenant, meter, tariff);
      MeterCostNext(BatchCosts(f, log, es, j - 1), Price(f(es[j - 1]), es[j - 1], PriorAt(f, log, es, j - 1)),
                    BatchCosts(f, log, es, j), tenant, meter);
    }
  }

  // ----- Over every run -----

  /** The cost of the meter is the tariff of its rated entries. */
  predicate OwnBilled(db: Db, k: int, tenant: string, meter: string, tariff: Tariff) {
    0 <= k <= |db.metering| &&
    MeterCost(db.costs, |db.costs|, tenant, meter) == TariffSum(db.metering, k, tenant, meter, tariff)
  }

  lemma AddedCost(xs: seq<CostEntry>, ys: seq<CostEntry>, all: seq<CostEntry>, tenant: string, meter: string)
    requires all == xs + ys
    ensures MeterCost(all, |all|, tenant, meter) ==
            MeterCost(xs, |xs|, tenant, meter) + MeterCost(ys, |ys|, tenant, meter)
  {
    assert |all| == |xs| + |ys|;
    MeterCostConcat(xs, ys, all, |ys|, tenant, meter);
  }

  lemma AddedTariff(log: seq<MeteringEntry>, k: int, es: seq<MeteringEntry>, m: int, tenant: string, meter: string,
                    tariff: Tariff)
    requires IsStretch(log, k, es) && m == k + |es|
    ensures TariffSum(log, m, tenant, meter, tariff) ==
            TariffSum(log, k, tenant, meter, tariff) + TariffSum(es, |es|, tenant, meter, tariff)
  {
    TariffSumOfStretch(log, k, es, |es|, tenant, meter, tariff);
  }

  lemma InsertedOwn(db: Db, k: int, es: seq<MeteringEntry>, costs: seq<CostEntry>, next: Db, tenant: string,
                    meter: string, tariff: Tariff)
    requires OwnBilled(db, k, tenant, meter, tariff) && IsStretch(db.metering, k, es)
    requires MeterCost(costs, |costs|, tenant, meter) == TariffSum(es, |es|, tenant, meter, tariff)
    requires next.metering == db.metering && next.costs == db.costs + costs
    ensures OwnBilled(next, k + |es|, tenant, meter, tariff)
  {
    AddedCost(db.costs, costs, next.costs, tenant, meter);
    AddedTariff(db.metering, k, es, k + |es|, tenant, meter, tariff);
  }

  lemma BatchOwnBilled(db: Db, k: int, f: Charging, es: seq<MeteringEntry>, next: Db, m: int, tenant: string,
                       meter: string, tariff: Tariff)
    requires OwnBilled(db, k, tenant, meter, tariff) && AllOwn(f, es, tenant, meter, tariff)
    requires IsStretch(db.metering, k, es) && BatchTakes(db, k, f, es, next, m)
    ensures OwnBilled(next, m, tenant, meter, tariff)
  {
    if next != db || m != k {
      BatchCostsOwn(f, db.metering, es, |es|, tenant, meter, tariff);
      InsertedOwn(db, k, es, RateBatch(f, db.metering, es), next, tenant, meter, tariff);
    }
  }

  lemma OwnOfStretch(f: Charging, log: seq<MeteringEntry>, metering: seq<MeteringEntry>, k: int,
                     es: seq<MeteringEntry>, tenant: string, meter: string, tariff: Tariff)
    requires metering <= log && IsStretch(metering, k, es) && AllOwn(f, log, tenant, meter, tariff)
    ensures AllOwn(f, es, tenant, meter, tariff)
  {
    forall i | 0 <= i < |es| ensures ChargesOwn(f, es[i], tenant, meter, tariff) {
      assert es[i] == log[k + i] && ChargesOwn(f, log[k + i], tenant, meter, tariff);
    }
  }

  lemma OwnBilledStep(db: Db, k: int, step: Step, next: Db, m: int, log: seq<MeteringEntry>, tenant: string,
                      meter: string, tariff: Tariff)
    requires db.metering <= log && IncreasingIds(log)
    requires step.Batch? ==> AllOwn(step.f, log, tenant, meter, tariff)
    requires RatedPrefix(db, k) && OwnBilled(db, k, tenant, meter, tariff)
    requires next == Apply(db, step) && m == k + |NewMarks(db, step)|
    ensures RatedPrefix(next, m) && OwnBilled(next, m, tenant, meter, tariff)
  {
    IncreasingIdsOfPrefix(db.metering, log);
    PrefixStep(db, k, step, next, m);
    if step.Arrive? {
      TariffSumOfPrefix(db.metering, next.metering, k, tenant, meter, tariff);
    } else {
      var es := Fetch(db, step.limit);
      BatchStepTakes(db, k, step, next, m);
      FetchContinuesPrefix(db, step.limit, k);
      OwnOfStretch(step.f, log, db.metering, k, es, tenant, meter, tariff);
      BatchOwnBilled(db, k, step.f, es, next, m, tenant, meter, tariff);
    }
  }

  predicate OwnWithin(r: Run, log: seq<MeteringEntry>, tenant: string, meter: string, tariff: Tariff) {
    r.db.metering <= log ==>
      RatedPrefix(r.db, |r.marks|) && OwnBilled(r.db, |r.marks|, tenant, meter, tariff)
  }

  lemma OwnWithinStep(r: Run, step: Step, next: Run, log: seq<MeteringEntry>, tenant: string, meter: string,
                      tariff: Tariff)
    requires IncreasingIds(log) && (step.Batch? ==> AllOwn(step.f, log, tenant, meter, tariff))
    requires OwnWithin(r, log, tenant, meter, tariff) && next == Advance(r, step)
    ensures OwnWithin(next, log, tenant, meter, tariff)
  {
    if next.db.metering <= log {
      MeteringGrows(r.db, step, next.db, log);
      OwnBilledStep(r.db, |r.marks|, step, next.db, |next.marks|, log, tenant, meter, tariff);
    }
  }

  lemma RunBillsOwn(steps: seq<Step>, tenant: string, meter: string, tariff: Tariff)
    requires IncreasingIds(Exec(steps).db.metering)
    requires forall i :: 0 <= i < |steps| && steps[i].Batch? ==>
               AllOwn(steps[i].f, Exec(steps).db.metering, tenant, meter, tariff)
    ensures OwnBilled(Exec(steps).db, |Exec(steps).marks|, tenant, meter, tariff)
  {
    var log := Exec(steps).db.metering;
    var inv := (r: Run) => OwnWithin(r, log, tenant, meter, tariff);
    forall r: Run, step: Step | inv(r) && step in steps ensures inv(Advance(r, step)) {
      OwnWithinStep(r, step, Advance(r, step), log, tenant, meter, tariff);
    }
    Induction(Advance, START, steps, |steps|, inv);
  }

  /** Every batch of the run sweeps with a pricing that prices the entries of the meter on their own, by the
      tariff. */
  ghost predicate SweptOwn(cal: Billing, steps: seq<Step>, pricings: seq<Pricing>, log: seq<MeteringEntry>,
                     tenant: string, meter: string, tariff: Tariff) {
    && |pricings| == |steps|
    && (forall i :: 0 <= i < |steps| && steps[i].Batch? ==> steps[i].f == ChargingOf(cal, pricings[i]))
    && (forall i, j :: 0 <= i < |steps| && steps[i].Batch? && 0 <= j < |log| &&
                       log[j].tenant == tenant && log[j].meter == meter ==>
          OwnPrice(cal, pricings[i], log[j], tariff(log[j])))
  }

  lemma SweptOwnCharges(cal: Billing, steps: seq<Step>, pricings: seq<Pricing>, log: seq<MeteringEntry>,
                        tenant: string, meter: string, tariff: Tariff, i: int)
    requires SweptOwn(cal, steps, pricings, log, tenant, meter, tariff) && 0 <= i < |steps| && steps[i].Batch?
    ensures AllOwn(steps[i].f, log, tenant, meter, tariff)
  {
    forall j | 0 <= j < |log| ensures ChargesOwn(steps[i].f, log[j], tenant, meter, tariff) {
      if Of(log[j], tenant, meter) {
        OwnPriceIsCharged(cal, pricings[i], log[j], tariff(log[j]), 0.0);
      }
    }
  }

  /** Over every run: the cost of a meter whose entries are priced on their own is the sum of their own prices over its
      rated entries. */
  lemma OwnPricesAreBilled(cal: Billing, steps: seq<Step>, pricings: seq<Pricing>, tenant: string, meter: string,
                           tariff: Tariff)
    requires IncreasingIds(Exec(steps).db.metering)
    requires SweptOwn(cal, steps, pricings, Exec(steps).db.metering, tenant, meter, tariff)
    ensures OwnBilled(Exec(steps).db, |Exec(steps).marks|, tenant, meter, tariff)
  {
    var log := Exec(steps).db.metering;
    forall i | 0 <= i < |steps| && steps[i].Batch? ensures AllOwn(steps[i].f, log, tenant, meter, tariff) {
      SweptOwnCharges(cal, steps, pricings, log, tenant, meter, tariff, i);
    }
    RunBillsOwn(steps, tenant, meter, tariff);
  }

  // ----- Flat rates -----

  /** Usage of a tenant and meter over the first `n` entries. */
  function MeterUsage(log: seq<MeteringEntry>, n: int, tenant: string, meter: string): real
    requires 0 <= n <= |log|
    decreases n
  {
    if n == 0 then 0.0
    else
      MeterUsage(log, n - 1, tenant, meter) +
      if log[n - 1].tenant == tenant && log[n - 1].meter == meter then log[n - 1].value else 0.0
  }

  /** The tariff is a price per unit. */
  ghost predicate FlatTariff(tariff: Tariff, price: real) {
    forall e: MeteringEntry :: tariff(e) == price * e.value
  }

  function PerUnit(price: real): Tariff {
    (e: MeteringEntry) => price * e.value
  }

  lemma PerUnitIsFlat(price: real)
    ensures FlatTariff(PerUnit(price), price)
  {
  }

  lemma FlatNext(sum: real, price: real, usage: real, cost: real, value: real)
    requires sum == price * usage && cost == price * value
    ensures sum + cost == price * (usage + value)
  {
  }

  lemma {:induction false} FlatSum(log: seq<MeteringEntry>, n: int, tenant: string, meter: string, tariff: Tariff,
                                   price: real)
    requires 0 <= n <= |log| && FlatTariff(tariff, price)
    ensures TariffSum(log, n, tenant, meter, tariff) == price * MeterUsage(log, n, tenant, meter)
    decreases n
  {
    if 0 < n {
      FlatSum(log, n - 1, tenant, meter, tariff, price);
      var e := log[n - 1];
      if Of(e, tenant, meter) {
        FlatNext(TariffSum(log, n - 1, tenant, meter, tariff), price, MeterUsage(log, n - 1, tenant, meter),
                 tariff(e), e.value);
      }
    }
  }

  /** No rule answers for the entry, and the rate that matches it has no tiers and this price. */
  predicate FlatPriced(p: Pricing, e: MeteringEntry, price: real) {
    !Ruled(p, e) && RateOf(p, e).Some? && RateOf(p, e).value.tiers == [] && RateOf(p, e).value.price == price
  }

  /** Every batch of the run prices the entries of the meter by a flat rate of this price. */
  ghost predicate SweptFlat(cal: Billing, steps: seq<Step>, pricings: seq<Pricing>, log: seq<MeteringEntry>,
                            tenant: string, meter: string, price: real) {
    && |pricings| == |steps|
    && (forall i :: 0 <= i < |steps| && steps[i].Batch? ==> steps[i].f == ChargingOf(cal, pricings[i]))
    && (forall i, j :: 0 <= i < |steps| && steps[i].Batch? && 0 <= j < |log| &&
                       log[j].tenant == tenant && log[j].meter == meter ==>
          FlatPriced(pricings[i], log[j], price))
  }

  lemma FlatIsOwn(cal: Billing, steps: seq<Step>, pricings: seq<Pricing>, log: seq<MeteringEntry>,
                  tenant: string, meter: string, price: real, tariff: Tariff)
    requires SweptFlat(cal, steps, pricings, log, tenant, meter, price) && FlatTariff(tariff, price)
    ensures SweptOwn(cal, steps, pricings, log, tenant, meter, tariff)
  {
    forall i, j | 0 <= i < |steps| && steps[i].Batch? && 0 <= j < |log| && Of(log[j], tenant, meter)
      ensures OwnPrice(cal, pricings[i], log[j], tariff(log[j]))
    {
      assert FlatPriced(pricings[i], log[j], price);
    }
  }

  /** The meter is billed the price times its usage over the first `k` entries. */
  predicate BilledFlat(db: Db, k: int, tenant: string, meter: string, price: real) {
    0 <= k <= |db.metering| &&
    MeterCost(db.costs, |db.costs|, tenant, meter) == price * MeterUsage(db.metering, k, tenant, meter)
  }

  lemma FlatBilled(db: Db, k: int, tenant: string, meter: string, tariff: Tariff, price: real)
    requires OwnBilled(db, k, tenant, meter, tariff) && FlatTariff(tariff, price)
    ensures BilledFlat(db, k, tenant, meter, price)
  {
    FlatSum(db.metering, k, tenant, meter, tariff, price);
  }

  lemma FlatRun(cal: Billing, steps: seq<Step>, pricings: seq<Pricing>, r: Run, tenant: string, meter: string,
                tariff: Tariff, price: real)
    requires r == Exec(steps) && IncreasingIds(r.db.metering) && FlatTariff(tariff, price)
    requires SweptFlat(cal, steps, pricings, r.db.metering, tenant, meter, price)
    ensures BilledFlat(r.db, |r.marks|, tenant, meter, price)
  {
    FlatIsOwn(cal, steps, pricings, r.db.metering, tenant, meter, price, tariff);
    OwnPricesAreBilled(cal, steps, pricings, tenant, meter, tariff);
    FlatBilled(r.db, |r.marks|, tenant, meter, tariff, price);
  }

  /** Over every run, the cost entries of a meter under a flat rate add up to the price times its rated usage,
      however the usage is split into entries and the entries into batches. */
  lemma FlatBill(cal: Billing, steps: seq<Step>, pricings: seq<Pricing>, tenant: string, meter: string, price: real)
    requires IncreasingIds(Exec(steps).db.metering)
    requires SweptFlat(cal, steps, pricings, Exec(steps).db.metering, tenant, meter, price)
    ensures BilledFlat(Exec(steps).db, |Exec(steps).marks|, tenant, meter, price)
  {
    PerUnitIsFlat(price);
    FlatRun(cal, steps, pricings, Exec(steps), tenant, meter, PerUnit(price), price);
  }

  lemma DrainedIsAll(db: Db, k: int)
    requires RatedPrefix(db, k) && IncreasingIds(db.metering)
    requires Unrated(db.metering, db.rated, |db.metering|) == []
    ensures k == |db.metering|
  {
    UnratedSuffix(db, k);
  }

  /** With nothing left unrated: the price times all usage. */
  lemma DrainedFlatBill(cal: Billing, steps: seq<Step>, pricings: seq<Pricing>, tenant: string, meter: string,
                        price: real)
    requires IncreasingIds(Exec(steps).db.metering)
    requires SweptFlat(cal, steps, pricings, Exec(steps).db.metering, tenant, meter, price)
    requires var db := Exec(steps).db; Unrated(db.metering, db.rated, |db.metering|) == []
    ensures BilledFlat(Exec(steps).db, |Exec(steps).db.metering|, tenant, meter, price)
  {
    FlatBill(cal, steps, pricings, tenant, meter, price);
    RatedEntriesArePrefix(steps);
    DrainedIsAll(Exec(steps).db, |Exec(steps).marks|);
  }

  // ----- What every cost entry says -----

  /** Whatever usage came before an entry of the log, its cost entry, if it has one, fits it. */
  ghost predicate PricesFit(f: Charging, log: seq<MeteringEntry>, fits: (CostEntry, MeteringEntry) -> bool) {
    forall e: MeteringEntry, prior: real {:trigger Price(f(e), e, prior)} ::
      e in log && Price(f(e), e, prior).Some? ==> fits(Price(f(e), e, prior).value, e)
  }

  predicate FitsOne(c: CostEntry, log: seq<MeteringEntry>, fits: (CostEntry, MeteringEntry) -> bool) {
    exists i :: 0 <= i < |log| && fits(c, log[i])
  }

  /** Every cost entry fits an entry of the log. */
  predicate AllFit(costs: seq<CostEntry>, log: seq<MeteringEntry>, fits: (CostEntry, MeteringEntry) -> bool) {
    forall j {:trigger FitsOne(costs[j], log, fits)} :: 0 <= j < |costs| ==> FitsOne(costs[j], log, fits)
  }

  lemma {:induction false} BatchFits(f: Charging, log: seq<MeteringEntry>, es: seq<MeteringEntry>, j: int,
                                     fits: (CostEntry, MeteringEntry) -> bool)
    requires 0 <= j <= |es| && PricesFit(f, es, fits)
    ensures AllFit(BatchCosts(f, log, es, j), es, fits)
    decreases j
  {
    if 0 < j {
      BatchFits(f, log, es, j - 1, fits);
      var before, all := BatchCosts(f, log, es, j - 1), BatchCosts(f, log, es, j);
      var price := Price(f(es[j - 1]), es[j - 1], PriorAt(f, log, es, j - 1));
      assert es[j - 1] in es;
      forall i | 0 <= i < |all| ensures FitsOne(all[i], es, fits) {
        if i < |before| {
          assert FitsOne(before[i], es, fits);
        } else {
          assert price.Some? && all[i] == price.value && fits(all[i], es[j - 1]);
        }
      }
    }
  }

  lemma {:induction false} UnratedAreEntries(metering: seq<MeteringEntry>, rated: set<int>, n: int)
    requires 0 <= n <= |metering|
    ensures forall e :: e in Unrated(metering, rated, n) ==> e in metering
    decreases n
  {
    if 0 < n {
      UnratedAreEntries(metering, rated, n - 1);
    }
  }

  lemma FitsElsewhere(costs: seq<CostEntry>, es: seq<MeteringEntry>, log: seq<MeteringEntry>,
                      fits: (CostEntry, MeteringEntry) -> bool)
    requires AllFit(costs, es, fits) && forall e :: e in es ==> e in log
    ensures AllFit(costs, log, fits)
  {
    forall j | 0 <= j < |costs| ensures FitsOne(costs[j], log, fits) {
      assert FitsOne(costs[j], es, fits);
      var i :| 0 <= i < |es| && fits(costs[j], es[i]);
      assert es[i] in log;
    }
  }

  lemma FitsBoth(xs: seq<CostEntry>, ys: seq<CostEntry>, all: seq<CostEntry>, log: seq<MeteringEntry>,
                 fits: (CostEntry, MeteringEntry) -> bool)
    requires AllFit(xs, log, fits) && AllFit(ys, log, fits) && all == xs + ys
    ensures AllFit(all, log, fits)
  {
    forall j | 0 <= j < |all| ensures FitsOne(all[j], log, fits) {
      assert j < |xs| ==> FitsOne(xs[j], log, fits);
      assert j >= |xs| ==> FitsOne(ys[j - |xs|], log, fits);
    }
  }

  lemma BatchAllFit(db: Db, f: Charging, limit: nat, fits: (CostEntry, MeteringEntry) -> bool)
    requires AllFit(db.costs, db.metering, fits) && PricesFit(f, db.metering, fits)
    ensures AllFit(db.costs + RateBatch(f, db.metering, Fetch(db, limit)), db.metering, fits)
  {
    var es := Fetch(db, limit);
    var costs := RateBatch(f, db.metering, es);
    UnratedAreEntries(db.metering, db.rated, |db.metering|);
    BatchFits(f, db.metering, es, |es|, fits);
    FitsElsewhere(costs, es, db.metering, fits);
    FitsBoth(db.costs, costs, db.costs + costs, db.metering, fits);
  }

  lemma AllFitStep(db: Db, step: Step, next: Db, log: seq<MeteringEntry>, fits: (CostEntry, MeteringEntry) -> bool)
    requires AllFit(db.costs, db.metering, fits) && next == Apply(db, step) && next.metering <= log
    requires step.Batch? ==> PricesFit(step.f, log, fits)
    ensures AllFit(next.costs, next.metering, fits)
  {
    if step.Arrive? {
      FitsElsewhere(db.costs, db.metering, next.metering, fits);
    } else {
      assert forall e :: e in db.metering ==> e in log;
      BatchAllFit(db, step.f, step.limit, fits);
    }
  }

  lemma FitWithinStep(r: Run, step: Step, next: Run, log: seq<MeteringEntry>,
                      fits: (CostEntry, MeteringEntry) -> bool)
    requires r.db.metering <= log ==> AllFit(r.db.costs, r.db.metering, fits)
    requires (step.Batch? ==> PricesFit(step.f, log, fits)) && next == Advance(r, step)
    ensures next.db.metering <= log ==> AllFit(next.db.costs, next.db.metering, fits)
  {
    if next.db.metering <= log {
      MeteringGrows(r.db, step, next.db, log);
      AllFitStep(r.db, step, next.db, log, fits);
    }
  }

  lemma RunFits(steps: seq<Step>, log: seq<MeteringEntry>, fits: (CostEntry, MeteringEntry) -> bool)
    requires log == Exec(steps).db.metering
    requires forall i :: 0 <= i < |steps| && steps[i].Batch? ==> PricesFit(steps[i].f, log, fits)
    ensures AllFit(Exec(steps).db.costs, log, fits)
  {
    var inv := (r: Run) => r.db.metering <= log ==> AllFit(r.db.costs, r.db.metering, fits);
    forall r: Run, step: Step | inv(r) && step in steps ensures inv(Advance(r, step)) {
      FitWithinStep(r, step, Advance(r, step), log, fits);
    }
    Induction(Advance, START, steps, |steps|, inv);
  }

  /** The cost entry has the fields of the metering entry. */
  predicate Copies(c: CostEntry, e: MeteringEntry) {
    && c.meteringId == e.id && c.tenant == e.tenant && c.resourceType == e.resourceType
    && c.resourceId == e.resourceId && c.meter == e.meter && c.value == e.value
    && c.periodStart == e.periodStart && c.periodEnd == e.periodEnd
  }

  /** Over every run, whatever the prices, every cost entry has the fields of a metering entry: its id, tenant,
      resource, meter, value and period. */
  lemma CostEntriesCopyEntries(steps: seq<Step>)
    ensures AllFit(Exec(steps).db.costs, Exec(steps).db.metering, Copies)
  {
    RunFits(steps, Exec(steps).db.metering, Copies);
  }

  /** The cost entry has the fields of the metering entry and, if that is of the meter, its own price. */
  function CopiesAtPrice(tenant: string, meter: string, tariff: Tariff): (CostEntry, MeteringEntry) -> bool {
    (c: CostEntry, e: MeteringEntry) =>
      Copies(c, e) && (e.tenant == tenant && e.meter == meter ==> c.cost == tariff(e))
  }

  lemma OwnPricesFit(f: Charging, log: seq<MeteringEntry>, tenant: string, meter: string, tariff: Tariff)
    requires AllOwn(f, log, tenant, meter, tariff)
    ensures PricesFit(f, log, CopiesAtPrice(tenant, meter, tariff))
  {
    forall e: MeteringEntry, prior: real | e in log && Price(f(e), e, prior).Some?
      ensures CopiesAtPrice(tenant, meter, tariff)(Price(f(e), e, prior).value, e)
    {
      var i :| 0 <= i < |log| && log[i] == e;
      assert ChargesOwn(f, log[i], tenant, meter, tariff);
    }
  }

  /** Over every run, each cost entry of a meter whose entries are priced on their own has the own price of the entry
      it bills. */
  lemma EachOwnPriceIsBilled(cal: Billing, steps: seq<Step>, pricings: seq<Pricing>, tenant: string, meter: string,
                             tariff: Tariff)
    requires SweptOwn(cal, steps, pricings, Exec(steps).db.metering, tenant, meter, tariff)
    ensures AllFit(Exec(steps).db.costs, Exec(steps).db.metering, CopiesAtPrice(tenant, meter, tariff))
  {
    var log, fits := Exec(steps).db.metering, CopiesAtPrice(tenant, meter, tariff);
    forall i | 0 <= i < |steps| && steps[i].Batch? ensures PricesFit(steps[i].f, log, fits) {
      SweptOwnCharges(cal, steps, pricings, log, tenant, meter, tariff, i);
      OwnPricesFit(steps[i].f, log, tenant, meter, tariff);
    }
    RunFits(steps, log, fits);
  }
}
