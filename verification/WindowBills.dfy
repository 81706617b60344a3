/** What the rating engine bills for one window: the tier schedule applied once to the usage of the window,
    however the usage is split into entries and the entries into batches. */
module WindowBills {
  import opened Options
  import opened Periods
  import opened Rating
  import opened RatingRuns
  import opened Runs

  predicate Resolves(cal: Billing, period: string, t: Instant) {
    cal.resolve(period, t).Some?
  }

  /** The window of `t` contains `t`, and every instant in it resolves to it. */
  ghost predicate ProperWindow(cal: Billing, period: string, t: Instant) {
    Resolves(cal, period, t) ==>
      && cal.resolve(period, t).value.Contains(t)
      && forall u: Instant {:trigger Resolves(cal, period, u)} ::
           cal.resolve(period, t).value.Contains(u) ==> cal.resolve(period, u) == cal.resolve(period, t)
  }

  /** Windows tile time. */
  ghost predicate Tiles(cal: Billing) {
    forall p: string, t: Instant {:trigger ProperWindow(cal, p, t)} :: ProperWindow(cal, p, t)
  }

  /** The cumulative price of one meter of one tenant: `bill` gives the price of the usage of a window. */
  datatype Scheme = Scheme(tenant: string, meter: string, period: string, bill: real -> real)

  predicate Under(e: MeteringEntry, s: Scheme) {
    Of(e, s.tenant, s.meter)
  }

  /** A cumulative charge takes its window and key from the calendar. */
  predicate FromCalendar(cal: Billing, f: Charging, e: MeteringEntry) {
    var c := f(e);
    c.Cumulative? ==>
      && cal.resolve(c.period, e.periodEnd) == Some(c.window)
      && c.key == AccumKey(e.tenant, e.meter, cal.labelOf(c.period, e.periodEnd))
  }

  /** If `e` belongs to the meter, it is charged cumulatively by the scheme. */
  ghost predicate Follows(cal: Billing, f: Charging, e: MeteringEntry, s: Scheme) {
    && FromCalendar(cal, f, e)
    && (Under(e, s) ==> f(e).Cumulative? && f(e).period == s.period && forall u: real :: f(e).bill(u) == s.bill(u))
  }

  lemma SweepsUseTheCalendar(cal: Billing, p: Pricing, e: MeteringEntry)
    ensures FromCalendar(cal, ChargingOf(cal, p), e)
  {
  }

  /** If `e` belongs to the meter, its metering period starts in the window in which it ends, and does not
      end at the very start of it. */
  predicate Inside(cal: Billing, e: MeteringEntry, s: Scheme) {
    Under(e, s) ==>
      var r := cal.resolve(s.period, e.periodEnd);
      r.Some? && r.value.start <= e.periodStart <= e.periodEnd && r.value.start < e.periodEnd
  }

  /** Labels tell the windows of two entries apart. */
  predicate SameLabelSameWindow(cal: Billing, x: MeteringEntry, y: MeteringEntry, s: Scheme) {
    Under(x, s) && Under(y, s) ==>
      (cal.labelOf(s.period, x.periodEnd) == cal.labelOf(s.period, y.periodEnd) <==>
       cal.resolve(s.period, x.periodEnd) == cal.resolve(s.period, y.periodEnd))
  }

  predicate LabelsFit(cal: Billing, log: seq<MeteringEntry>, s: Scheme) {
    forall i, j {:trigger SameLabelSameWindow(cal, log[i], log[j], s)} ::
      0 <= i < j < |log| ==> SameLabelSameWindow(cal, log[i], log[j], s)
  }

  ghost predicate AllFollow(cal: Billing, f: Charging, log: seq<MeteringEntry>, s: Scheme) {
    forall i {:trigger Follows(cal, f, log[i], s)} :: 0 <= i < |log| ==> Follows(cal, f, log[i], s)
  }

  predicate AllInside(cal: Billing, log: seq<MeteringEntry>, s: Scheme) {
    forall i {:trigger Inside(cal, log[i], s)} :: 0 <= i < |log| ==> Inside(cal, log[i], s)
  }

  /** `e` is usage of the meter in window `w`. */
  predicate InWindow(cal: Billing, e: MeteringEntry, s: Scheme, w: Window) {
    Under(e, s) && cal.resolve(s.period, e.periodEnd) == Some(w)
  }

  /** Usage of the meter in window `w`, over the first `n` entries. */
  function WindowUsage(cal: Billing, log: seq<MeteringEntry>, n: int, s: Scheme, w: Window): real
    requires 0 <= n <= |log|
    decreases n
  {
    if n == 0 then 0.0
    else WindowUsage(cal, log, n - 1, s, w) + (if InWindow(cal, log[n - 1], s, w) then log[n - 1].value else 0.0)
  }

  predicate BilledIn(cal: Billing, c: CostEntry, s: Scheme, w: Window) {
    c.tenant == s.tenant && c.meter == s.meter && cal.resolve(s.period, c.periodEnd) == Some(w)
  }

  /** Total of the cost entries of the meter in window `w`, over the first `n` of them. */
  function WindowCost(cal: Billing, costs: seq<CostEntry>, n: int, s: Scheme, w: Window): real
    requires 0 <= n <= |costs|
    decreases n
  {
    if n == 0 then 0.0
    else WindowCost(cal, costs, n - 1, s, w) + (if BilledIn(cal, costs[n - 1], s, w) then costs[n - 1].cost else 0.0)
  }

  // ----- The query counts exactly the entries of the window -----

  lemma CountedIsInWindow(cal: Billing, e: MeteringEntry, s: Scheme, w: Window, u: Instant)
    requires Tiles(cal) && cal.resolve(s.period, u) == Some(w) && Under(e, s) && Inside(cal, e, s)
    ensures Counted(e, w) <==> InWindow(cal, e, s, w)
  {
    var end := e.periodEnd;
    assert ProperWindow(cal, s.period, end) && ProperWindow(cal, s.period, u);
    assert Resolves(cal, s.period, end) && Resolves(cal, s.period, u);
    if Counted(e, w) && end == w.end {
      // The instant before the end lies in the window of `e` and in `w`, so they are the same window.
      assert Resolves(cal, s.period, end - 1) || !Resolves(cal, s.period, end - 1);
    }
  }

  lemma {:induction false} MeteringSumIsUsage(cal: Billing, log: seq<MeteringEntry>, n: int, s: Scheme, w: Window,
                                              u: Instant)
    requires Tiles(cal) && cal.resolve(s.period, u) == Some(w) && AllInside(cal, log, s) && 0 <= n <= |log|
    ensures MeteringSum(log, n, s.tenant, s.meter, w) == WindowUsage(cal, log, n, s, w)
    decreases n
  {
    if 0 < n {
      MeteringSumIsUsage(cal, log, n - 1, s, w, u);
      assert Inside(cal, log[n - 1], s);
      if Under(log[n - 1], s) {
        CountedIsInWindow(cal, log[n - 1], s, w, u);
      }
    }
  }

  lemma PairIsCoherent(cal: Billing, f: Charging, x: MeteringEntry, y: MeteringEntry, s: Scheme)
    requires Tiles(cal) && Follows(cal, f, x, s) && Follows(cal, f, y, s) && Under(x, s) && Under(y, s)
    requires Inside(cal, x, s) && SameLabelSameWindow(cal, x, y, s)
    ensures CoherentPair(f, x, y)
  {
    CountedIsInWindow(cal, x, s, f(y).window, y.periodEnd);
  }

  lemma SchemeIsCoherent(cal: Billing, f: Charging, log: seq<MeteringEntry>, s: Scheme)
    requires Tiles(cal) && AllFollow(cal, f, log, s) && AllInside(cal, log, s) && LabelsFit(cal, log, s)
    ensures Coherent(f, log, s.tenant, s.meter)
  {
    forall i | 0 <= i < |log| ensures OwnKey(f, log[i]) {
      assert Follows(cal, f, log[i], s);
    }
    forall i, j | 0 <= i < j < |log| && Of(log[i], s.tenant, s.meter) && Of(log[j], s.tenant, s.meter)
      ensures CoherentPair(f, log[i], log[j])
    {
      assert Follows(cal, f, log[i], s) && Follows(cal, f, log[j], s);
      assert Inside(cal, log[i], s) && SameLabelSameWindow(cal, log[i], log[j], s);
      PairIsCoherent(cal, f, log[i], log[j], s);
    }
  }

  // ----- A batch bills the increment of the schedule -----

  /** The conditions on a log under which a window is billed by its total. */
  ghost predicate Regular(cal: Billing, log: seq<MeteringEntry>, s: Scheme) {
    Tiles(cal) && IncreasingIds(log) && AllInside(cal, log, s) && LabelsFit(cal, log, s) && s.bill(0.0) == 0.0
  }

  /** Every entry of the meter in a batch is priced with the usage of its window up to it as prior usage. */
  lemma BatchPrior(cal: Billing, f: Charging, log: seq<MeteringEntry>, s: Scheme, k: int, es: seq<MeteringEntry>,
                   j: int)
    requires Regular(cal, log, s) && AllFollow(cal, f, log, s) && IsStretch(log, k, es)
    requires 0 <= j < |es| && Under(es[j], s)
    ensures f(es[j]).Cumulative?
    ensures PriorAt(f, log, es, j) == WindowUsage(cal, log, k + j, s, f(es[j]).window)
  {
    var e := es[j];
    assert e == log[k + j] && Follows(cal, f, log[k + j], s);
    SchemeIsCoherent(cal, f, log, s);
    CoherentOfStretch(f, log, k, es, s.tenant, s.meter);
    CacheRefinesQuery(f, log, s.tenant, s.meter, k, es, j);
    MeteringSumIsUsage(cal, log, k + j, s, f(e).window, e.periodEnd);
  }

  /** What one entry adds to the bill of window `w`. */
  function EntryCost(cal: Billing, f: Charging, e: MeteringEntry, prior: real, s: Scheme, w: Window): real {
    match Price(f(e), e, prior)
    case None => 0.0
    case Some(c) => if BilledIn(cal, c, s, w) then c.cost else 0.0
  }

  lemma EntryCostIsIncrement(cal: Billing, f: Charging, e: MeteringEntry, prior: real, s: Scheme, w: Window)
    requires Follows(cal, f, e, s)
    ensures EntryCost(cal, f, e, prior, s, w) ==
      if InWindow(cal, e, s, w) then s.bill(prior + e.value) - s.bill(prior) else 0.0
  {
  }

  /** The cost of an entry is what its usage adds to the schedule of the window. */
  lemma EntryAddsIncrement(cal: Billing, f: Charging, log: seq<MeteringEntry>, s: Scheme, w: Window,
                           k: int, es: seq<MeteringEntry>, j: int)
    requires Regular(cal, log, s) && AllFollow(cal, f, log, s) && IsStretch(log, k, es) && 0 <= j < |es|
    ensures EntryCost(cal, f, es[j], PriorAt(f, log, es, j), s, w) ==
            s.bill(WindowUsage(cal, log, k + j + 1, s, w)) - s.bill(WindowUsage(cal, log, k + j, s, w))
  {
    assert es[j] == log[k + j] && Follows(cal, f, log[k + j], s);
    EntryCostIsIncrement(cal, f, es[j], PriorAt(f, log, es, j), s, w);
    if InWindow(cal, es[j], s, w) {
      BatchPrior(cal, f, log, s, k, es, j);
    }
  }

  lemma {:induction false} WindowCostOfPrefix(cal: Billing, xs: seq<CostEntry>, more: seq<CostEntry>, n: int,
                                              s: Scheme, w: Window)
    requires 0 <= n <= |xs| && xs <= more
    ensures WindowCost(cal, more, n, s, w) == WindowCost(cal, xs, n, s, w)
    decreases n
  {
    if 0 < n {
      WindowCostOfPrefix(cal, xs, more, n - 1, s, w);
    }
  }

  lemma {:induction false} WindowCostConcat(cal: Billing, xs: seq<CostEntry>, ys: seq<CostEntry>, n: int, s: Scheme,
                                            w: Window)
    requires 0 <= n <= |ys|
    ensures WindowCost(cal, xs + ys, |xs| + n, s, w) == WindowCost(cal, xs, |xs|, s, w) + WindowCost(cal, ys, n, s, w)
    decreases n
  {
    if n == 0 {
      WindowCostOfPrefix(cal, xs, xs + ys, |xs|, s, w);
    } else {
      WindowCostConcat(cal, xs, ys, n - 1, s, w);
      assert (xs + ys)[|xs| + n - 1] == ys[n - 1];
    }
  }

  lemma AppendCost(cal: Billing, costs: seq<CostEntry>, all: seq<CostEntry>, f: Charging, e: MeteringEntry, prior: real,
                   s: Scheme, w: Window)
    requires all == costs + AsSeq(Price(f(e), e, prior))
    ensures WindowCost(cal, all, |all|, s, w) ==
      WindowCost(cal, costs, |costs|, s, w) + EntryCost(cal, f, e, prior, s, w)
  {
    var c := Price(f(e), e, prior);
    if c.None? {
      assert all == costs;
    } else {
      WindowCostOfPrefix(cal, costs, all, |costs|, s, w);
    }
  }

  /** The first `j` entries of a batch cost what their usage adds to the schedule of the window. */
  lemma {:induction false} BatchAddsIncrement(cal: Billing, f: Charging, log: seq<MeteringEntry>, s: Scheme, w: Window,
                                              k: int, es: seq<MeteringEntry>, j: int)
    requires Regular(cal, log, s) && AllFollow(cal, f, log, s) && IsStretch(log, k, es) && 0 <= j <= |es|
    ensures WindowCost(cal, BatchCosts(f, log, es, j), |BatchCosts(f, log, es, j)|, s, w) ==
            s.bill(WindowUsage(cal, log, k + j, s, w)) - s.bill(WindowUsage(cal, log, k, s, w))
    decreases j
  {
    if 0 < j {
      var i := j - 1;
      BatchAddsIncrement(cal, f, log, s, w, k, es, i);
      EntryAddsIncrement(cal, f, log, s, w, k, es, i);
      AppendCost(cal, BatchCosts(f, log, es, i), BatchCosts(f, log, es, j), f, es[i], PriorAt(f, log, es, i), s, w);
      assert k + i + 1 == k + j;
    }
  }

  // ----- Over any run, a window is billed by its total -----

  /** The cost log bills window `w` for the usage of the first `k` entries in it. */
  predicate BilledTo(cal: Billing, db: Db, k: int, s: Scheme, w: Window) {
    0 <= k <= |db.metering| &&
    WindowCost(cal, db.costs, |db.costs|, s, w) == s.bill(WindowUsage(cal, db.metering, k, s, w))
  }

  lemma {:induction false} UsageOfPrefix(cal: Billing, log: seq<MeteringEntry>, more: seq<MeteringEntry>, n: int,
                                         s: Scheme, w: Window)
    requires 0 <= n <= |log| && log <= more
    ensures WindowUsage(cal, more, n, s, w) == WindowUsage(cal, log, n, s, w)
    decreases n
  {
    if 0 < n {
      UsageOfPrefix(cal, log, more, n - 1, s, w);
    }
  }

  lemma FollowOfPrefix(cal: Billing, f: Charging, log: seq<MeteringEntry>, more: seq<MeteringEntry>, s: Scheme)
    requires log <= more && AllFollow(cal, f, more, s)
    ensures AllFollow(cal, f, log, s)
  {
    forall i | 0 <= i < |log| ensures Follows(cal, f, log[i], s) {
      assert Follows(cal, f, more[i], s);
    }
  }

  lemma RegularOfPrefix(cal: Billing, log: seq<MeteringEntry>, more: seq<MeteringEntry>, s: Scheme)
    requires log <= more && Regular(cal, more, s)
    ensures Regular(cal, log, s)
  {
    IncreasingIdsOfPrefix(log, more);
    forall i | 0 <= i < |log| ensures Inside(cal, log[i], s) {
      assert Inside(cal, more[i], s);
    }
    forall i, j | 0 <= i < j < |log| ensures SameLabelSameWindow(cal, log[i], log[j], s) {
      assert SameLabelSameWindow(cal, more[i], more[j], s);
    }
  }

  lemma ArrivalBilledTo(cal: Billing, db: Db, k: int, entries: seq<MeteringEntry>, s: Scheme, w: Window)
    requires BilledTo(cal, db, k, s, w)
    ensures BilledTo(cal, db.(metering := db.metering + entries), k, s, w)
  {
    UsageOfPrefix(cal, db.metering, db.metering + entries, k, s, w);
  }

  /** A batch that inserts its costs. */
  lemma InsertedBilledTo(cal: Billing, db: Db, next: Db, k: int, f: Charging, es: seq<MeteringEntry>, s: Scheme,
                         w: Window)
    requires Regular(cal, db.metering, s) && AllFollow(cal, f, db.metering, s)
    requires BilledTo(cal, db, k, s, w) && IsStretch(db.metering, k, es)
    requires next.metering == db.metering && next.costs == db.costs + RateBatch(f, db.metering, es)
    ensures BilledTo(cal, next, k + |es|, s, w)
  {
    var costs := RateBatch(f, db.metering, es);
    BatchAddsIncrement(cal, f, db.metering, s, w, k, es, |es|);
    WindowCostConcat(cal, db.costs, costs, |costs|, s, w);
  }

  lemma BatchBilledTo(cal: Billing, db: Db, k: int, f: Charging, es: seq<MeteringEntry>, next: Db, m: int, s: Scheme,
                      w: Window)
    requires Regular(cal, db.metering, s) && AllFollow(cal, f, db.metering, s)
    requires BilledTo(cal, db, k, s, w) && IsStretch(db.metering, k, es) && BatchTakes(db, k, f, es, next, m)
    ensures BilledTo(cal, next, m, s, w)
  {
    if next != db || m != k {
      InsertedBilledTo(cal, db, next, k, f, es, s, w);
    }
  }

  lemma BilledToStep(cal: Billing, db: Db, k: int, step: Step, next: Db, m: int, log: seq<MeteringEntry>,
                     s: Scheme, w: Window)
    requires db.metering <= log && Regular(cal, log, s) && (step.Batch? ==> AllFollow(cal, step.f, log, s))
    requires RatedPrefix(db, k) && BilledTo(cal, db, k, s, w)
    requires next == Apply(db, step) && m == k + |NewMarks(db, step)|
    ensures BilledTo(cal, next, m, s, w)
  {
    if step.Arrive? {
      ArrivalBilledTo(cal, db, k, step.entries, s, w);
    } else {
      RegularOfPrefix(cal, db.metering, log, s);
      FollowOfPrefix(cal, step.f, db.metering, log, s);
      BatchStepTakes(db, k, step, next, m);
      FetchContinuesPrefix(db, step.limit, k);
      BatchBilledTo(cal, db, k, step.f, Fetch(db, step.limit), next, m, s, w);
    }
  }

  /** Every batch of the run prices the entries of `log` by the scheme. */
  ghost predicate StepsFollow(cal: Billing, steps: seq<Step>, log: seq<MeteringEntry>, s: Scheme) {
    forall i :: 0 <= i < |steps| && steps[i].Batch? ==> AllFollow(cal, steps[i].f, log, s)
  }

  /** As long as the log has not outgrown `log`, window `w` is billed for all rated usage in it. */
  predicate BilledWithin(cal: Billing, r: Run, log: seq<MeteringEntry>, s: Scheme, w: Window) {
    r.db.metering <= log ==> RatedPrefix(r.db, |r.marks|) && BilledTo(cal, r.db, |r.marks|, s, w)
  }

  lemma PrefixBilledStep(cal: Billing, db: Db, k: int, step: Step, next: Db, m: int, log: seq<MeteringEntry>,
                         s: Scheme, w: Window)
    requires db.metering <= log && Regular(cal, log, s) && (step.Batch? ==> AllFollow(cal, step.f, log, s))
    requires RatedPrefix(db, k) && BilledTo(cal, db, k, s, w)
    requires next == Apply(db, step) && m == k + |NewMarks(db, step)|
    ensures RatedPrefix(next, m) && BilledTo(cal, next, m, s, w)
  {
    IncreasingIdsOfPrefix(db.metering, log);
    PrefixStep(db, k, step, next, m);
    BilledToStep(cal, db, k, step, next, m, log, s, w);
  }

  lemma BilledWithinStep(cal: Billing, r: Run, step: Step, next: Run, log: seq<MeteringEntry>, s: Scheme, w: Window)
    requires Regular(cal, log, s) && (step.Batch? ==> AllFollow(cal, step.f, log, s))
    requires BilledWithin(cal, r, log, s, w) && next == Advance(r, step)
    ensures BilledWithin(cal, next, log, s, w)
  {
    if next.db.metering <= log {
      MeteringGrows(r.db, step, next.db, log);
      PrefixBilledStep(cal, r.db, |r.marks|, step, next.db, |next.marks|, log, s, w);
    }
  }

  /** For every metering log and every run of batches of any size, at any point of the run the cost entries
      of a window add up to the schedule applied once to the rated usage of the window. */
  lemma WindowBilledByTotal(cal: Billing, steps: seq<Step>, s: Scheme, w: Window)
    requires Regular(cal, Exec(steps).db.metering, s) && StepsFollow(cal, steps, Exec(steps).db.metering, s)
    ensures BilledTo(cal, Exec(steps).db, |Exec(steps).marks|, s, w)
  {
    var log := Exec(steps).db.metering;
    var inv := (r: Run) => BilledWithin(cal, r, log, s, w);
    forall r: Run, step: Step | inv(r) && step in steps ensures inv(Advance(r, step)) {
      BilledWithinStep(cal, r, step, Advance(r, step), log, s, w);
    }
    Induction(Advance, START, steps, |steps|, inv);
  }

  lemma DrainedIsAllRated(cal: Billing, db: Db, k: int, s: Scheme, w: Window)
    requires RatedPrefix(db, k) && BilledTo(cal, db, k, s, w) && IncreasingIds(db.metering)
    requires Unrated(db.metering, db.rated, |db.metering|) == []
    ensures WindowCost(cal, db.costs, |db.costs|, s, w) == s.bill(WindowUsage(cal, db.metering, |db.metering|, s, w))
  {
    UnratedSuffix(db, k);
  }

  /** Once nothing is left unrated, the bill of the window is the schedule applied to its total usage. */
  lemma DrainedWindowBill(cal: Billing, steps: seq<Step>, s: Scheme, w: Window)
    requires Regular(cal, Exec(steps).db.metering, s) && StepsFollow(cal, steps, Exec(steps).db.metering, s)
    requires var db := Exec(steps).db; Unrated(db.metering, db.rated, |db.metering|) == []
    ensures var db := Exec(steps).db;
            WindowCost(cal, db.costs, |db.costs|, s, w) == s.bill(WindowUsage(cal, db.metering, |db.metering|, s, w))
  {
    WindowBilledByTotal(cal, steps, s, w);
    RatedEntriesArePrefix(steps);
    DrainedIsAllRated(cal, Exec(steps).db, |Exec(steps).marks|, s, w);
  }
}
