/** Runs of the rating engine: metering entries arrive, sweeps rate them batch by batch.

    A batch is one iteration of the sweep loop. It either inserts its cost entries and marks all its
    entries rated, or the insert fails and nothing changes. */
module RatingRuns {
  import opened Options
  import opened Rates
  import opened Rating
  import opened Runs

  /** The metering log in id order, the ids with `rated_at` set, and the cost log. */
  datatype Db = Db(metering: seq<MeteringEntry>, rated: set<int>, costs: seq<CostEntry>)

  const EMPTY: Db := Db([], {}, [])

  /** Entries among the first `n` that are not yet rated, in id order. */
  function Unrated(metering: seq<MeteringEntry>, rated: set<int>, n: int): seq<MeteringEntry>
    requires 0 <= n <= |metering|
    decreases n
  {
    if n == 0 then []
    else Unrated(metering, rated, n - 1) + (if metering[n - 1].id in rated then [] else [metering[n - 1]])
  }

  function Take<T>(s: seq<T>, n: nat): seq<T> {
    if |s| <= n then s else s[..n]
  }

  /** The batch a sweep iteration reads. */
  function Fetch(db: Db, limit: nat): seq<MeteringEntry> {
    Take(Unrated(db.metering, db.rated, |db.metering|), limit)
  }

  function IdSet(es: seq<MeteringEntry>): set<int> {
    set i | 0 <= i < |es| :: es[i].id
  }

  /** A failed insert stops the iteration before anything is marked; a batch without costs inserts nothing. */
  function RateOnce(f: Charging, limit: nat, inserted: bool, db: Db): Db {
    var es := Fetch(db, limit);
    var costs := RateBatch(f, db.metering, es);
    if costs != [] && !inserted then db
    else Db(db.metering, db.rated + IdSet(es), db.costs + costs)
  }

  datatype Step =
    | Arrive(entries: seq<MeteringEntry>)
    | Batch(f: Charging, limit: nat, inserted: bool)

  function Apply(db: Db, step: Step): Db {
    match step
    case Arrive(entries) => db.(metering := db.metering + entries)
    case Batch(f, limit, inserted) => RateOnce(f, limit, inserted, db)
  }

  /** For each entry of a batch, whether the charging prices it. */
  function Verdicts(f: Charging, es: seq<MeteringEntry>): (r: seq<bool>)
    ensures |r| == |es| && forall i :: 0 <= i < |es| ==> r[i] == !f(es[i]).Unpriced?
  {
    seq(|es|, i requires 0 <= i < |es| => !f(es[i]).Unpriced?)
  }

  /** A sweep prices an entry exactly when a rule or a rate applies to it. */
  lemma PricedWhenRuleOrRate(cal: Billing, p: Pricing, e: MeteringEntry)
    ensures !ChargingOf(cal, p)(e).Unpriced? <==> TryRule(p, e).Some? || MatchRate(p.idx, QueryOf(e)).Some?
  {
  }

  /** For each entry a step marks rated, whether the step prices it. */
  function NewMarks(db: Db, step: Step): seq<bool> {
    match step
    case Arrive(_) => []
    case Batch(f, limit, inserted) =>
      if RateBatch(f, db.metering, Fetch(db, limit)) != [] && !inserted then [] else Verdicts(f, Fetch(db, limit))
  }

  /** A run: the database, and for every rated entry, in order, whether it was priced when it was marked. */
  datatype Run = Run(db: Db, marks: seq<bool>)

  const START: Run := Run(EMPTY, [])

  function Advance(r: Run, step: Step): Run {
    Run(Apply(r.db, step), r.marks + NewMarks(r.db, step))
  }

  /** The run of the steps from the empty database. */
  function Exec(steps: seq<Step>): Run {
    After(Advance, START, steps, |steps|)
  }

  // ----- Rated entries form a prefix of the log -----

  /** Exactly the first `k` entries are rated. */
  predicate RatedPrefix(db: Db, k: int) {
    0 <= k <= |db.metering| && db.rated == IdSet(db.metering[..k])
  }

  lemma {:induction false} UnratedIsSuffix(metering: seq<MeteringEntry>, rated: set<int>, k: int, n: int)
    requires 0 <= k <= |metering| && 0 <= n <= |metering|
    requires forall i :: 0 <= i < |metering| ==> (metering[i].id in rated <==> i < k)
    ensures Unrated(metering, rated, n) == if n <= k then [] else metering[k..n]
    decreases n
  {
    if 0 < n {
      UnratedIsSuffix(metering, rated, k, n - 1);
    }
  }

  lemma RatedIffInPrefix(db: Db, k: int, i: int)
    requires IncreasingIds(db.metering) && RatedPrefix(db, k) && 0 <= i < |db.metering|
    ensures db.metering[i].id in db.rated <==> i < k
  {
    var log := db.metering;
    if i < k {
      assert log[..k][i] == log[i];
    } else {
      forall j | 0 <= j < k ensures log[j].id != log[i].id {
        assert Earlier(log[j], log[i]);
      }
    }
  }

  lemma UnratedSuffix(db: Db, k: int)
    requires IncreasingIds(db.metering) && RatedPrefix(db, k)
    ensures Unrated(db.metering, db.rated, |db.metering|) == db.metering[k..]
  {
    forall i | 0 <= i < |db.metering| ensures db.metering[i].id in db.rated <==> i < k {
      RatedIffInPrefix(db, k, i);
    }
    UnratedIsSuffix(db.metering, db.rated, k, |db.metering|);
  }

  /** The next batch starts where the rated prefix ends. */
  lemma FetchContinuesPrefix(db: Db, limit: nat, k: int)
    requires IncreasingIds(db.metering) && RatedPrefix(db, k)
    ensures IsStretch(db.metering, k, Fetch(db, limit))
  {
    UnratedSuffix(db, k);
  }

  lemma IdSetExtends(log: seq<MeteringEntry>, k: int, es: seq<MeteringEntry>)
    requires IsStretch(log, k, es)
    ensures IdSet(log[..k]) + IdSet(es) == IdSet(log[..k + |es|])
  {
    var all := log[..k + |es|];
    forall i | 0 <= i < |all| ensures all[i].id in IdSet(log[..k]) + IdSet(es) {
      if i < k { assert all[i] == log[..k][i]; } else { assert all[i] == es[i - k]; }
    }
    forall i | 0 <= i < k ensures log[..k][i].id in IdSet(all) { assert log[..k][i] == all[i]; }
    forall i | 0 <= i < |es| ensures es[i].id in IdSet(all) { assert es[i] == all[k + i]; }
  }

  lemma PrefixExtends(db: Db, k: int, es: seq<MeteringEntry>, next: Db)
    requires RatedPrefix(db, k) && IsStretch(db.metering, k, es)
    requires next.metering == db.metering && next.rated == db.rated + IdSet(es)
    ensures RatedPrefix(next, k + |es|)
  {
    IdSetExtends(db.metering, k, es);
  }

  /** Batch `es`, priced by `f`, takes `db` with `k` rated entries to `next` with `m`: nothing happens, or its
      costs are inserted and its entries are rated. */
  predicate BatchTakes(db: Db, k: int, f: Charging, es: seq<MeteringEntry>, next: Db, m: int) {
    || (next == db && m == k)
    || (next == Db(db.metering, db.rated + IdSet(es), db.costs + RateBatch(f, db.metering, es)) && m == k + |es|)
  }

  lemma BatchStepTakes(db: Db, k: int, step: Step, next: Db, m: int)
    requires step.Batch? && next == Apply(db, step) && m == k + |NewMarks(db, step)|
    ensures BatchTakes(db, k, step.f, Fetch(db, step.limit), next, m)
  {
  }

  lemma ArrivalKeepsPrefix(db: Db, k: int, entries: seq<MeteringEntry>, next: Db)
    requires RatedPrefix(db, k) && next == db.(metering := db.metering + entries)
    ensures RatedPrefix(next, k)
  {
    assert next.metering[..k] == db.metering[..k];
  }

  lemma BatchKeepsPrefix(db: Db, k: int, f: Charging, es: seq<MeteringEntry>, next: Db, m: int)
    requires RatedPrefix(db, k) && IsStretch(db.metering, k, es) && BatchTakes(db, k, f, es, next, m)
    ensures RatedPrefix(next, m)
  {
    if next != db || m != k {
      PrefixExtends(db, k, es, next);
    }
  }

  lemma PrefixStep(db: Db, k: int, step: Step, next: Db, m: int)
    requires RatedPrefix(db, k) && IncreasingIds(db.metering)
    requires next == Apply(db, step) && m == k + |NewMarks(db, step)|
    ensures RatedPrefix(next, m)
  {
    if step.Arrive? {
      ArrivalKeepsPrefix(db, k, step.entries, next);
    } else {
      BatchStepTakes(db, k, step, next, m);
      FetchContinuesPrefix(db, step.limit, k);
      BatchKeepsPrefix(db, k, step.f, Fetch(db, step.limit), next, m);
    }
  }

  lemma PrefixTransitive<T>(a: seq<T>, b: seq<T>, c: seq<T>)
    requires a <= b <= c
    ensures a <= c
  {
  }

  /** Steps only append to the metering log. */
  lemma MeteringGrows(db: Db, step: Step, next: Db, log: seq<MeteringEntry>)
    requires next == Apply(db, step) && next.metering <= log
    ensures db.metering <= log
  {
    PrefixTransitive(db.metering, next.metering, log);
  }

  /** If ids increase, the rated entries are the first ones of the log, as many as there are marks. */
  predicate Tracked(r: Run) {
    IncreasingIds(r.db.metering) ==> RatedPrefix(r.db, |r.marks|)
  }

  lemma TrackedStep(r: Run, step: Step, next: Run)
    requires Tracked(r) && next == Advance(r, step)
    ensures Tracked(next)
  {
    if IncreasingIds(next.db.metering) {
      IncreasingIdsOfPrefix(r.db.metering, next.db.metering);
      PrefixStep(r.db, |r.marks|, step, next.db, |next.marks|);
    }
  }

  lemma RatedEntriesArePrefix(steps: seq<Step>)
    ensures Tracked(Exec(steps))
  {
    forall r: Run, step: Step | Tracked(r) ensures Tracked(Advance(r, step)) {
      TrackedStep(r, step, Advance(r, step));
    }
    Induction(Advance, START, steps, |steps|, Tracked);
  }

  // ----- Every entry is billed at most once -----

  /** The metering entry each cost entry bills. */
  function CostIds(costs: seq<CostEntry>): (r: seq<int>)
    ensures |r| == |costs|
    ensures forall i :: 0 <= i < |costs| ==> r[i] == costs[i].meteringId
  {
    seq(|costs|, i requires 0 <= i < |costs| => costs[i].meteringId)
  }

  /** Ids of the entries marked with `true` among the first `n` marks, in order. */
  function PricedIds(es: seq<MeteringEntry>, marks: seq<bool>, n: int): seq<int>
    requires 0 <= n <= |marks| <= |es|
    decreases n
  {
    if n == 0 then [] else PricedIds(es, marks, n - 1) + (if marks[n - 1] then [es[n - 1].id] else [])
  }

  lemma CostIdsConcat(xs: seq<CostEntry>, ys: seq<CostEntry>)
    ensures CostIds(xs + ys) == CostIds(xs) + CostIds(ys)
  {
  }

  lemma PriceId(c: Charge, e: MeteringEntry, prior: real)
    ensures CostIds(AsSeq(Price(c, e, prior))) == if c.Unpriced? then [] else [e.id]
  {
  }

  lemma {:induction false} BatchCostIds(f: Charging, log: seq<MeteringEntry>, es: seq<MeteringEntry>, j: int)
    requires 0 <= j <= |es|
    ensures CostIds(BatchCosts(f, log, es, j)) == PricedIds(es, Verdicts(f, es), j)
    decreases j
  {
    if 0 < j {
      BatchCostIds(f, log, es, j - 1);
      var c := Price(f(es[j - 1]), es[j - 1], PriorAt(f, log, es, j - 1));
      PriceId(f(es[j - 1]), es[j - 1], PriorAt(f, log, es, j - 1));
      CostIdsConcat(BatchCosts(f, log, es, j - 1), AsSeq(c));
    }
  }

  lemma {:induction false} PricedIdsOfPrefix(es: seq<MeteringEntry>, more: seq<MeteringEntry>,
                                             marks: seq<bool>, all: seq<bool>, n: int)
    requires 0 <= n <= |marks| <= |es| && es <= more && marks <= all && |all| <= |more|
    ensures PricedIds(more, all, n) == PricedIds(es, marks, n)
    decreases n
  {
    if 0 < n {
      PricedIdsOfPrefix(es, more, marks, all, n - 1);
    }
  }

  lemma {:induction false} PricedIdsConcat(log: seq<MeteringEntry>, marks: seq<bool>, es: seq<MeteringEntry>,
                                           more: seq<bool>, n: int)
    requires IsStretch(log, |marks|, es) && |more| == |es| && 0 <= n <= |more|
    ensures PricedIds(log, marks + more, |marks| + n) == PricedIds(log, marks, |marks|) + PricedIds(es, more, n)
    decreases n
  {
    if n == 0 {
      PricedIdsOfPrefix(log, log, marks, marks + more, |marks|);
    } else {
      PricedIdsConcat(log, marks, es, more, n - 1);
      assert (marks + more)[|marks| + n - 1] == more[n - 1] && es[n - 1] == log[|marks| + n - 1];
    }
  }

  /** The cost log bills exactly the entries marked with `true`, in order. */
  predicate Billed(db: Db, marks: seq<bool>) {
    |marks| <= |db.metering| && CostIds(db.costs) == PricedIds(db.metering, marks, |marks|)
  }

  lemma BilledBatch(db: Db, marks: seq<bool>, f: Charging, es: seq<MeteringEntry>)
    requires Billed(db, marks) && IsStretch(db.metering, |marks|, es)
    ensures var all := marks + Verdicts(f, es);
            CostIds(db.costs + RateBatch(f, db.metering, es)) == PricedIds(db.metering, all, |all|)
  {
    BatchCostIds(f, db.metering, es, |es|);
    PricedIdsConcat(db.metering, marks, es, Verdicts(f, es), |es|);
    CostIdsConcat(db.costs, RateBatch(f, db.metering, es));
  }

  lemma BilledStep(db: Db, marks: seq<bool>, step: Step)
    requires RatedPrefix(db, |marks|) && Billed(db, marks) && IncreasingIds(db.metering)
    ensures Billed(Apply(db, step), marks + NewMarks(db, step))
  {
    assert marks + [] == marks;
    match step
    case Arrive(entries) => PricedIdsOfPrefix(db.metering, db.metering + entries, marks, marks, |marks|);
    case Batch(f, limit, inserted) =>
      FetchContinuesPrefix(db, limit, |marks|);
      BilledBatch(db, marks, f, Fetch(db, limit));
  }

  predicate TrackedAndBilled(r: Run) {
    IncreasingIds(r.db.metering) ==> RatedPrefix(r.db, |r.marks|) && Billed(r.db, r.marks)
  }

  lemma TrackedAndBilledStep(r: Run, step: Step)
    requires TrackedAndBilled(r)
    ensures TrackedAndBilled(Advance(r, step))
  {
    TrackedStep(r, step, Advance(r, step));
    if IncreasingIds(Advance(r, step).db.metering) {
      IncreasingIdsOfPrefix(r.db.metering, Advance(r, step).db.metering);
      BilledStep(r.db, r.marks, step);
    }
  }

  /** Over any run, the cost log names, in order and each once, exactly those rated entries that were priced
      when they were marked. */
  lemma EachEntryBilledOnce(steps: seq<Step>)
    requires IncreasingIds(Exec(steps).db.metering)
    ensures Billed(Exec(steps).db, Exec(steps).marks)
  {
    forall r: Run, step: Step | TrackedAndBilled(r) ensures TrackedAndBilled(Advance(r, step)) {
      TrackedAndBilledStep(r, step);
    }
    Induction(Advance, START, steps, |steps|, TrackedAndBilled);
  }

  /** How often `id` is among the first `n` ids. */
  function Times(ids: seq<int>, id: int, n: int): nat
    requires 0 <= n <= |ids|
    decreases n
  {
    if n == 0 then 0 else Times(ids, id, n - 1) + if ids[n - 1] == id then 1 else 0
  }

  /** Number of cost entries of a metering entry. */
  function CostCount(costs: seq<CostEntry>, id: int): nat {
    Times(CostIds(costs), id, |costs|)
  }

  lemma {:induction false} TimesOfPrefix(ids: seq<int>, more: seq<int>, id: int, n: int)
    requires 0 <= n <= |ids| && ids <= more
    ensures Times(more, id, n) == Times(ids, id, n)
    decreases n
  {
    if 0 < n {
      TimesOfPrefix(ids, more, id, n - 1);
    }
  }

  lemma CountStep(before: seq<int>, after: seq<int>, added: bool, x: int, y: int)
    requires after == before + if added then [x] else []
    ensures Times(after, y, |after|) == Times(before, y, |before|) + if added && x == y then 1 else 0
  {
    if added {
      TimesOfPrefix(before, after, y, |before|);
    } else {
      assert after == before;
    }
  }

  lemma DistinctIds(es: seq<MeteringEntry>, i: int, j: int)
    requires IncreasingIds(es) && 0 <= i < |es| && 0 <= j < |es|
    ensures es[i].id == es[j].id <==> i == j
  {
    if i < j {
      assert Earlier(es[i], es[j]);
    } else if j < i {
      assert Earlier(es[j], es[i]);
    }
  }

  lemma {:induction false} PricedIdsCount(es: seq<MeteringEntry>, marks: seq<bool>, n: int, i: int)
    requires IncreasingIds(es) && 0 <= n <= |marks| <= |es| && 0 <= i < |es|
    ensures Times(PricedIds(es, marks, n), es[i].id, |PricedIds(es, marks, n)|) == if i < n && marks[i] then 1 else 0
    decreases n
  {
    if 0 < n {
      PricedIdsCount(es, marks, n - 1, i);
      DistinctIds(es, i, n - 1);
      CountStep(PricedIds(es, marks, n - 1), PricedIds(es, marks, n), marks[n - 1], es[n - 1].id, es[i].id);
    }
  }

  /** Read off per entry: one cost entry if it was priced when it was marked rated, else none. */
  lemma BilledExactlyWhenPriced(steps: seq<Step>, i: int)
    requires IncreasingIds(Exec(steps).db.metering) && 0 <= i < |Exec(steps).db.metering|
    ensures var db, marks := Exec(steps).db, Exec(steps).marks;
            && (db.metering[i].id in db.rated <==> i < |marks|)
            && CostCount(db.costs, db.metering[i].id) == if i < |marks| && marks[i] then 1 else 0
  {
    var db, marks := Exec(steps).db, Exec(steps).marks;
    RatedEntriesArePrefix(steps);
    EachEntryBilledOnce(steps);
    RatedIffInPrefix(db, |marks|, i);
    PricedIdsCount(db.metering, marks, |marks|, i);
  }
}
