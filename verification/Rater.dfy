/** The rating sweep, as it updates the store. */
module Rater {
  import opened Options
  import opened Rates
  import opened Rating
  import opened RatingRuns
  import opened Runs

  // ----- Marking shrinks the queue -----

  /** Marking more entries never lengthens the queue, and shortens it if one of them was queued. */
  lemma {:induction false} MarkingShrinks(metering: seq<MeteringEntry>, rated: set<int>, ids: set<int>, n: int)
    requires 0 <= n <= |metering|
    ensures |Unrated(metering, rated + ids, n)| <= |Unrated(metering, rated, n)|
    ensures (exists e :: e in Unrated(metering, rated, n) && e.id in ids) ==>
              |Unrated(metering, rated + ids, n)| < |Unrated(metering, rated, n)|
    decreases n
  {
    if 0 < n {
      MarkingShrinks(metering, rated, ids, n - 1);
      if e :| e in Unrated(metering, rated, n) && e.id in ids && e !in Unrated(metering, rated, n - 1) {
        assert e == metering[n - 1];
      }
    }
  }

  predicate AllAmong(queue: seq<MeteringEntry>, ids: set<int>) {
    forall e :: e in queue ==> e.id in ids
  }

  lemma AllAmongShorter(metering: seq<MeteringEntry>, rated: set<int>, ids: set<int>, n: int)
    requires 0 < n <= |metering| && AllAmong(Unrated(metering, rated, n), ids)
    ensures AllAmong(Unrated(metering, rated, n - 1), ids)
    ensures metering[n - 1].id in rated || metering[n - 1].id in ids
  {
    var queue, shorter := Unrated(metering, rated, n), Unrated(metering, rated, n - 1);
    forall e | e in shorter ensures e.id in ids {
      assert e in queue;
    }
    if metering[n - 1].id !in rated {
      assert metering[n - 1] in queue;
    }
  }

  /** Marking all queued entries empties the queue. */
  lemma {:induction false} MarkingAllDrains(metering: seq<MeteringEntry>, rated: set<int>, ids: set<int>, n: int)
    requires 0 <= n <= |metering| && AllAmong(Unrated(metering, rated, n), ids)
    ensures Unrated(metering, rated + ids, n) == []
    decreases n
  {
    if 0 < n {
      AllAmongShorter(metering, rated, ids, n);
      MarkingAllDrains(metering, rated, ids, n - 1);
    }
  }

  function Queue(db: Db): seq<MeteringEntry> {
    Unrated(db.metering, db.rated, |db.metering|)
  }

  lemma BatchShrinksQueue(db: Db, limit: nat, next: Db)
    requires 1 <= limit && Fetch(db, limit) != []
    requires next.metering == db.metering && next.rated == db.rated + IdSet(Fetch(db, limit))
    ensures |Queue(next)| < |Queue(db)|
    ensures |Fetch(db, limit)| < limit ==> Queue(next) == []
  {
    var es := Fetch(db, limit);
    assert es[0] in Queue(db) && es[0].id in IdSet(es);
    MarkingShrinks(db.metering, db.rated, IdSet(es), |db.metering|);
    if |es| < limit {
      assert es == Queue(db);
      MarkingAllDrains(db.metering, db.rated, IdSet(es), |db.metering|);
    }
  }

  lemma NothingToRate(db: Db, f: Charging, limit: nat, inserted: bool)
    requires Fetch(db, limit) == [] && 1 <= limit
    ensures Apply(db, Batch(f, limit, inserted)) == db && Queue(db) == []
  {
    assert db.rated + IdSet([]) == db.rated && db.costs + [] == db.costs;
  }

  lemma SameIds(es: seq<MeteringEntry>, ids: seq<int>)
    requires |ids| == |es| && forall i :: 0 <= i < |es| ==> ids[i] == es[i].id
    ensures (set i | 0 <= i < |ids| :: ids[i]) == IdSet(es)
  {
    assert forall i :: 0 <= i < |es| ==> ids[i] == es[i].id;
  }

  // ----- The store -----

  /** The metering log and the cost log. */
  class Store {
    var metering: seq<MeteringEntry>
    var rated: set<int>
    var costs: seq<CostEntry>

    function State(): Db
      reads this
    {
      Db(metering, rated, costs)
    }

    method UnratedMeteringEntries(limit: nat) returns (entries: seq<MeteringEntry>)
      ensures entries == Fetch(State(), limit)
    {
      entries := [];
      for i := 0 to |metering|
        invariant entries == Take(Unrated(metering, rated, i), limit)
      {
        if metering[i].id !in rated && |entries| < limit {
          entries := entries + [metering[i]];
        }
      }
    }

    method InsertCostEntryBatch(entries: seq<CostEntry>)
      modifies this`costs
      ensures costs == old(costs) + entries
    {
      costs := costs + entries;
    }

    method MarkMeteringEntriesRated(ids: seq<int>)
      modifies this`rated
      ensures rated == old(rated) + set i | 0 <= i < |ids| :: ids[i]
    {
      rated := rated + set i | 0 <= i < |ids| :: ids[i];
    }
  }

  // ----- The sweep -----

  /** What happens to one iteration of the sweep loop from outside. */
  datatype Weather = Fine | Cancelled | FetchFails | InsertFails

  /** The weather of iteration `i`; after the given prefix it is fine. */
  function WeatherAt(weather: seq<Weather>, i: nat): Weather {
    if i < |weather| then weather[i] else Fine
  }

  /** The steps are batches of one sweep. */
  ghost predicate BatchesOf(steps: seq<Step>, f: Charging, limit: nat) {
    forall i :: 0 <= i < |steps| ==> steps[i].Batch? && steps[i].f == f && steps[i].limit == limit
  }

  /** A sweep continues a run: batches taken from the state a run has reached lead to the state of the longer
      run, so everything proved of runs holds after every sweep. */
  lemma SweepContinuesRun(steps: seq<Step>, more: seq<Step>, next: Db)
    requires Leads(Apply, Exec(steps).db, more, next)
    ensures Exec(steps + more).db == next
  {
    ViewOfLongerRun(Advance, Apply, (r: Run) => r.db, START, steps, more);
  }

  class Engine {
    const store: Store
    const batch: nat

    constructor (store: Store, batchSize: int)
      ensures this.store == store && batch == (if batchSize <= 0 then 2000 else batchSize) && 1 <= batch
    {
      this.store := store;
      batch := if batchSize <= 0 then 2000 else batchSize;
    }

    /** One iteration of the sweep loop: it takes the batch step, and asks for another iteration only if
        the queue has become shorter. Without a failed insert it stops with an empty queue. */
    method RateNextBatch(f: Charging, inserts: bool) returns (rated: nat, more: bool)
      requires 1 <= batch
      modifies store`rated, store`costs
      ensures store.State() == Apply(old(store.State()), Batch(f, batch, inserts))
      ensures rated == |store.costs| - |old(store.costs)|
      ensures more ==> |Queue(store.State())| < |Queue(old(store.State()))|
      ensures !more && inserts ==> Queue(store.State()) == []
    {
      ghost var before := store.State();
      var entries := store.UnratedMeteringEntries(batch);
      if |entries| == 0 {
        NothingToRate(before, f, batch, inserts);
        return 0, false;
      }
      var costEntries, ratedIds := RateEntries(f, store.metering, entries);
      if |costEntries| > 0 {
        if !inserts {
          return 0, false;
        }
        store.InsertCostEntryBatch(costEntries);
      }
      store.MarkMeteringEntriesRated(ratedIds);
      SameIds(entries, ratedIds);
      BatchShrinksQueue(before, batch, store.State());
      rated, more := |costEntries|, |entries| >= batch;
    }

    /** One sweep with the active rates and the rule engine. The new state is that of a run of batches, and
        after a sweep without failure nothing is left unrated. */
    method Sweep(cal: Billing, rates: seq<Rate>, rule: MeteringEntry -> Option<real>, weather: seq<Weather>)
      returns (totalRated: nat, ghost steps: seq<Step>)
      requires 1 <= batch
      modifies store`rated, store`costs
      ensures BatchesOf(steps, ChargingOf(cal, Pricing(RateIndex(rates), rule)), batch)
      ensures Leads(Apply, old(store.State()), steps, store.State())
      ensures totalRated == |store.costs| - |old(store.costs)|
      ensures (forall i :: 0 <= i < |weather| ==> weather[i] == Fine) ==> Queue(store.State()) == []
    {
      var idx := BuildRateIndex(rates);
      var f := ChargingOf(cal, Pricing(idx, rule));
      ghost var start := store.State();
      totalRated, steps := 0, [];
      LeadsNowhere(Apply, start);
      var i := 0;
      var more := true;
      while more
        invariant BatchesOf(steps, f, batch)
        invariant Leads(Apply, start, steps, store.State())
        invariant totalRated == |store.costs| - |old(store.costs)|
        invariant more || Queue(store.State()) == [] || exists j :: 0 <= j < |weather| && weather[j] != Fine
        decreases more, |Queue(store.State())|
      {
        var now := WeatherAt(weather, i);
        i := i + 1;
        if now == Cancelled || now == FetchFails {
          break;
        }
        ghost var before := store.State();
        var rated;
        rated, more := RateNextBatch(f, now != InsertFails);
        LeadsOn(Apply, start, steps, before, Batch(f, batch, now != InsertFails), store.State());
        steps := steps + [Batch(f, batch, now != InsertFails)];
        totalRated := totalRated + rated;
      }
    }
  }
}
