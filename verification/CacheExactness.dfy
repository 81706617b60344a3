/** Exactly when the prior-usage cache of a batch agrees with the usage query.

    The window of an entry is chosen by the end of its metering period, but the query counts only periods that
    lie in the window as a whole. An entry that starts before its window is carried by the cache and missed by
    the query. */
module CacheExactness {
  import opened Options
  import opened Periods
  import opened Rating
  import opened RatingRuns
  import opened WindowBills

  /** The metering period of `e` starts before the window in which it ends. */
  predicate Straddles(cal: Billing, e: MeteringEntry, s: Scheme)
    requires Resolves(cal, s.period, e.periodEnd)
  {
    e.periodStart < cal.resolve(s.period, e.periodEnd).value.start
  }

  /** If `e` belongs to the meter, its period does not end before it starts. */
  predicate Proper(cal: Billing, e: MeteringEntry, s: Scheme) {
    Under(e, s) ==> Resolves(cal, s.period, e.periodEnd) && e.periodStart <= e.periodEnd
  }

  /** If both belong to the meter, `x` does not end after `y`. */
  predicate InTimeOrder(x: MeteringEntry, y: MeteringEntry, s: Scheme) {
    Under(x, s) && Under(y, s) ==> x.periodEnd <= y.periodEnd
  }

  /** A batch whose entries of the meter follow the scheme and come in time order. */
  ghost predicate Chronological(cal: Billing, f: Charging, es: seq<MeteringEntry>, s: Scheme) {
    && Tiles(cal) && AllFollow(cal, f, es, s) && LabelsFit(cal, es, s)
    && (forall i {:trigger Proper(cal, es[i], s)} :: 0 <= i < |es| ==> Proper(cal, es[i], s))
    && (forall i, j {:trigger InTimeOrder(es[i], es[j], s)} :: 0 <= i < j < |es| ==> InTimeOrder(es[i], es[j], s))
  }

  /** Entry `x` has usage, starts before its window, and shares the window with `y`. */
  predicate StraddlesInto(cal: Billing, x: MeteringEntry, y: MeteringEntry, s: Scheme) {
    && Under(x, s) && Under(y, s)
    && Resolves(cal, s.period, x.periodEnd) && Straddles(cal, x, s) && x.value != 0.0
    && cal.resolve(s.period, x.periodEnd) == cal.resolve(s.period, y.periodEnd)
  }

  /** Some entry with usage straddles the start of its window and is followed by another one of the window. */
  predicate HasStraddler(cal: Billing, es: seq<MeteringEntry>, s: Scheme) {
    exists i, j {:trigger StraddlesInto(cal, es[i], es[j], s)} ::
      0 <= i < j < |es| && StraddlesInto(cal, es[i], es[j], s)
  }

  /** The cache gives entry `j` of the batch the prior usage the query gives it. */
  predicate CacheAgrees(f: Charging, log: seq<MeteringEntry>, es: seq<MeteringEntry>, s: Scheme, j: int)
    requires 0 <= j < |es|
  {
    Under(es[j], s) ==> PriorAt(f, log, es, j) == QueriedPrior(f, log, es[j])
  }

  lemma ChronologicalPair(cal: Billing, f: Charging, x: MeteringEntry, y: MeteringEntry, s: Scheme)
    requires Tiles(cal) && Follows(cal, f, x, s) && Follows(cal, f, y, s) && Under(x, s) && Under(y, s)
    requires Proper(cal, x, s) && Proper(cal, y, s) && InTimeOrder(x, y, s) && SameLabelSameWindow(cal, x, y, s)
    ensures StraddlesInto(cal, x, y, s) || CoherentPair(f, x, y)
  {
    assert ProperWindow(cal, s.period, x.periodEnd) && ProperWindow(cal, s.period, y.periodEnd);
    assert Resolves(cal, s.period, x.periodEnd) && Resolves(cal, s.period, y.periodEnd);
  }

  lemma CoherentWithoutStraddler(cal: Billing, f: Charging, es: seq<MeteringEntry>, s: Scheme)
    requires Chronological(cal, f, es, s) && !HasStraddler(cal, es, s)
    ensures Coherent(f, es, s.tenant, s.meter)
  {
    forall i | 0 <= i < |es| ensures OwnKey(f, es[i]) {
      assert Follows(cal, f, es[i], s);
    }
    forall i, j | 0 <= i < j < |es| && Of(es[i], s.tenant, s.meter) && Of(es[j], s.tenant, s.meter)
      ensures CoherentPair(f, es[i], es[j])
    {
      assert Follows(cal, f, es[i], s) && Follows(cal, f, es[j], s) && SameLabelSameWindow(cal, es[i], es[j], s);
      assert Proper(cal, es[i], s) && Proper(cal, es[j], s) && InTimeOrder(es[i], es[j], s);
      assert !StraddlesInto(cal, es[i], es[j], s);
      ChronologicalPair(cal, f, es[i], es[j], s);
    }
  }

  lemma AgreesWithoutStraddler(cal: Billing, f: Charging, log: seq<MeteringEntry>, k: int, es: seq<MeteringEntry>,
                               s: Scheme, j: int)
    requires IncreasingIds(log) && IsStretch(log, k, es) && Chronological(cal, f, es, s)
    requires !HasStraddler(cal, es, s) && 0 <= j < |es|
    ensures CacheAgrees(f, log, es, s, j)
  {
    if Under(es[j], s) {
      CoherentWithoutStraddler(cal, f, es, s);
      assert Follows(cal, f, es[j], s);
      CacheRefinesQuery(f, log, s.tenant, s.meter, k, es, j);
    }
  }

  // ----- A straddler misleads the next entry of the meter -----

  /** The first entry of the meter after `i`. */
  lemma {:induction false} NextOfMeter(es: seq<MeteringEntry>, s: Scheme, i: int, j: int) returns (m: int)
    requires 0 <= i < j < |es| && Under(es[j], s)
    ensures i < m <= j && Under(es[m], s) && forall x :: i < x < m ==> !Under(es[x], s)
    decreases j
  {
    if x :| i < x < j && Under(es[x], s) {
      m := NextOfMeter(es, s, i, x);
    } else {
      m := j;
    }
  }

  /** Entries of other meters do not touch the cached value. */
  lemma {:induction false} CacheKept(f: Charging, log: seq<MeteringEntry>, es: seq<MeteringEntry>, s: Scheme,
                                     key: AccumKey, i: int, m: int)
    requires 0 <= i <= m <= |es| && key.tenant == s.tenant && key.meter == s.meter
    requires forall x :: i <= x < m ==> !Under(es[x], s) && OwnKey(f, es[x])
    requires key in CacheAfter(f, log, es, i)
    ensures key in CacheAfter(f, log, es, m) && CacheAfter(f, log, es, m)[key] == CacheAfter(f, log, es, i)[key]
    decreases m
  {
    if i < m {
      CacheKept(f, log, es, s, key, i, m - 1);
      assert !Under(es[m - 1], s) && OwnKey(f, es[m - 1]);
    }
  }

  lemma {:induction false} SumKept(log: seq<MeteringEntry>, s: Scheme, w: Window, i: int, m: int)
    requires 0 <= i <= m <= |log| && forall x :: i <= x < m ==> !Under(log[x], s)
    ensures MeteringSum(log, m, s.tenant, s.meter, w) == MeteringSum(log, i, s.tenant, s.meter, w)
    decreases m
  {
    if i < m {
      SumKept(log, s, w, i, m - 1);
      assert !Under(log[m - 1], s);
    }
  }

  lemma QueriedIsPrefixSum(f: Charging, log: seq<MeteringEntry>, s: Scheme, i: int)
    requires IncreasingIds(log) && 0 <= i < |log| && Under(log[i], s) && f(log[i]).Cumulative?
    ensures QueriedPrior(f, log, log[i]) == MeteringSum(log, i, s.tenant, s.meter, f(log[i]).window)
  {
    SumBeforeIsPrefixSum(log, |log|, s.tenant, s.meter, f(log[i]).window, i);
  }

  /** Between the straddler and a later entry of its window, time order keeps the window. */
  lemma StaysInWindow(cal: Billing, x: MeteringEntry, m: MeteringEntry, y: MeteringEntry, s: Scheme)
    requires Tiles(cal) && Under(x, s) && Under(m, s) && Under(y, s)
    requires Proper(cal, x, s) && Proper(cal, m, s) && Proper(cal, y, s)
    requires x.periodEnd <= m.periodEnd <= y.periodEnd
    requires cal.resolve(s.period, x.periodEnd) == cal.resolve(s.period, y.periodEnd)
    ensures cal.resolve(s.period, m.periodEnd) == cal.resolve(s.period, x.periodEnd)
  {
    assert ProperWindow(cal, s.period, x.periodEnd) && ProperWindow(cal, s.period, y.periodEnd);
    assert Resolves(cal, s.period, x.periodEnd) && Resolves(cal, s.period, y.periodEnd);
    assert Resolves(cal, s.period, m.periodEnd);
  }

  lemma QueryMissesStraddler(f: Charging, log: seq<MeteringEntry>, s: Scheme, i: int, m: int)
    requires IncreasingIds(log) && 0 <= i < m < |log| && Under(log[i], s) && Under(log[m], s)
    requires forall x :: i < x < m ==> !Under(log[x], s)
    requires f(log[i]).Cumulative? && f(log[m]).Cumulative? && f(log[i]).window == f(log[m]).window
    requires !Counted(log[i], f(log[i]).window)
    ensures QueriedPrior(f, log, log[m]) == QueriedPrior(f, log, log[i])
  {
    QueriedIsPrefixSum(f, log, s, i);
    QueriedIsPrefixSum(f, log, s, m);
    SumKept(log, s, f(log[i]).window, i + 1, m);
  }

  /** After straddler `i`, the next entry of the window finds the usage of `i` in the cache only. */
  lemma CacheCarriesStraddler(f: Charging, log: seq<MeteringEntry>, k: int, es: seq<MeteringEntry>, s: Scheme, i: int,
                              m: int)
    requires IncreasingIds(log) && IsStretch(log, k, es) && 0 <= i < m < |es| && Under(es[i], s) && Under(es[m], s)
    requires forall x :: i < x < m ==> !Under(es[x], s) && OwnKey(f, es[x])
    requires f(es[i]).Cumulative? && f(es[m]).Cumulative? && OwnKey(f, es[i])
    requires f(es[i]).key == f(es[m]).key && f(es[i]).window == f(es[m]).window
    requires !Counted(es[i], f(es[i]).window)
    ensures PriorAt(f, log, es, m) == PriorAt(f, log, es, i) + es[i].value
    ensures QueriedPrior(f, log, es[m]) == QueriedPrior(f, log, es[i])
  {
    CacheKept(f, log, es, s, f(es[i]).key, i + 1, m);
    assert es[i] == log[k + i] && es[m] == log[k + m];
    forall x | k + i < x < k + m ensures !Under(log[x], s) {
      assert es[x - k] == log[x];
    }
    QueryMissesStraddler(f, log, s, k + i, k + m);
  }

  lemma DisagreesAfterStraddler(cal: Billing, f: Charging, log: seq<MeteringEntry>, k: int, es: seq<MeteringEntry>,
                                s: Scheme, i: int, j: int) returns (m: int)
    requires IncreasingIds(log) && IsStretch(log, k, es) && Chronological(cal, f, es, s)
    requires 0 <= i < j < |es| && StraddlesInto(cal, es[i], es[j], s)
    ensures i < m <= j && !(CacheAgrees(f, log, es, s, i) && CacheAgrees(f, log, es, s, m))
  {
    m := NextOfMeter(es, s, i, j);
    assert Follows(cal, f, es[i], s) && Follows(cal, f, es[m], s) && SameLabelSameWindow(cal, es[i], es[m], s);
    assert Proper(cal, es[i], s) && Proper(cal, es[m], s) && Proper(cal, es[j], s);
    assert InTimeOrder(es[i], es[m], s);
    if m < j { assert InTimeOrder(es[m], es[j], s); }
    StaysInWindow(cal, es[i], es[m], es[j], s);
    forall x | i < x < m ensures OwnKey(f, es[x]) {
      assert Follows(cal, f, es[x], s);
    }
    CacheCarriesStraddler(f, log, k, es, s, i, m);
  }

  /** For every batch, wherever it lies in the log, whose entries come in time order: the cache gives every entry
      of the meter what the query gives it if and only if no entry with usage straddles the start of its window
      before another entry of that window in the batch. */
  lemma CacheAgreesIffNoStraddler(cal: Billing, f: Charging, log: seq<MeteringEntry>, k: int, es: seq<MeteringEntry>,
                                  s: Scheme)
    requires IncreasingIds(log) && IsStretch(log, k, es) && Chronological(cal, f, es, s)
    ensures (forall j {:trigger CacheAgrees(f, log, es, s, j)} :: 0 <= j < |es| ==> CacheAgrees(f, log, es, s, j)) <==>
            !HasStraddler(cal, es, s)
  {
    if HasStraddler(cal, es, s) {
      var i, j :| 0 <= i < j < |es| && StraddlesInto(cal, es[i], es[j], s);
      var m := DisagreesAfterStraddler(cal, f, log, k, es, s, i, j);
      assert CacheAgrees(f, log, es, s, i) ==> !CacheAgrees(f, log, es, s, m);
    } else {
      forall j | 0 <= j < |es| ensures CacheAgrees(f, log, es, s, j) {
        AgreesWithoutStraddler(cal, f, log, k, es, s, j);
      }
    }
  }

  // ----- What any batch bills, straddlers or not -----

  /** In time order, an entry of an earlier window is not counted into a later one. */
  lemma EarlierWindowNotCounted(cal: Billing, x: MeteringEntry, y: MeteringEntry, s: Scheme, w: Window)
    requires Tiles(cal) && Under(x, s) && Under(y, s) && Proper(cal, x, s) && Proper(cal, y, s) && InTimeOrder(x, y, s)
    requires InWindow(cal, y, s, w) && !InWindow(cal, x, s, w)
    ensures !Counted(x, w)
  {
    assert ProperWindow(cal, s.period, x.periodEnd) && ProperWindow(cal, s.period, y.periodEnd);
    assert Resolves(cal, s.period, x.periodEnd) && Resolves(cal, s.period, y.periodEnd);
  }

  /** Until an entry of the window has come, nothing of the batch is counted into it. */
  lemma {:induction false} NothingCountedYet(cal: Billing, f: Charging, log: seq<MeteringEntry>, k: int,
                                             es: seq<MeteringEntry>, s: Scheme, w: Window, j: int, m: int)
    requires IsStretch(log, k, es) && Chronological(cal, f, es, s) && 0 <= j <= m < |es| && InWindow(cal, es[m], s, w)
    requires forall i :: 0 <= i < j ==> !InWindow(cal, es[i], s, w)
    ensures MeteringSum(log, k + j, s.tenant, s.meter, w) == MeteringSum(log, k, s.tenant, s.meter, w)
    decreases j
  {
    if 0 < j {
      NothingCountedYet(cal, f, log, k, es, s, w, j - 1, m);
      var x := es[j - 1];
      assert x == log[k + j - 1];
      if Under(x, s) {
        assert Proper(cal, es[j - 1], s) && Proper(cal, es[m], s) && InTimeOrder(es[j - 1], es[m], s);
        EarlierWindowNotCounted(cal, x, es[m], s, w);
      }
    }
  }

  /** What the cache, after `j` entries, holds for entry `m`: the usage counted before the batch plus that of the
      batch in its window; or nothing, if no entry of the window has come. */
  predicate Carries(cal: Billing, f: Charging, log: seq<MeteringEntry>, k: int, es: seq<MeteringEntry>, s: Scheme,
                    cache: Cache, j: int, m: int)
    requires IsStretch(log, k, es) && 0 <= j <= |es| && 0 <= m < |es|
  {
    Under(es[m], s) && f(es[m]).Cumulative? ==>
      var w, key := f(es[m]).window, f(es[m]).key;
      if key in cache
      then cache[key] == MeteringSum(log, k, s.tenant, s.meter, w) + WindowUsage(cal, es, j, s, w)
      else forall i :: 0 <= i < j ==> !InWindow(cal, es[i], s, w)
  }

  lemma {:induction false} NoUsageYet(cal: Billing, es: seq<MeteringEntry>, j: int, s: Scheme, w: Window)
    requires 0 <= j <= |es| && forall i :: 0 <= i < j ==> !InWindow(cal, es[i], s, w)
    ensures WindowUsage(cal, es, j, s, w) == 0.0
    decreases j
  {
    if 0 < j {
      NoUsageYet(cal, es, j - 1, s, w);
    }
  }

  lemma PriorIsCarried(cal: Billing, f: Charging, log: seq<MeteringEntry>, k: int, es: seq<MeteringEntry>, s: Scheme,
                       cache: Cache, j: int)
    requires IncreasingIds(log) && IsStretch(log, k, es) && Chronological(cal, f, es, s) && 0 <= j < |es|
    requires Under(es[j], s) && Carries(cal, f, log, k, es, s, cache, j, j)
    ensures f(es[j]).Cumulative?
    ensures UsedPrior(f, log, cache, es[j]) ==
            MeteringSum(log, k, s.tenant, s.meter, f(es[j]).window) + WindowUsage(cal, es, j, s, f(es[j]).window)
  {
    assert Follows(cal, f, es[j], s);
    var w := f(es[j]).window;
    if f(es[j]).key !in cache {
      assert es[j] == log[k + j];
      QueriedIsPrefixSum(f, log, s, k + j);
      NothingCountedYet(cal, f, log, k, es, s, w, j, j);
      NoUsageYet(cal, es, j, s, w);
    }
  }

  lemma CarriesStep(cal: Billing, f: Charging, log: seq<MeteringEntry>, k: int, es: seq<MeteringEntry>, s: Scheme,
                    cache: Cache, j: int, m: int)
    requires IncreasingIds(log) && IsStretch(log, k, es) && Chronological(cal, f, es, s) && 0 <= j < m < |es|
    requires Carries(cal, f, log, k, es, s, cache, j, j) && Carries(cal, f, log, k, es, s, cache, j, m)
    ensures Carries(cal, f, log, k, es, s, NextCache(f, log, cache, es[j]), j + 1, m)
  {
    assert Follows(cal, f, es[j], s) && Follows(cal, f, es[m], s) && SameLabelSameWindow(cal, es[j], es[m], s);
    if Under(es[j], s) {
      PriorIsCarried(cal, f, log, k, es, s, cache, j);
    }
  }

  lemma {:induction false} CarriesAlong(cal: Billing, f: Charging, log: seq<MeteringEntry>, k: int,
                                        es: seq<MeteringEntry>, s: Scheme, j: int, m: int)
    requires IncreasingIds(log) && IsStretch(log, k, es) && Chronological(cal, f, es, s) && 0 <= j <= m < |es|
    ensures Carries(cal, f, log, k, es, s, CacheAfter(f, log, es, j), j, m)
    decreases j
  {
    if 0 < j {
      CarriesAlong(cal, f, log, k, es, s, j - 1, j - 1);
      CarriesAlong(cal, f, log, k, es, s, j - 1, m);
      CarriesStep(cal, f, log, k, es, s, CacheAfter(f, log, es, j - 1), j - 1, m);
    }
  }

  lemma EntryBill(cal: Billing, f: Charging, log: seq<MeteringEntry>, k: int, es: seq<MeteringEntry>, s: Scheme,
                  w: Window, j: int)
    requires IncreasingIds(log) && IsStretch(log, k, es) && Chronological(cal, f, es, s) && 0 <= j < |es|
    ensures var counted := MeteringSum(log, k, s.tenant, s.meter, w);
            EntryCost(cal, f, es[j], PriorAt(f, log, es, j), s, w) ==
            s.bill(counted + WindowUsage(cal, es, j + 1, s, w)) - s.bill(counted + WindowUsage(cal, es, j, s, w))
  {
    assert Follows(cal, f, es[j], s);
    EntryCostIsIncrement(cal, f, es[j], PriorAt(f, log, es, j), s, w);
    if InWindow(cal, es[j], s, w) {
      CarriesAlong(cal, f, log, k, es, s, j, j);
      PriorIsCarried(cal, f, log, k, es, s, CacheAfter(f, log, es, j), j);
      RegroupUsage(MeteringSum(log, k, s.tenant, s.meter, w), WindowUsage(cal, es, j, s, w), es[j].value);
    }
  }

  lemma RegroupUsage(a: real, b: real, c: real)
    ensures a + b + c == a + (b + c)
  {
  }

  /** For every batch in time order, straddlers or not: what it costs a window is the increment of the schedule
      from the usage the query counts before the batch, over the usage of the batch in the window. */
  lemma {:induction false} BatchBill(cal: Billing, f: Charging, log: seq<MeteringEntry>, k: int, es: seq<MeteringEntry>,
                                     s: Scheme, w: Window, j: int)
    requires IncreasingIds(log) && IsStretch(log, k, es) && Chronological(cal, f, es, s) && 0 <= j <= |es|
    ensures var counted := MeteringSum(log, k, s.tenant, s.meter, w);
            WindowCost(cal, BatchCosts(f, log, es, j), |BatchCosts(f, log, es, j)|, s, w) ==
            s.bill(counted + WindowUsage(cal, es, j, s, w)) - s.bill(counted)
    decreases j
  {
    if 0 < j {
      var i := j - 1;
      BatchBill(cal, f, log, k, es, s, w, i);
      EntryBill(cal, f, log, k, es, s, w, i);
      AppendCost(cal, BatchCosts(f, log, es, i), BatchCosts(f, log, es, j), f, es[i], PriorAt(f, log, es, i), s, w);
    }
  }

  // ----- With a straddler the bill depends on the batch size -----

  function BillOf(cal: Billing, costs: seq<CostEntry>, s: Scheme, w: Window): real {
    WindowCost(cal, costs, |costs|, s, w)
  }

  lemma ChronologicalStretch(cal: Billing, f: Charging, log: seq<MeteringEntry>, s: Scheme, k: int,
                             es: seq<MeteringEntry>)
    requires Chronological(cal, f, log, s) && IsStretch(log, k, es)
    ensures Chronological(cal, f, es, s)
  {
    forall i | 0 <= i < |es| ensures Follows(cal, f, es[i], s) && Proper(cal, es[i], s) {
      assert Follows(cal, f, log[k + i], s) && Proper(cal, log[k + i], s);
    }
    forall i, j | 0 <= i < j < |es| ensures SameLabelSameWindow(cal, es[i], es[j], s) && InTimeOrder(es[i], es[j], s) {
      assert es[i] == log[k + i] && es[j] == log[k + j];
      assert SameLabelSameWindow(cal, log[k + i], log[k + j], s) && InTimeOrder(log[k + i], log[k + j], s);
    }
  }

  lemma StretchBill(cal: Billing, f: Charging, log: seq<MeteringEntry>, s: Scheme, w: Window, k: int,
                    es: seq<MeteringEntry>)
    requires IncreasingIds(log) && Chronological(cal, f, log, s) && IsStretch(log, k, es)
    ensures var counted := MeteringSum(log, k, s.tenant, s.meter, w);
            BillOf(cal, RateBatch(f, log, es), s, w) ==
              s.bill(counted + WindowUsage(cal, es, |es|, s, w)) - s.bill(counted)
  {
    ChronologicalStretch(cal, f, log, s, k, es);
    BatchBill(cal, f, log, k, es, s, w, |es|);
  }

  lemma WholeBill(cal: Billing, f: Charging, log: seq<MeteringEntry>, s: Scheme, w: Window, es: seq<MeteringEntry>)
    returns (bill: real)
    requires IncreasingIds(log) && Chronological(cal, f, log, s) && IsStretch(log, 0, es) && s.bill(0.0) == 0.0
    ensures bill == BillOf(cal, RateBatch(f, log, es), s, w) == s.bill(WindowUsage(cal, es, |es|, s, w))
  {
    StretchBill(cal, f, log, s, w, 0, es);
    bill := BillOf(cal, RateBatch(f, log, es), s, w);
    assert 0.0 + WindowUsage(cal, es, |es|, s, w) == WindowUsage(cal, es, |es|, s, w);
  }

  /** For every log in time order and every way to split it in two: rated in one batch, a window is billed for all
      its usage; rated in two, the second batch is priced on top of the usage that the query counts in the first,
      which leaves out what straddles the start of the window. */
  lemma BillDependsOnTheSplit(cal: Billing, f: Charging, log: seq<MeteringEntry>, s: Scheme, w: Window,
                              first: seq<MeteringEntry>, rest: seq<MeteringEntry>)
    returns (whole: real, one: real, two: real)
    requires IncreasingIds(log) && Chronological(cal, f, log, s) && s.bill(0.0) == 0.0
    requires IsStretch(log, 0, first) && IsStretch(log, |first|, rest) && |first| + |rest| == |log|
    ensures whole == BillOf(cal, RateBatch(f, log, log), s, w) == s.bill(WindowUsage(cal, log, |log|, s, w))
    ensures one == BillOf(cal, RateBatch(f, log, first), s, w) == s.bill(WindowUsage(cal, first, |first|, s, w))
    ensures two == BillOf(cal, RateBatch(f, log, rest), s, w)
    ensures var counted := MeteringSum(log, |first|, s.tenant, s.meter, w);
            two == s.bill(counted + WindowUsage(cal, rest, |rest|, s, w)) - s.bill(counted)
  {
    whole := WholeBill(cal, f, log, s, w, log);
    one := WholeBill(cal, f, log, s, w, first);
    StretchBill(cal, f, log, s, w, |first|, rest);
    two := BillOf(cal, RateBatch(f, log, rest), s, w);
  }
}
