/** Threshold alerts: each fires once per billing window. */
module Alerts {
  import opened Options
  import opened Periods
  import opened Labels
  import opened Rating
  import CivilBills

  datatype Quota = Quota(tenant: string, meter: string, period: string, limit: real, thresholds: seq<real>)

  /** A quota and what was consumed in its current window; absent when the query failed. */
  datatype Reading = Reading(quota: Quota, consumed: Option<real>)

  /** One threshold evaluation. */
  datatype Evaluation = Evaluation(now: Instant, readings: seq<Reading>)

  datatype AlertKey = AlertKey(tenant: string, meter: string, threshold: real, period: string)

  datatype Alert = Alert(key: AlertKey, consumed: real, limit: real)

  function QuotaPeriod(q: Quota): string {
    if q.period == "" then "monthly" else q.period
  }

  const THRESHOLD_LEVELS: seq<real> := [50.0, 70.0, 90.0, 100.0]

  function Levels(q: Quota): seq<real> {
    if |q.thresholds| > 0 then q.thresholds else THRESHOLD_LEVELS
  }

  /** Readings without consumption or without a limit are passed over. */
  predicate Counts(cal: Billing, now: Instant, r: Reading) {
    cal.resolve(QuotaPeriod(r.quota), now).Some? && r.consumed.Some? && r.consumed.value != 0.0 && r.quota.limit > 0.0
  }

  /** The percentage of the limit consumed reaches the threshold. */
  predicate Reaches(consumed: real, limit: real, threshold: real)
    requires limit > 0.0
  {
    consumed / limit * 100.0 >= threshold
  }

  lemma ScaleUp(x: real, y: real, limit: real)
    requires limit > 0.0
    ensures x >= y <==> x * limit >= y * limit
  {
  }

  /** Without division: a hundred times the consumption is at least the threshold times the limit. */
  lemma ReachesMeansShare(consumed: real, limit: real, threshold: real)
    requires limit > 0.0
    ensures Reaches(consumed, limit, threshold) <==> 100.0 * consumed >= threshold * limit
  {
    var share := consumed / limit;
    assert share * limit == consumed;
    ScaleUp(share * 100.0, threshold, limit);
    assert share * 100.0 * limit == 100.0 * (share * limit);
  }

  function KeyCount(alerts: seq<Alert>, k: AlertKey, n: int): nat
    requires 0 <= n <= |alerts|
    decreases n
  {
    if n == 0 then 0 else KeyCount(alerts, k, n - 1) + if alerts[n - 1].key == k then 1 else 0
  }

  function Count(alerts: seq<Alert>, k: AlertKey): nat {
    KeyCount(alerts, k, |alerts|)
  }

  /** The unique constraint of the alert table: a second alert with the same key is dropped. */
  function Insert(alerts: seq<Alert>, a: Alert): seq<Alert> {
    if Count(alerts, a.key) == 0 then alerts + [a] else alerts
  }

  function AlertFor(cal: Billing, now: Instant, r: Reading, threshold: real): Alert
    requires Counts(cal, now, r)
  {
    var q := r.quota;
    Alert(AlertKey(q.tenant, q.meter, threshold, cal.labelOf(QuotaPeriod(q), now)), r.consumed.value, q.limit)
  }

  /** The table after the first `n` levels of a reading. */
  function AfterLevels(cal: Billing, alerts: seq<Alert>, now: Instant, r: Reading, n: int): seq<Alert>
    requires Counts(cal, now, r) && 0 <= n <= |Levels(r.quota)|
    decreases n
  {
    if n == 0 then alerts
    else
      var before := AfterLevels(cal, alerts, now, r, n - 1);
      var threshold := Levels(r.quota)[n - 1];
      if Reaches(r.consumed.value, r.quota.limit, threshold)
      then Insert(before, AlertFor(cal, now, r, threshold)) else before
  }

  /** The table after the first `n` readings of an evaluation. */
  function AfterReadings(cal: Billing, alerts: seq<Alert>, ev: Evaluation, n: int): seq<Alert>
    requires 0 <= n <= |ev.readings|
    decreases n
  {
    if n == 0 then alerts
    else
      var before, r := AfterReadings(cal, alerts, ev, n - 1), ev.readings[n - 1];
      if Counts(cal, ev.now, r) then AfterLevels(cal, before, ev.now, r, |Levels(r.quota)|) else before
  }

  /** The table after the first `n` evaluations. */
  function AfterEvaluations(cal: Billing, evs: seq<Evaluation>, n: int): seq<Alert>
    requires 0 <= n <= |evs|
    decreases n
  {
    if n == 0 then [] else AfterReadings(cal, AfterEvaluations(cal, evs, n - 1), evs[n - 1], |evs[n - 1].readings|)
  }

  // ----- Which alerts exist -----

  /** The reading calls for an alert with key `k` at one of its first `n` levels. */
  predicate Breaches(cal: Billing, now: Instant, r: Reading, k: AlertKey, n: int)
    requires 0 <= n <= |Levels(r.quota)|
  {
    && Counts(cal, now, r)
    && k.tenant == r.quota.tenant && k.meter == r.quota.meter && k.period == cal.labelOf(QuotaPeriod(r.quota), now)
    && k.threshold in Levels(r.quota)[..n] && Reaches(r.consumed.value, r.quota.limit, k.threshold)
  }

  /** Some reading of the evaluation calls for the alert. */
  predicate Fires(cal: Billing, ev: Evaluation, k: AlertKey, n: int)
    requires 0 <= n <= |ev.readings|
  {
    exists i :: 0 <= i < n && Breaches(cal, ev.now, ev.readings[i], k, |Levels(ev.readings[i].quota)|)
  }

  predicate EverFires(cal: Billing, evs: seq<Evaluation>, k: AlertKey, n: int)
    requires 0 <= n <= |evs|
  {
    exists i :: 0 <= i < n && Fires(cal, evs[i], k, |evs[i].readings|)
  }

  lemma {:induction false} KeyCountOfPrefix(alerts: seq<Alert>, more: seq<Alert>, k: AlertKey, n: int)
    requires 0 <= n <= |alerts| && alerts <= more
    ensures KeyCount(more, k, n) == KeyCount(alerts, k, n)
    decreases n
  {
    if 0 < n {
      KeyCountOfPrefix(alerts, more, k, n - 1);
    }
  }

  lemma InsertCount(alerts: seq<Alert>, a: Alert, k: AlertKey)
    ensures Count(Insert(alerts, a), k) == if a.key == k && Count(alerts, k) == 0 then 1 else Count(alerts, k)
  {
    if Count(alerts, a.key) == 0 {
      KeyCountOfPrefix(alerts, alerts + [a], k, |alerts|);
    }
  }

  lemma {:induction false} LevelsCount(cal: Billing, alerts: seq<Alert>, now: Instant, r: Reading, k: AlertKey, n: int)
    requires Counts(cal, now, r) && 0 <= n <= |Levels(r.quota)|
    ensures Count(AfterLevels(cal, alerts, now, r, n), k) ==
            if Breaches(cal, now, r, k, n) && Count(alerts, k) == 0 then 1 else Count(alerts, k)
    decreases n
  {
    if 0 < n {
      LevelsCount(cal, alerts, now, r, k, n - 1);
      var threshold := Levels(r.quota)[n - 1];
      var before := AfterLevels(cal, alerts, now, r, n - 1);
      InsertCount(before, AlertFor(cal, now, r, threshold), k);
      assert Levels(r.quota)[..n] == Levels(r.quota)[..n - 1] + [threshold];
    }
  }

  lemma FiresNext(cal: Billing, ev: Evaluation, k: AlertKey, n: int)
    requires 0 < n <= |ev.readings|
    ensures Fires(cal, ev, k, n) <==>
            Fires(cal, ev, k, n - 1) || Breaches(cal, ev.now, ev.readings[n - 1], k, |Levels(ev.readings[n - 1].quota)|)
  {
  }

  lemma {:induction false} ReadingsCount(cal: Billing, alerts: seq<Alert>, ev: Evaluation, k: AlertKey, n: int)
    requires 0 <= n <= |ev.readings|
    ensures Count(AfterReadings(cal, alerts, ev, n), k) ==
            if Fires(cal, ev, k, n) && Count(alerts, k) == 0 then 1 else Count(alerts, k)
    decreases n
  {
    if 0 < n {
      ReadingsCount(cal, alerts, ev, k, n - 1);
      var r := ev.readings[n - 1];
      if Counts(cal, ev.now, r) {
        LevelsCount(cal, AfterReadings(cal, alerts, ev, n - 1), ev.now, r, k, |Levels(r.quota)|);
      }
      FiresNext(cal, ev, k, n);
    }
  }

  /** Over any run of evaluations, an alert exists exactly once if some evaluation called for it, else not at all. */
  lemma {:induction false} AlertExistsIffFired(cal: Billing, evs: seq<Evaluation>, k: AlertKey, n: int)
    requires 0 <= n <= |evs|
    ensures Count(AfterEvaluations(cal, evs, n), k) == if EverFires(cal, evs, k, n) then 1 else 0
    decreases n
  {
    if 0 < n {
      AlertExistsIffFired(cal, evs, k, n - 1);
      ReadingsCount(cal, AfterEvaluations(cal, evs, n - 1), evs[n - 1], k, |evs[n - 1].readings|);
      assert EverFires(cal, evs, k, n) <==>
        EverFires(cal, evs, k, n - 1) || Fires(cal, evs[n - 1], k, |evs[n - 1].readings|);
    }
  }

  // ----- Alerts by window -----

  /** The tenant and meter have one quota, with period `period`, monthly if it names none, read in windows of
      four-digit years. */
  ghost predicate OneQuota(evs: seq<Evaluation>, tenant: string, meter: string, period: string) {
    forall i, j :: 0 <= i < |evs| && 0 <= j < |evs[i].readings| ==>
      var q := evs[i].readings[j].quota;
      q.tenant == tenant && q.meter == meter ==>
        (if q.period == "" then "monthly" else q.period) == period &&
        match ResolvePeriod(period, evs[i].now)
        case Ok(v) => FourDigit(v)
        case Err(_) => true
  }

  /** The threshold is one of the quota's own, or one of 50, 70, 90 and 100 if it has none. */
  predicate IsLevel(q: Quota, threshold: real) {
    if q.thresholds == [] then threshold == 50.0 || threshold == 70.0 || threshold == 90.0 || threshold == 100.0
    else threshold in q.thresholds
  }

  /** A consumption other than zero was read, and it is at least the threshold in percent of a positive limit. */
  predicate Crosses(r: Reading, threshold: real) {
    && r.consumed.Some? && r.consumed.value != 0.0 && r.quota.limit > 0.0
    && 100.0 * r.consumed.value >= threshold * r.quota.limit
  }

  /** The reading is of this tenant and meter and crosses one of its thresholds. */
  predicate Over(r: Reading, tenant: string, meter: string, threshold: real) {
    r.quota.tenant == tenant && r.quota.meter == meter && IsLevel(r.quota, threshold) && Crosses(r, threshold)
  }

  /** The instant is in the window of `ref`, or in the one week that is written like it. */
  ghost predicate SharesLabel(period: string, ref: Instant, w: Window, now: Instant) {
    w.Contains(now) || LabelsCollide(period, now, ref)
  }

  /** Some evaluation at such an instant saw the threshold reached. */
  ghost predicate SeenIn(evs: seq<Evaluation>, period: string, ref: Instant, w: Window,
                         tenant: string, meter: string, threshold: real) {
    exists i, j :: 0 <= i < |evs| && 0 <= j < |evs[i].readings| && SharesLabel(period, ref, w, evs[i].now) &&
                   Over(evs[i].readings[j], tenant, meter, threshold)
  }

  /** An instant has the label of `ref` if and only if it is in the window of `ref` or in the week written like it. */
  lemma LabelMeansWindow(period: string, ref: Instant, w: Window, now: Instant)
    requires ResolvePeriod(period, ref) == Ok(w) && FourDigit(w)
    requires match ResolvePeriod(period, now) case Ok(v) => FourDigit(v) case Err(_) => true
    ensures SharesLabel(period, ref, w, now) <==> PeriodLabel(period, now) == PeriodLabel(period, ref)
  {
    ParsedInRange(period);
    var v := ResolvePeriod(period, now).value;
    WindowsTileTime(period, ref, w);
    WindowsTileTime(period, now, v);
    LabelsSharedExactly(period, now, ref, v, w);
  }

  lemma LevelsAre(q: Quota, threshold: real)
    ensures threshold in Levels(q)[..|Levels(q)|] <==> IsLevel(q, threshold)
  {
    assert Levels(q)[..|Levels(q)|] == Levels(q);
  }

  lemma CrossesIff(r: Reading, threshold: real)
    ensures Crosses(r, threshold) <==> r.consumed.Some? && r.consumed.value != 0.0 && r.quota.limit > 0.0 &&
                                       Reaches(r.consumed.value, r.quota.limit, threshold)
  {
    if r.consumed.Some? && r.quota.limit > 0.0 {
      ReachesMeansShare(r.consumed.value, r.quota.limit, threshold);
    }
  }

  /** A reading at an instant of the window calls for the alert if and only if it crosses the threshold. */
  lemma BreachesIffOver(cal: Billing, now: Instant, r: Reading, k: AlertKey, period: string)
    requires (if r.quota.period == "" then "monthly" else r.quota.period) == period
    requires cal.resolve(period, now).Some? && k.period == cal.labelOf(period, now)
    ensures Breaches(cal, now, r, k, |Levels(r.quota)|) <==> Over(r, k.tenant, k.meter, k.threshold)
  {
    LevelsAre(r.quota, k.threshold);
    CrossesIff(r, k.threshold);
  }

  lemma ReadingSeen(cal: Billing, now: Instant, r: Reading, k: AlertKey, period: string, ref: Instant, w: Window)
    requires cal == CivilBills.Civil() && ResolvePeriod(period, ref) == Ok(w) && FourDigit(w)
    requires k.period == PeriodLabel(period, ref)
    requires r.quota.tenant == k.tenant && r.quota.meter == k.meter ==>
               (if r.quota.period == "" then "monthly" else r.quota.period) == period &&
               match ResolvePeriod(period, now) case Ok(v) => FourDigit(v) case Err(_) => true
    ensures Breaches(cal, now, r, k, |Levels(r.quota)|) <==>
            SharesLabel(period, ref, w, now) && Over(r, k.tenant, k.meter, k.threshold)
  {
    if r.quota.tenant == k.tenant && r.quota.meter == k.meter {
      LabelMeansWindow(period, ref, w, now);
      if k.period == PeriodLabel(period, now) {
        BreachesIffOver(cal, now, r, k, period);
      }
    }
  }

  lemma FiresIffSeen(evs: seq<Evaluation>, tenant: string, meter: string, threshold: real, period: string,
                     ref: Instant, w: Window)
    requires ResolvePeriod(period, ref) == Ok(w) && FourDigit(w) && OneQuota(evs, tenant, meter, period)
    ensures EverFires(CivilBills.Civil(), evs, AlertKey(tenant, meter, threshold, PeriodLabel(period, ref)), |evs|) <==>
            SeenIn(evs, period, ref, w, tenant, meter, threshold)
  {
    var cal, k := CivilBills.Civil(), AlertKey(tenant, meter, threshold, PeriodLabel(period, ref));
    forall i, j | 0 <= i < |evs| && 0 <= j < |evs[i].readings|
      ensures Breaches(cal, evs[i].now, evs[i].readings[j], k, |Levels(evs[i].readings[j].quota)|) <==>
              SharesLabel(period, ref, w, evs[i].now) && Over(evs[i].readings[j], tenant, meter, threshold)
    {
      ReadingSeen(cal, evs[i].now, evs[i].readings[j], k, period, ref, w);
    }
  }

  /** With one quota for a tenant and meter, a threshold alert exists exactly once for every window in which some
      evaluation saw the threshold reached, and for no other window; for weekly quotas the week that is written
      like the window counts too. */
  lemma OneAlertPerWindow(evs: seq<Evaluation>, tenant: string, meter: string, threshold: real,
                          period: string, ref: Instant, w: Window)
    requires ResolvePeriod(period, ref) == Ok(w) && FourDigit(w) && OneQuota(evs, tenant, meter, period)
    ensures var key := AlertKey(tenant, meter, threshold, PeriodLabel(period, ref));
            Count(AfterEvaluations(CivilBills.Civil(), evs, |evs|), key) ==
            if SeenIn(evs, period, ref, w, tenant, meter, threshold) then 1 else 0
  {
    AlertExistsIffFired(CivilBills.Civil(), evs, AlertKey(tenant, meter, threshold, PeriodLabel(period, ref)), |evs|);
    FiresIffSeen(evs, tenant, meter, threshold, period, ref, w);
  }

  // ----- One evaluation -----

  /** Some reading of the evaluation, with a valid period, crosses the threshold of the alert in its window. */
  predicate Called(cal: Billing, ev: Evaluation, k: AlertKey) {
    exists j :: 0 <= j < |ev.readings| && CalledBy(cal, ev.now, ev.readings[j], k)
  }

  predicate CalledBy(cal: Billing, now: Instant, r: Reading, k: AlertKey) {
    var period := if r.quota.period == "" then "monthly" else r.quota.period;
    && cal.resolve(period, now).Some? && k.period == cal.labelOf(period, now)
    && Over(r, k.tenant, k.meter, k.threshold)
  }

  lemma BreachesIffCalled(cal: Billing, now: Instant, r: Reading, k: AlertKey)
    ensures Breaches(cal, now, r, k, |Levels(r.quota)|) <==> CalledBy(cal, now, r, k)
  {
    var period := if r.quota.period == "" then "monthly" else r.quota.period;
    if cal.resolve(period, now).Some? && k.period == cal.labelOf(period, now) {
      BreachesIffOver(cal, now, r, k, period);
    }
  }

  /** After an evaluation an alert exists once if it was called for and did not exist, and as often as before
      otherwise. */
  lemma EvaluationCount(cal: Billing, alerts: seq<Alert>, ev: Evaluation, k: AlertKey)
    ensures Count(AfterReadings(cal, alerts, ev, |ev.readings|), k) ==
            if Called(cal, ev, k) && Count(alerts, k) == 0 then 1 else Count(alerts, k)
  {
    ReadingsCount(cal, alerts, ev, k, |ev.readings|);
    forall j | 0 <= j < |ev.readings|
      ensures Breaches(cal, ev.now, ev.readings[j], k, |Levels(ev.readings[j].quota)|) <==>
              CalledBy(cal, ev.now, ev.readings[j], k)
    {
      BreachesIffCalled(cal, ev.now, ev.readings[j], k);
    }
  }

  // ----- What an alert says -----

  /** The alert was called for by one of the readings: it names its quota, one of its thresholds and the window, and
      records the consumption and the limit that were read. */
  predicate Reported(cal: Billing, ev: Evaluation, a: Alert) {
    exists j :: 0 <= j < |ev.readings| && Reports(cal, ev.now, ev.readings[j], a)
  }

  predicate Reports(cal: Billing, now: Instant, r: Reading, a: Alert) {
    && a.key.tenant == r.quota.tenant && a.key.meter == r.quota.meter
    && a.key.period == cal.labelOf(if r.quota.period == "" then "monthly" else r.quota.period, now)
    && IsLevel(r.quota, a.key.threshold) && Crosses(r, a.key.threshold)
    && a.consumed == r.consumed.value && a.limit == r.quota.limit
  }

  /** The alerts of `more` that are not in `alerts` are reported by the evaluation, and the others are as they were. */
  predicate Extends(cal: Billing, ev: Evaluation, alerts: seq<Alert>, more: seq<Alert>) {
    && alerts <= more
    && forall i {:trigger Reported(cal, ev, more[i])} :: |alerts| <= i < |more| ==> Reported(cal, ev, more[i])
  }

  lemma {:induction false} LevelsReport(cal: Billing, alerts: seq<Alert>, ev: Evaluation, j: int, n: int)
    requires 0 <= j < |ev.readings| && Counts(cal, ev.now, ev.readings[j])
    requires 0 <= n <= |Levels(ev.readings[j].quota)|
    ensures Extends(cal, ev, alerts, AfterLevels(cal, alerts, ev.now, ev.readings[j], n))
    decreases n
  {
    if 0 < n {
      var r := ev.readings[j];
      LevelsReport(cal, alerts, ev, j, n - 1);
      var threshold := Levels(r.quota)[n - 1];
      LevelsAre(r.quota, threshold);
      CrossesIff(r, threshold);
      if Reaches(r.consumed.value, r.quota.limit, threshold) {
        assert Reports(cal, ev.now, r, AlertFor(cal, ev.now, r, threshold));
      }
    }
  }

  lemma ExtendsTwice(cal: Billing, ev: Evaluation, alerts: seq<Alert>, mid: seq<Alert>, more: seq<Alert>)
    requires Extends(cal, ev, alerts, mid) && Extends(cal, ev, mid, more)
    ensures Extends(cal, ev, alerts, more)
  {
    forall i | |alerts| <= i < |more| ensures Reported(cal, ev, more[i]) {
      assert i < |mid| ==> Reported(cal, ev, mid[i]);
    }
  }

  /** An evaluation only adds alerts, and each says what was read: the quota, a threshold it crosses, the label of
      the window, and the consumption and limit of the reading. */
  lemma {:induction false} AlertsReportReadings(cal: Billing, alerts: seq<Alert>, ev: Evaluation, n: int)
    requires 0 <= n <= |ev.readings|
    ensures Extends(cal, ev, alerts, AfterReadings(cal, alerts, ev, n))
    decreases n
  {
    if 0 < n {
      AlertsReportReadings(cal, alerts, ev, n - 1);
      var r, before := ev.readings[n - 1], AfterReadings(cal, alerts, ev, n - 1);
      if Counts(cal, ev.now, r) {
        LevelsReport(cal, before, ev, n - 1, |Levels(r.quota)|);
        ExtendsTwice(cal, ev, alerts, before, AfterReadings(cal, alerts, ev, n));
      }
    }
  }

  // ----- The evaluation loop -----

  class Store {
    var alerts: seq<Alert>

    method InsertAlert(a: Alert) returns (inserted: bool)
      modifies this
      ensures alerts == Insert(old(alerts), a) && inserted == (Count(old(alerts), a.key) == 0)
    {
      inserted := Count(alerts, a.key) == 0;
      if inserted {
        alerts := alerts + [a];
      }
    }

    method EvaluateThresholds(cal: Billing, ev: Evaluation) returns (fired: nat)
      modifies this
      ensures alerts == AfterReadings(cal, old(alerts), ev, |ev.readings|)
      ensures fired == |alerts| - |old(alerts)|
      ensures forall k: AlertKey {:trigger Called(cal, ev, k)} ::
                Count(alerts, k) ==
                if Called(cal, ev, k) && Count(old(alerts), k) == 0 then 1 else Count(old(alerts), k)
    {
      forall k: AlertKey
        ensures Count(AfterReadings(cal, alerts, ev, |ev.readings|), k) ==
                if Called(cal, ev, k) && Count(alerts, k) == 0 then 1 else Count(alerts, k)
      {
        EvaluationCount(cal, alerts, ev, k);
      }
      fired := 0;
      for i := 0 to |ev.readings|
        invariant alerts == AfterReadings(cal, old(alerts), ev, i) && fired == |alerts| - |old(alerts)|
      {
        var r := ev.readings[i];
        if !Counts(cal, ev.now, r) {
          continue;
        }
        var levels := Levels(r.quota);
        ghost var before := alerts;
        for j := 0 to |levels|
          invariant alerts == AfterLevels(cal, before, ev.now, r, j) && fired == |alerts| - |old(alerts)|
        {
          if Reaches(r.consumed.value, r.quota.limit, levels[j]) {
            var inserted := InsertAlert(AlertFor(cal, ev.now, r, levels[j]));
            if inserted {
              fired := fired + 1;
            }
          }
        }
      }
    }
  }
}
