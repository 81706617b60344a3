/** Rate records, the in-memory rate index with its four-way fallback, and the SQL lookup beside it. */
module Rates {
  import opened Options
  import opened Tiers

  /** A row of the rates table that is in effect. `tenant` is NULL or '' for a global rate, and
      `instanceType` is '' for any instance type. */
  datatype Rate = Rate(
    id: int,
    tenant: Option<string>,
    resourceType: string,
    instanceType: string,
    meter: string,
    price: real,
    tiers: seq<Tier>,
    tierMode: string,
    tierPeriod: string)

  datatype RateKey = RateKey(tenant: string, instanceType: string, resourceType: string, meter: string)

  // ----- Applying a rate -----

  /** Flat or tiered price of one metered value on its own. */
  function ApplyRate(value: real, rate: Rate): real {
    if |rate.tiers| > 0 then TieredCost(rate.tiers, value) else value * rate.price
  }

  /** Price of a metered value after `prior` units of usage in the same window. */
  function ApplyRateCumulative(value: real, prior: real, rate: Rate): real {
    if |rate.tiers| == 0 then value * rate.price else MarginalCost(rate.tiers, value, prior)
  }

  // ----- The rate index -----

  function TenantOf(r: Rate): string {
    match r.tenant
    case None => ""
    case Some(t) => t
  }

  function KeyOf(r: Rate): RateKey {
    RateKey(TenantOf(r), r.instanceType, r.resourceType, r.meter)
  }

  /** The index: the first rate of the list for every key. */
  function RateIndex(rates: seq<Rate>): map<RateKey, Rate> {
    if rates == [] then map[]
    else
      var last := rates[|rates| - 1];
      var idx := RateIndex(rates[..|rates| - 1]);
      if KeyOf(last) in idx then idx else idx[KeyOf(last) := last]
  }

  /** Position `k` holds the first rate with `key`. */
  predicate FirstWithKey(rates: seq<Rate>, key: RateKey, k: int) {
    0 <= k < |rates| && KeyOf(rates[k]) == key && forall j :: 0 <= j < k ==> KeyOf(rates[j]) != key
  }

  method BuildRateIndex(rates: seq<Rate>) returns (idx: map<RateKey, Rate>)
    ensures idx == RateIndex(rates)
    ensures forall k :: 0 <= k < |rates| ==> KeyOf(rates[k]) in idx
    ensures forall key :: key in idx ==> exists k :: FirstWithKey(rates, key, k) && idx[key] == rates[k]
  {
    idx := map[];
    for i := 0 to |rates|
      invariant idx == RateIndex(rates[..i])
    {
      var key := KeyOf(rates[i]);
      assert rates[..i + 1][..i] == rates[..i];
      if key !in idx {
        idx := idx[key := rates[i]];
      }
    }
    assert rates[..|rates|] == rates;
    forall k | 0 <= k < |rates| ensures KeyOf(rates[k]) in idx {
      RateIndexTotal(rates, k);
    }
    forall key | key in idx ensures exists k :: FirstWithKey(rates, key, k) && idx[key] == rates[k] {
      var k := RateIndexFirst(rates, key);
    }
  }

  lemma {:induction false} RateIndexTotal(rates: seq<Rate>, k: int)
    requires 0 <= k < |rates|
    ensures KeyOf(rates[k]) in RateIndex(rates)
  {
    if k < |rates| - 1 {
      RateIndexTotal(rates[..|rates| - 1], k);
    }
  }

  lemma {:induction false} RateIndexFirst(rates: seq<Rate>, key: RateKey) returns (k: int)
    requires key in RateIndex(rates)
    ensures FirstWithKey(rates, key, k) && RateIndex(rates)[key] == rates[k]
  {
    var init := rates[..|rates| - 1];
    if key in RateIndex(init) {
      k := RateIndexFirst(init, key);
    } else {
      k := |rates| - 1;
      forall j | 0 <= j < k ensures KeyOf(rates[j]) != key {
        RateIndexTotal(init, j);
      }
    }
  }

  // ----- Matching -----

  /** What a metering entry asks of the rate table. */
  datatype RateQuery = RateQuery(tenant: string, instanceType: string, resourceType: string, meter: string) {
    function Key(tenant: string, instanceType: string): RateKey {
      RateKey(tenant, instanceType, resourceType, meter)
    }
  }

  /** Four lookups: tenant and type, any tenant and type, tenant and any type, global default. */
  function MatchRate(idx: map<RateKey, Rate>, q: RateQuery): Option<Rate> {
    if q.Key(q.tenant, q.instanceType) in idx then Some(idx[q.Key(q.tenant, q.instanceType)])
    else if q.Key("", q.instanceType) in idx then Some(idx[q.Key("", q.instanceType)])
    else if q.Key(q.tenant, "") in idx then Some(idx[q.Key(q.tenant, "")])
    else if q.Key("", "") in idx then Some(idx[q.Key("", "")])
    else None
  }

  /** The rate may price the query at all. */
  predicate Candidate(r: Rate, q: RateQuery) {
    && r.resourceType == q.resourceType && r.meter == q.meter
    && (TenantOf(r) == q.tenant || TenantOf(r) == "")
    && (r.instanceType == q.instanceType || r.instanceType == "")
  }

  /** Smaller is better: an instance-type match outweighs a tenant match. */
  function Rank(r: Rate, q: RateQuery): nat {
    (if r.instanceType == q.instanceType then 0 else 2) + (if TenantOf(r) == q.tenant then 0 else 1)
  }

  /** Position `k` holds the best candidate: lowest rank, then earliest in the list. */
  predicate Best(rates: seq<Rate>, q: RateQuery, k: int) {
    && 0 <= k < |rates| && Candidate(rates[k], q)
    && forall j :: 0 <= j < |rates| && Candidate(rates[j], q) ==>
         Rank(rates[k], q) < Rank(rates[j], q) || (Rank(rates[k], q) == Rank(rates[j], q) && k <= j)
  }

  /** The key a candidate must have is fixed by its rank. */
  function RankKey(q: RateQuery, rank: nat): RateKey {
    q.Key(if rank % 2 == 0 then q.tenant else "", if rank < 2 then q.instanceType else "")
  }

  lemma CandidateKey(r: Rate, q: RateQuery)
    requires Candidate(r, q)
    ensures KeyOf(r) == RankKey(q, Rank(r, q)) && Rank(r, q) < 4
  {
  }

  /** The first rank whose key is indexed; 4 if there is none. */
  function MatchedRank(idx: map<RateKey, Rate>, q: RateQuery): (rank: nat)
    ensures rank <= 4
    ensures rank < 4 ==> RankKey(q, rank) in idx && MatchRate(idx, q) == Some(idx[RankKey(q, rank)])
    ensures rank == 4 ==> MatchRate(idx, q).None?
    ensures forall r: nat :: r < rank ==> RankKey(q, r) !in idx
  {
    if RankKey(q, 0) in idx then 0
    else if RankKey(q, 1) in idx then 1
    else if RankKey(q, 2) in idx then 2
    else if RankKey(q, 3) in idx then 3
    else 4
  }

  lemma CandidateIndexed(rates: seq<Rate>, q: RateQuery, j: int)
    requires 0 <= j < |rates| && Candidate(rates[j], q)
    ensures MatchedRank(RateIndex(rates), q) <= Rank(rates[j], q) < 4
  {
    CandidateKey(rates[j], q);
    RateIndexTotal(rates, j);
  }

  /** The first rate with the key of the matched rank is the best candidate. */
  lemma FirstOfMatchedRank(rates: seq<Rate>, q: RateQuery) returns (k: int)
    requires MatchedRank(RateIndex(rates), q) < 4
    ensures Best(rates, q, k) && MatchRate(RateIndex(rates), q) == Some(rates[k])
  {
    var rank := MatchedRank(RateIndex(rates), q);
    k := RateIndexFirst(rates, RankKey(q, rank));
    assert Candidate(rates[k], q) && Rank(rates[k], q) <= rank;
    forall j | 0 <= j < |rates| && Candidate(rates[j], q)
      ensures Rank(rates[k], q) < Rank(rates[j], q) || (Rank(rates[k], q) == Rank(rates[j], q) && k <= j)
    {
      CandidateIndexed(rates, q, j);
      CandidateKey(rates[j], q);
    }
  }

  /** Matching through the index equals a scan of the whole list for the best candidate; it finds
      nothing exactly when there is no candidate. */
  lemma MatchRateIsBestCandidate(rates: seq<Rate>, q: RateQuery)
    ensures MatchRate(RateIndex(rates), q).None? <==> forall j :: 0 <= j < |rates| ==> !Candidate(rates[j], q)
    ensures MatchRate(RateIndex(rates), q).Some? ==>
              exists k :: Best(rates, q, k) && MatchRate(RateIndex(rates), q).value == rates[k]
  {
    if MatchedRank(RateIndex(rates), q) < 4 {
      var k := FirstOfMatchedRank(rates, q);
    } else {
      forall j | 0 <= j < |rates| ensures !Candidate(rates[j], q) {
        if Candidate(rates[j], q) {
          CandidateIndexed(rates, q, j);
        }
      }
    }
  }

  // ----- The SQL lookup -----

  /** The WHERE clause of the SQL lookup. */
  predicate SqlCandidate(r: Rate, q: RateQuery) {
    && r.resourceType == q.resourceType && r.meter == q.meter
    && (r.tenant == Some(q.tenant) || r.tenant == None || r.tenant == Some(""))
    && (r.instanceType == q.instanceType || r.instanceType == "")
  }

  /** The ORDER BY clause: tenant before instance type, and a NULL tenant never equals the parameter. */
  function SqlRank(r: Rate, q: RateQuery): nat {
    (if r.tenant == Some(q.tenant) then 0 else 2) + (if r.instanceType == q.instanceType then 0 else 1)
  }

  /** Row `k` is a possible answer: minimal in the order; which of several minimal rows the database
      returns is unspecified. */
  predicate SqlAnswer(rates: seq<Rate>, q: RateQuery, k: int) {
    && 0 <= k < |rates| && SqlCandidate(rates[k], q)
    && forall j :: 0 <= j < |rates| && SqlCandidate(rates[j], q) ==> SqlRank(rates[k], q) <= SqlRank(rates[j], q)
  }

  predicate HasRow(rates: seq<Rate>, q: RateQuery, tenant: Option<string>, instanceType: string) {
    exists j :: 0 <= j < |rates| && rates[j].tenant == tenant && rates[j].instanceType == instanceType &&
                rates[j].resourceType == q.resourceType && rates[j].meter == q.meter
  }

  /** The lookups disagree: the tenant has no rate for the type itself, but one for any type, and there
      is a global rate for the type. For a nonempty tenant this needs a nonempty type. For the empty
      tenant it takes rows that spell "global" differently: '' for any type, NULL for the type. */
  predicate LookupsDiffer(rates: seq<Rate>, q: RateQuery) {
    && q.instanceType != ""
    && !HasRow(rates, q, Some(q.tenant), q.instanceType)
    && HasRow(rates, q, Some(q.tenant), "")
    && (HasRow(rates, q, None, q.instanceType) || HasRow(rates, q, Some(""), q.instanceType))
  }

  /** The SQL lookup and the in-memory match pick the same key on every rate set, unless `LookupsDiffer`. */
  lemma FindRateAgreesWithMatchRate(rates: seq<Rate>, q: RateQuery, k: int)
    requires SqlAnswer(rates, q, k)
    ensures MatchRate(RateIndex(rates), q).Some?
    ensures KeyOf(MatchRate(RateIndex(rates), q).value) == KeyOf(rates[k]) <==> !LookupsDiffer(rates, q)
  {
    MatchRateIsBestCandidate(rates, q);
    assert Candidate(rates[k], q);
    var b :| Best(rates, q, b) && MatchRate(RateIndex(rates), q).value == rates[b];
    if LookupsDiffer(rates, q) {
      DifferentAnswers(rates, q, k, b);
    } else {
      SameAnswers(rates, q, k, b);
    }
  }

  lemma SameAnswers(rates: seq<Rate>, q: RateQuery, k: int, b: int)
    requires SqlAnswer(rates, q, k) && Best(rates, q, b) && !LookupsDiffer(rates, q)
    ensures KeyOf(rates[b]) == KeyOf(rates[k])
  {
    var x, y := rates[k], rates[b];
    assert Candidate(x, q) && SqlCandidate(y, q);
    assert SqlRank(x, q) <= SqlRank(y, q) && Rank(y, q) <= Rank(x, q);
    if x.instanceType != y.instanceType {
      assert x.instanceType == "" && x.tenant == Some(q.tenant);
      assert y.instanceType == q.instanceType && y.tenant != Some(q.tenant);
      assert HasRow(rates, q, x.tenant, "") && HasRow(rates, q, y.tenant, q.instanceType);
    }
  }

  lemma DifferentAnswers(rates: seq<Rate>, q: RateQuery, k: int, b: int)
    requires SqlAnswer(rates, q, k) && Best(rates, q, b) && LookupsDiffer(rates, q)
    ensures rates[b].instanceType == q.instanceType && rates[k].instanceType == ""
  {
    var any :| 0 <= any < |rates| && rates[any].tenant == Some(q.tenant) && rates[any].instanceType == "" &&
               rates[any].resourceType == q.resourceType && rates[any].meter == q.meter;
    assert SqlCandidate(rates[any], q) && SqlRank(rates[any], q) == 1;
    assert HasRow(rates, q, rates[k].tenant, rates[k].instanceType);
    var typed :| 0 <= typed < |rates| && TenantOf(rates[typed]) == "" && rates[typed].instanceType == q.instanceType &&
                 rates[typed].resourceType == q.resourceType && rates[typed].meter == q.meter;
    assert Candidate(rates[typed], q);
  }

  /** The empty tenant is not exempt: a NULL-tenant rate for the type loses to a ''-tenant rate for any
      type in SQL, and wins in memory. */
  lemma EmptyTenantLookupsDiffer()
    ensures exists rates: seq<Rate>, q: RateQuery :: q.tenant == "" && LookupsDiffer(rates, q)
  {
    var typed := Rate(1, None, "compute_instance", "m5", "vm_uptime_seconds", 0.5, [], "per_event", "");
    var any := Rate(2, Some(""), "compute_instance", "", "vm_uptime_seconds", 0.1, [], "per_event", "");
    var rates := [typed, any];
    var q := RateQuery("", "m5", "compute_instance", "vm_uptime_seconds");
    assert rates[0] == typed && rates[1] == any;
    assert HasRow(rates, q, None, "m5") && HasRow(rates, q, Some(""), "");
    assert LookupsDiffer(rates, q);
  }
}
