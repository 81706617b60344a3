/** Project quotas under a tenant limit: create, update and delete, with the check against overcommitment. */
module Quotas {
  import opened Options
  import opened Periods
  import opened Runs

  /** A project-level quota; its id is its position in the table. */
  datatype Quota = Quota(
    tenant: string,
    project: string,
    meter: string,
    unit: string,
    period: string,
    limit: real,
    active: bool)

  /** The tenant-level limit of a tenant and meter; 0 if there is none. */
  type TenantLimits = (string, string) -> real

  type Table = seq<Quota>

  const NO_ID: int := -1

  predicate CountsFor(q: Quota, tenant: string, meter: string) {
    q.tenant == tenant && q.meter == meter && q.project != "" && q.active
  }

  /** Sum of the active project limits of a tenant and meter over the first `n` rows, one row left out. */
  function LimitSum(rows: Table, tenant: string, meter: string, exclude: int, n: int): real
    requires 0 <= n <= |rows|
    decreases n
  {
    if n == 0 then 0.0
    else LimitSum(rows, tenant, meter, exclude, n - 1) +
         if CountsFor(rows[n - 1], tenant, meter) && n - 1 != exclude then rows[n - 1].limit else 0.0
  }

  function ProjectLimitSum(rows: Table, tenant: string, meter: string, exclude: int): real {
    LimitSum(rows, tenant, meter, exclude, |rows|)
  }

  /** The check against overcommitment: nothing to check without a tenant limit. */
  predicate Fits(limits: TenantLimits, rows: Table, q: Quota, exclude: int) {
    var tenantLimit := limits(q.tenant, q.meter);
    tenantLimit == 0.0 || ProjectLimitSum(rows, q.tenant, q.meter, exclude) + q.limit <= tenantLimit
  }

  predicate ValidPeriod(period: string) {
    ParsePeriod(period).Ok?
  }

  predicate Creatable(q: Quota) {
    q.tenant != "" && q.meter != "" && q.unit != "" && q.limit > 0.0 && ValidPeriod(q.period)
  }

  /** A quota as it is inserted: active, and monthly if it has no period. */
  function Inserted(q: Quota): Quota {
    q.(active := true, period := if q.period == "" then "monthly" else q.period)
  }

  /** What the handler of a create checks before it inserts. */
  predicate CreateChecks(limits: TenantLimits, rows: Table, q: Quota) {
    Creatable(q) && (q.project == "" || Fits(limits, rows, q, NO_ID))
  }

  /** What the handler of an update checks: overcommitment for positive project limits only. */
  predicate UpdateChecks(limits: TenantLimits, rows: Table, id: nat, q: Quota) {
    ValidPeriod(q.period) && (q.project == "" || q.limit <= 0.0 || Fits(limits, rows, q, id))
  }

  datatype Step = Create(q: Quota) | Update(id: nat, q: Quota) | Delete(id: nat)

  function Advance(limits: TenantLimits, rows: Table, step: Step): Table {
    match step
    case Create(q) => if CreateChecks(limits, rows, q) then rows + [Inserted(q)] else rows
    case Update(id, q) =>
      if id < |rows| && UpdateChecks(limits, rows, id, q) then rows[id := q.(active := rows[id].active)] else rows
    case Delete(id) =>
      if id < |rows| && rows[id].active then rows[id := rows[id].(active := false)] else rows
  }

  // ----- The bound -----

  predicate NonNegative(q: Quota) {
    q.limit >= 0.0
  }

  predicate AllNonNegative(rows: Table) {
    forall i {:trigger NonNegative(rows[i])} :: 0 <= i < |rows| ==> NonNegative(rows[i])
  }

  lemma {:induction false} SumOfPrefix(rows: Table, more: Table, tenant: string, meter: string, exclude: int, n: int)
    requires 0 <= n <= |rows| && rows <= more
    ensures LimitSum(more, tenant, meter, exclude, n) == LimitSum(rows, tenant, meter, exclude, n)
    decreases n
  {
    if 0 < n {
      SumOfPrefix(rows, more, tenant, meter, exclude, n - 1);
    }
  }

  /** A row's part of the sum. */
  function Part(q: Quota, tenant: string, meter: string): real {
    if CountsFor(q, tenant, meter) then q.limit else 0.0
  }

  lemma {:induction false} SumWithout(rows: Table, tenant: string, meter: string, id: nat, n: int)
    requires id < |rows| && 0 <= n <= |rows|
    ensures LimitSum(rows, tenant, meter, NO_ID, n) ==
            LimitSum(rows, tenant, meter, id, n) + if id < n then Part(rows[id], tenant, meter) else 0.0
    decreases n
  {
    if 0 < n {
      SumWithout(rows, tenant, meter, id, n - 1);
    }
  }

  lemma {:induction false} ExcludedRowIsFree(rows: Table, tenant: string, meter: string, id: nat, q: Quota, n: int)
    requires id < |rows| && 0 <= n <= |rows|
    ensures LimitSum(rows[id := q], tenant, meter, id, n) == LimitSum(rows, tenant, meter, id, n)
    decreases n
  {
    if 0 < n {
      ExcludedRowIsFree(rows, tenant, meter, id, q, n - 1);
    }
  }

  lemma SumAfterUpdate(rows: Table, tenant: string, meter: string, id: nat, q: Quota)
    requires id < |rows|
    ensures ProjectLimitSum(rows[id := q], tenant, meter, NO_ID) ==
            ProjectLimitSum(rows, tenant, meter, id) + Part(q, tenant, meter)
    ensures ProjectLimitSum(rows, tenant, meter, NO_ID) ==
            ProjectLimitSum(rows, tenant, meter, id) + Part(rows[id], tenant, meter)
  {
    SumWithout(rows, tenant, meter, id, |rows|);
    SumWithout(rows[id := q], tenant, meter, id, |rows|);
    ExcludedRowIsFree(rows, tenant, meter, id, q, |rows|);
  }

  lemma SumAfterAppend(rows: Table, tenant: string, meter: string, q: Quota)
    ensures ProjectLimitSum(rows + [q], tenant, meter, NO_ID) ==
      ProjectLimitSum(rows, tenant, meter, NO_ID) + Part(q, tenant, meter)
  {
    SumOfPrefix(rows, rows + [q], tenant, meter, NO_ID, |rows|);
  }

  /** The active project limits stay within the tenant limit. */
  predicate Bounded(limits: TenantLimits, rows: Table, tenant: string, meter: string) {
    ProjectLimitSum(rows, tenant, meter, NO_ID) <= limits(tenant, meter)
  }

  predicate Safe(limits: TenantLimits, rows: Table, tenant: string, meter: string) {
    AllNonNegative(rows) && Bounded(limits, rows, tenant, meter)
  }

  lemma StepKeepsNonNegative(limits: TenantLimits, rows: Table, step: Step)
    requires AllNonNegative(rows) && (step.Update? ==> NonNegative(step.q))
    ensures AllNonNegative(Advance(limits, rows, step))
  {
    var next := Advance(limits, rows, step);
    forall i | 0 <= i < |next| ensures NonNegative(next[i]) {
      if i < |rows| {
        assert NonNegative(rows[i]);
      }
    }
  }

  /** The step can add to the limits of the tenant and meter. */
  predicate Raises(step: Step, tenant: string, meter: string) {
    !step.Delete? && step.q.tenant == tenant && step.q.meter == meter
  }

  lemma UpdatedSum(limits: TenantLimits, rows: Table, id: nat, q: Quota, tenant: string, meter: string)
    requires AllNonNegative(rows) && limits(tenant, meter) != 0.0 && NonNegative(q) && id < |rows|
    requires UpdateChecks(limits, rows, id, q)
    ensures var sum := ProjectLimitSum(rows[id := q.(active := rows[id].active)], tenant, meter, NO_ID);
            sum <= ProjectLimitSum(rows, tenant, meter, NO_ID) ||
              (Raises(Update(id, q), tenant, meter) && sum <= limits(tenant, meter))
  {
    assert NonNegative(rows[id]);
    SumAfterUpdate(rows, tenant, meter, id, q.(active := rows[id].active));
  }

  /** A step leaves the sum where it was or lower, or it adds to it within the limit. */
  lemma StepSum(limits: TenantLimits, rows: Table, step: Step, tenant: string, meter: string)
    requires AllNonNegative(rows) && limits(tenant, meter) != 0.0 && (step.Update? ==> NonNegative(step.q))
    ensures var sum := ProjectLimitSum(Advance(limits, rows, step), tenant, meter, NO_ID);
            sum <= ProjectLimitSum(rows, tenant, meter, NO_ID) ||
              (Raises(step, tenant, meter) && sum <= limits(tenant, meter))
  {
    match step
    case Create(q) => SumAfterAppend(rows, tenant, meter, Inserted(q));
    case Update(id, q) =>
      if id < |rows| && UpdateChecks(limits, rows, id, q) {
        UpdatedSum(limits, rows, id, q, tenant, meter);
      }
    case Delete(id) =>
      if id < |rows| {
        assert NonNegative(rows[id]);
        SumAfterUpdate(rows, tenant, meter, id, rows[id].(active := false));
      }
  }

  lemma StepKeepsBound(limits: TenantLimits, rows: Table, step: Step, tenant: string, meter: string)
    requires Safe(limits, rows, tenant, meter) && limits(tenant, meter) != 0.0 && (step.Update? ==> NonNegative(step.q))
    ensures Safe(limits, Advance(limits, rows, step), tenant, meter)
  {
    StepKeepsNonNegative(limits, rows, step);
    StepSum(limits, rows, step, tenant, meter);
  }

  /** Over any run of creates, updates without negative limits (moves to another tenant or meter included) and
      deletes, the active project limits of a tenant and meter stay within the tenant limit, where there is one. */
  lemma ProjectLimitsStayWithinTenantLimit(limits: TenantLimits, steps: seq<Step>, tenant: string, meter: string)
    requires limits(tenant, meter) > 0.0
    requires forall i :: 0 <= i < |steps| && steps[i].Update? ==> NonNegative(steps[i].q)
    ensures Bounded(limits, After((rows: Table, step: Step) => Advance(limits, rows, step), [], steps, |steps|),
                    tenant, meter)
  {
    var apply := (rows: Table, step: Step) => Advance(limits, rows, step);
    var inv := (rows: Table) => Safe(limits, rows, tenant, meter);
    forall rows: Table, step: Step | inv(rows) && step in steps ensures inv(apply(rows, step)) {
      StepKeepsBound(limits, rows, step, tenant, meter);
    }
    Induction(apply, [], steps, |steps|, inv);
  }

  // ----- Where the bound fails -----

  /** An update to a negative limit is not checked, and makes room for a create that the next delete leaves over
      the tenant limit: so the bound needs updates without negative limits. */
  lemma NegativeUpdateOvercommits(limits: TenantLimits, rows: Table, id: nat, q: Quota, fill: Quota)
    requires id < |rows| && rows[id].active && q.project != "" && q.limit < 0.0 && ValidPeriod(q.period)
    requires q.tenant != "" && q.meter != "" && q.unit != ""
    requires limits(q.tenant, q.meter) > 0.0 && Bounded(limits, rows, q.tenant, q.meter) && AllNonNegative(rows)
    requires fill == q.(limit := limits(q.tenant, q.meter) - ProjectLimitSum(rows, q.tenant, q.meter, id) - q.limit)
    ensures var updated := Advance(limits, rows, Update(id, q));
            var filled := Advance(limits, updated, Create(fill));
            var next := Advance(limits, filled, Delete(id));
            ProjectLimitSum(next, q.tenant, q.meter, NO_ID) == limits(q.tenant, q.meter) - q.limit
  {
    var t, m := q.tenant, q.meter;
    assert NonNegative(rows[id]);
    var updated := Advance(limits, rows, Update(id, q));
    SumAfterUpdate(rows, t, m, id, q.(active := true));
    var filled := Advance(limits, updated, Create(fill));
    SumAfterAppend(updated, t, m, Inserted(fill));
    assert filled == updated + [Inserted(fill)] && filled[id] == q.(active := true);
    SumAfterUpdate(filled, t, m, id, filled[id].(active := false));
  }

  // ----- Creates whose check and insert are apart -----

  /** The table, and the creates that have been checked; an active one has not been inserted yet. */
  datatype Office = Office(rows: Table, checked: Table)

  datatype Move =
    | Check(q: Quota)
    | Insert(k: nat)
    | GiveUp(k: nat)
    | Whole(step: Step)

  function Next(limits: TenantLimits, s: Office, move: Move): Office {
    match move
    case Check(q) => if CreateChecks(limits, s.rows, q) then s.(checked := s.checked + [Inserted(q)]) else s
    case Insert(k) =>
      if k < |s.checked| && s.checked[k].active
      then Office(s.rows + [s.checked[k]], s.checked[k := s.checked[k].(active := false)]) else s
    case GiveUp(k) => if k < |s.checked| then s.(checked := s.checked[k := s.checked[k].(active := false)]) else s
    case Whole(step) => s.(rows := Advance(limits, s.rows, step))
  }

  /** Limits checked for the tenant and meter but not inserted. */
  function InFlight(s: Office, tenant: string, meter: string): real {
    ProjectLimitSum(s.checked, tenant, meter, NO_ID)
  }

  /** Limits inserted or about to be. */
  function Committed(s: Office, tenant: string, meter: string): real {
    ProjectLimitSum(s.rows, tenant, meter, NO_ID) + InFlight(s, tenant, meter)
  }

  /** An insert moves a limit from the checked ones to the table, and keeps what is committed. */
  lemma InsertConserves(limits: TenantLimits, s: Office, k: nat, tenant: string, meter: string)
    ensures Committed(Next(limits, s, Insert(k)), tenant, meter) == Committed(s, tenant, meter)
  {
    if k < |s.checked| && s.checked[k].active {
      SumAfterAppend(s.rows, tenant, meter, s.checked[k]);
      SumAfterUpdate(s.checked, tenant, meter, k, s.checked[k].(active := false));
    }
  }

  /** All creates under way go through, in order. */
  function Drained(limits: TenantLimits, s: Office, n: int): Office
    requires 0 <= n <= |s.checked|
    decreases n
  {
    if n == 0 then s else Next(limits, Drained(limits, s, n - 1), Insert(n - 1))
  }

  lemma {:induction false} DrainedIs(limits: TenantLimits, s: Office, n: int, tenant: string, meter: string)
    requires 0 <= n <= |s.checked|
    ensures var d := Drained(limits, s, n);
            && |d.checked| == |s.checked| && (forall i :: 0 <= i < n ==> !d.checked[i].active)
            && (forall i :: n <= i < |s.checked| ==> d.checked[i] == s.checked[i])
            && Committed(d, tenant, meter) == Committed(s, tenant, meter)
    decreases n
  {
    if 0 < n {
      DrainedIs(limits, s, n - 1, tenant, meter);
      InsertConserves(limits, Drained(limits, s, n - 1), n - 1, tenant, meter);
    }
  }

  lemma {:induction false} NothingInFlight(rows: Table, tenant: string, meter: string, n: int)
    requires 0 <= n <= |rows| && forall i :: 0 <= i < n ==> !rows[i].active
    ensures LimitSum(rows, tenant, meter, NO_ID, n) == 0.0
    decreases n
  {
    if 0 < n {
      NothingInFlight(rows, tenant, meter, n - 1);
    }
  }

  /** In every state: once the creates under way have gone through, the bound holds if and only if what is
      committed now is within the limit. */
  lemma BoundAfterDrainingIff(limits: TenantLimits, s: Office, tenant: string, meter: string)
    ensures Bounded(limits, Drained(limits, s, |s.checked|).rows, tenant, meter) <==>
            Committed(s, tenant, meter) <= limits(tenant, meter)
  {
    DrainedIs(limits, s, |s.checked|, tenant, meter);
    NothingInFlight(Drained(limits, s, |s.checked|).checked, tenant, meter, |s.checked|);
  }

  /** The move can add to the limits of the tenant and meter. */
  predicate Adds(move: Move, tenant: string, meter: string) {
    match move
    case Check(q) => q.tenant == tenant && q.meter == meter
    case Whole(step) => Raises(step, tenant, meter)
    case _ => false
  }

  /** A move that adds to the limits waits until no checked create of the tenant and meter is under way. */
  predicate TakesTurns(s: Office, move: Move, tenant: string, meter: string) {
    && (Adds(move, tenant, meter) ==> InFlight(s, tenant, meter) == 0.0)
    && (move.Whole? && move.step.Update? ==> NonNegative(move.step.q))
  }

  predicate OfficeSafe(limits: TenantLimits, s: Office, tenant: string, meter: string) {
    AllNonNegative(s.rows) && AllNonNegative(s.checked) && Committed(s, tenant, meter) <= limits(tenant, meter)
  }

  lemma {:induction false} NonNegativeSum(rows: Table, tenant: string, meter: string, n: int)
    requires AllNonNegative(rows) && 0 <= n <= |rows|
    ensures 0.0 <= LimitSum(rows, tenant, meter, NO_ID, n)
    decreases n
  {
    if 0 < n {
      NonNegativeSum(rows, tenant, meter, n - 1);
      assert NonNegative(rows[n - 1]);
    }
  }

  lemma MoveKeepsNonNegative(limits: TenantLimits, s: Office, move: Move)
    requires AllNonNegative(s.rows) && AllNonNegative(s.checked)
    requires move.Whole? && move.step.Update? ==> NonNegative(move.step.q)
    ensures AllNonNegative(Next(limits, s, move).rows) && AllNonNegative(Next(limits, s, move).checked)
  {
    var next := Next(limits, s, move);
    if move.Whole? {
      StepKeepsNonNegative(limits, s.rows, move.step);
    } else {
      forall i | 0 <= i < |next.checked| ensures NonNegative(next.checked[i]) {
        if i < |s.checked| {
          assert NonNegative(s.checked[i]);
        }
      }
      forall i | 0 <= i < |next.rows| ensures NonNegative(next.rows[i]) {
        if i < |s.rows| {
          assert NonNegative(s.rows[i]);
        } else {
          assert NonNegative(s.checked[move.k]);
        }
      }
    }
  }

  lemma MoveKeepsCommitted(limits: TenantLimits, s: Office, move: Move, tenant: string, meter: string)
    requires OfficeSafe(limits, s, tenant, meter) && limits(tenant, meter) != 0.0 && TakesTurns(s, move, tenant, meter)
    ensures Committed(Next(limits, s, move), tenant, meter) <= limits(tenant, meter)
  {
    match move
    case Check(q) => SumAfterAppend(s.checked, tenant, meter, Inserted(q));
    case Insert(k) => InsertConserves(limits, s, k, tenant, meter);
    case GiveUp(k) =>
      if k < |s.checked| {
        assert NonNegative(s.checked[k]);
        SumAfterUpdate(s.checked, tenant, meter, k, s.checked[k].(active := false));
      }
    case Whole(step) => StepSum(limits, s.rows, step, tenant, meter);
  }

  lemma MoveKeepsSafe(limits: TenantLimits, s: Office, move: Move, tenant: string, meter: string)
    requires OfficeSafe(limits, s, tenant, meter) && limits(tenant, meter) != 0.0 && TakesTurns(s, move, tenant, meter)
    ensures OfficeSafe(limits, Next(limits, s, move), tenant, meter)
  {
    MoveKeepsNonNegative(limits, s, move);
    MoveKeepsCommitted(limits, s, move, tenant, meter);
  }

  function Run(limits: TenantLimits, moves: seq<Move>, n: int): Office
    requires 0 <= n <= |moves|
  {
    After((s: Office, move: Move) => Next(limits, s, move), Office([], []), moves, n)
  }

  /** Over every run with checks and inserts apart, the bound survives if moves that add to the limits of the
      tenant and meter take turns. */
  lemma TurnsKeepTheBound(limits: TenantLimits, moves: seq<Move>, tenant: string, meter: string)
    requires limits(tenant, meter) > 0.0
    requires forall i :: 0 <= i < |moves| ==> TakesTurns(Run(limits, moves, i), moves[i], tenant, meter)
    ensures Bounded(limits, Run(limits, moves, |moves|).rows, tenant, meter)
  {
    var apply := (s: Office, move: Move) => Next(limits, s, move);
    var permits := (s: Office, move: Move) => TakesTurns(s, move, tenant, meter);
    var inv := (s: Office) => OfficeSafe(limits, s, tenant, meter);
    forall s: Office, move: Move | inv(s) && permits(s, move) ensures inv(apply(s, move)) {
      MoveKeepsSafe(limits, s, move, tenant, meter);
    }
    forall i | 0 <= i < |moves| ensures permits(After(apply, Office([], []), moves, i), moves[i]) {
      assert TakesTurns(Run(limits, moves, i), moves[i], tenant, meter);
    }
    GuardedInduction(apply, Office([], []), moves, |moves|, permits, inv);
    var s := Run(limits, moves, |moves|);
    NonNegativeSum(s.checked, tenant, meter, |s.checked|);
  }

  /** Without turns: two creates of one tenant and meter that both pass their check, and are then inserted, break
      the bound exactly when they do not fit together. */
  lemma RacingCreates(limits: TenantLimits, rows: Table, q: Quota, r: Quota)
    requires q.tenant == r.tenant && q.meter == r.meter && q.project != "" && r.project != ""
    requires CreateChecks(limits, rows, q) && CreateChecks(limits, rows, r)
    ensures var s := Next(limits, Next(limits, Office(rows, []), Check(q)), Check(r));
            var next := Next(limits, Next(limits, s, Insert(0)), Insert(1));
            && next.rows == rows + [Inserted(q)] + [Inserted(r)]
            && (Bounded(limits, next.rows, q.tenant, q.meter) <==>
                ProjectLimitSum(rows, q.tenant, q.meter, NO_ID) + q.limit + r.limit <= limits(q.tenant, q.meter))
  {
    var s := Next(limits, Next(limits, Office(rows, []), Check(q)), Check(r));
    assert s.checked == [Inserted(q), Inserted(r)];
    SumAfterAppend(rows, q.tenant, q.meter, Inserted(q));
    SumAfterAppend(rows + [Inserted(q)], q.tenant, q.meter, Inserted(r));
  }

  /** For instance under a tenant limit of ten, two creates of six on an empty table both pass and make twelve. */
  lemma RaceOvercommits(q: Quota)
    requires q == Quota("acme", "web", "vm_uptime_seconds", "seconds", "monthly", 6.0, true)
    ensures var limits := (t: string, m: string) => 10.0;
            var s := Next(limits, Next(limits, Office([], []), Check(q)), Check(q));
            var next := Next(limits, Next(limits, s, Insert(0)), Insert(1));
            && ProjectLimitSum(next.rows, q.tenant, q.meter, NO_ID) == 12.0
            && !Bounded(limits, next.rows, q.tenant, q.meter)
  {
    var limits := (t: string, m: string) => 10.0;
    assert ProjectLimitSum([], q.tenant, q.meter, NO_ID) == 0.0;
    RacingCreates(limits, [], q, q);
    SumAfterAppend([], q.tenant, q.meter, Inserted(q));
    SumAfterAppend([] + [Inserted(q)], q.tenant, q.meter, Inserted(q));
  }

  // ----- The handlers -----

  datatype QuotaError = InvalidQuota | Overcommitted | NotFound

  class Store {
    var rows: Table

    method SumProjectLimits(tenant: string, meter: string, exclude: int) returns (sum: real)
      ensures sum == ProjectLimitSum(rows, tenant, meter, exclude)
    {
      sum := 0.0;
      for i := 0 to |rows|
        invariant sum == LimitSum(rows, tenant, meter, exclude, i)
      {
        if CountsFor(rows[i], tenant, meter) && i != exclude {
          sum := sum + rows[i].limit;
        }
      }
    }

    method ValidateProjectOvercommit(limits: TenantLimits, q: Quota, exclude: int) returns (ok: bool)
      ensures ok == Fits(limits, rows, q, exclude)
    {
      var tenantLimit := limits(q.tenant, q.meter);
      if tenantLimit == 0.0 {
        return true;
      }
      var projectSum := SumProjectLimits(q.tenant, q.meter, exclude);
      ok := projectSum + q.limit <= tenantLimit;
    }

    method CreateQuota(limits: TenantLimits, q: Quota) returns (r: Result<int, QuotaError>)
      modifies this
      ensures rows == Advance(limits, old(rows), Create(q))
      ensures r == if !Creatable(q) then Err(InvalidQuota)
                   else if q.project != "" && !Fits(limits, old(rows), q, NO_ID) then Err(Overcommitted)
                   else Ok(|old(rows)|)
    {
      if !Creatable(q) {
        return Err(InvalidQuota);
      }
      if q.project != "" {
        var ok := ValidateProjectOvercommit(limits, q, NO_ID);
        if !ok {
          return Err(Overcommitted);
        }
      }
      r := Ok(|rows|);
      rows := rows + [Inserted(q)];
    }

    method UpdateQuota(limits: TenantLimits, id: nat, q: Quota) returns (r: Result<int, QuotaError>)
      modifies this
      ensures rows == Advance(limits, old(rows), Update(id, q))
      ensures r == if !ValidPeriod(q.period) then Err(InvalidQuota)
                   else if q.project != "" && q.limit > 0.0 && !Fits(limits, old(rows), q, id) then Err(Overcommitted)
                   else if id >= |old(rows)| then Err(NotFound)
                   else Ok(id)
    {
      if !ValidPeriod(q.period) {
        return Err(InvalidQuota);
      }
      if q.project != "" && q.limit > 0.0 {
        var ok := ValidateProjectOvercommit(limits, q, id);
        if !ok {
          return Err(Overcommitted);
        }
      }
      if id >= |rows| {
        return Err(NotFound);
      }
      rows := rows[id := q.(active := rows[id].active)];
      r := Ok(id);
    }

    method SoftDeleteQuota(id: nat) returns (ok: bool)
      modifies this
      ensures forall limits: TenantLimits :: rows == Advance(limits, old(rows), Delete(id))
      ensures ok == (id < |old(rows)| && old(rows)[id].active)
    {
      ok := id < |rows| && rows[id].active;
      if ok {
        rows := rows[id := rows[id].(active := false)];
      }
    }
  }
}
