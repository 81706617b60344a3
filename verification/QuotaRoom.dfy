/** The room a tenant limit leaves for projects: what is let in, what each step takes up, and what it gives back. */
module QuotaRoom {
  import opened Options
  import opened Periods
  import opened Quotas
  import opened Runs

  /** What a quota takes up of the limit of a tenant and meter: its own limit, if it is an active project quota. */
  function Takes(q: Quota, tenant: string, meter: string): real {
    if q.active && q.project != "" && q.tenant == tenant && q.meter == meter then q.limit else 0.0
  }

  /** What the rows from position `i` on take up. */
  function TakenFrom(rows: Table, tenant: string, meter: string, i: int): real
    requires 0 <= i <= |rows|
    decreases |rows| - i
  {
    if i == |rows| then 0.0 else Takes(rows[i], tenant, meter) + TakenFrom(rows, tenant, meter, i + 1)
  }

  /** What is left of the limit of a tenant and meter. */
  function Room(limits: TenantLimits, rows: Table, tenant: string, meter: string): real {
    limits(tenant, meter) - TakenFrom(rows, tenant, meter, 0)
  }

  lemma {:induction false} SumMeetsTaken(rows: Table, tenant: string, meter: string, n: int)
    requires 0 <= n <= |rows|
    ensures LimitSum(rows, tenant, meter, NO_ID, n) + TakenFrom(rows, tenant, meter, n) ==
            TakenFrom(rows, tenant, meter, 0)
    decreases n
  {
    if 0 < n {
      SumMeetsTaken(rows, tenant, meter, n - 1);
    }
  }

  lemma SumIsTaken(rows: Table, tenant: string, meter: string)
    ensures ProjectLimitSum(rows, tenant, meter, NO_ID) == TakenFrom(rows, tenant, meter, 0)
  {
    SumMeetsTaken(rows, tenant, meter, |rows|);
  }

  /** A project quota fits if there is no tenant limit or there is room for it. */
  predicate HasRoom(limits: TenantLimits, rows: Table, q: Quota, freed: real) {
    q.project == "" || limits(q.tenant, q.meter) == 0.0 || q.limit <= Room(limits, rows, q.tenant, q.meter) + freed
  }

  /** A create goes through if and only if tenant, meter and unit are named, the limit is positive, the period is
      valid and there is room. Then it adds one active row, monthly unless it says otherwise, and takes up exactly its
      limit. */
  lemma CreateTakesRoom(limits: TenantLimits, rows: Table, q: Quota, tenant: string, meter: string)
    ensures var next := Advance(limits, rows, Create(q));
            if q.tenant != "" && q.meter != "" && q.unit != "" && q.limit > 0.0 && ParsePeriod(q.period).Ok? &&
               HasRoom(limits, rows, q, 0.0)
            then
              var row := Quota(q.tenant, q.project, q.meter, q.unit, if q.period == "" then "monthly" else q.period,
                               q.limit, true);
              && next == rows + [row]
              && Room(limits, next, tenant, meter) == Room(limits, rows, tenant, meter) - Takes(row, tenant, meter)
            else next == rows
  {
    SumIsTaken(rows, q.tenant, q.meter);
    SumIsTaken(rows, tenant, meter);
    SumIsTaken(rows + [Inserted(q)], tenant, meter);
    SumAfterAppend(rows, tenant, meter, Inserted(q));
  }

  /** An update goes through if and only if the row exists, the period is valid, and the limit is not positive or
      there is room for it once the row itself is put aside. Then the row has the new fields, is active as before, and
      takes up its new limit instead of its old one. */
  lemma UpdateMovesRoom(limits: TenantLimits, rows: Table, id: nat, q: Quota, tenant: string, meter: string)
    ensures var next := Advance(limits, rows, Update(id, q));
            if id < |rows| && ParsePeriod(q.period).Ok? &&
               (q.limit <= 0.0 || HasRoom(limits, rows, q, Takes(rows[id], q.tenant, q.meter)))
            then
              var row := Quota(q.tenant, q.project, q.meter, q.unit, q.period, q.limit, rows[id].active);
              && next == rows[id := row]
              && Room(limits, next, tenant, meter) ==
                 Room(limits, rows, tenant, meter) + Takes(rows[id], tenant, meter) - Takes(row, tenant, meter)
            else next == rows
  {
    if id < |rows| {
      var row := q.(active := rows[id].active);
      SumIsTaken(rows, q.tenant, q.meter);
      SumAfterUpdate(rows, q.tenant, q.meter, id, row);
      SumIsTaken(rows, tenant, meter);
      SumIsTaken(rows[id := row], tenant, meter);
      SumAfterUpdate(rows, tenant, meter, id, row);
    }
  }

  /** A delete takes effect on an active row, once, and gives back exactly its limit. */
  lemma DeleteGivesRoom(limits: TenantLimits, rows: Table, id: nat, tenant: string, meter: string)
    ensures var next := Advance(limits, rows, Delete(id));
            if id < |rows| && rows[id].active then
              && next == rows[id := rows[id].(active := false)]
              && Room(limits, next, tenant, meter) == Room(limits, rows, tenant, meter) + Takes(rows[id], tenant, meter)
            else next == rows
  {
    if id < |rows| && rows[id].active {
      var row := rows[id].(active := false);
      SumIsTaken(rows, tenant, meter);
      SumIsTaken(rows[id := row], tenant, meter);
      SumAfterUpdate(rows, tenant, meter, id, row);
    }
  }

  /** Over any run without updates to negative limits, where there is a tenant limit, the room is never negative. */
  lemma RoomStaysOpen(limits: TenantLimits, steps: seq<Step>, tenant: string, meter: string)
    requires limits(tenant, meter) > 0.0
    requires forall i :: 0 <= i < |steps| && steps[i].Update? ==> steps[i].q.limit >= 0.0
    ensures var rows := After((rows: Table, step: Step) => Advance(limits, rows, step), [], steps, |steps|);
            Room(limits, rows, tenant, meter) >= 0.0
  {
    var rows := After((rows: Table, step: Step) => Advance(limits, rows, step), [], steps, |steps|);
    ProjectLimitsStayWithinTenantLimit(limits, steps, tenant, meter);
    SumIsTaken(rows, tenant, meter);
  }
}
