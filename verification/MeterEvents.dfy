/** What the meter knows of an instance, told from the events, and what it meters for it. */
module MeterEvents {
  import opened Options
  import opened Meter
  import opened Runs

  // ----- The inventory follows the events -----

  predicate Updates(step: Step, id: string) {
    step.UpsertStep? && step.id == id
  }

  /** The creation time in the first update of the instance. */
  function FirstCreated(steps: seq<Step>, id: string, n: int): Option<int>
    requires 0 <= n <= |steps|
    decreases n
  {
    if n == 0 then None
    else if FirstCreated(steps, id, n - 1).Some? then FirstCreated(steps, id, n - 1)
    else if Updates(steps[n - 1], id) then Some(steps[n - 1].createdAt) else None
  }

  /** The state in its last update. */
  function LastState(steps: seq<Step>, id: string, n: int): Option<string>
    requires 0 <= n <= |steps|
    decreases n
  {
    if n == 0 then None
    else if Updates(steps[n - 1], id) then Some(steps[n - 1].state) else LastState(steps, id, n - 1)
  }

  /** The deletion time in its last update, or that of the first delete since. */
  function LastDeleted(steps: seq<Step>, id: string, n: int): Option<int>
    requires 0 <= n <= |steps|
    decreases n
  {
    if n == 0 then None
    else if Updates(steps[n - 1], id) then steps[n - 1].deletedAt
    else
      var before := LastDeleted(steps, id, n - 1);
      if steps[n - 1].DeleteStep? && steps[n - 1].id == id && before.None? && LastState(steps, id, n - 1).Some?
      then Some(steps[n - 1].at) else before
  }

  /** The instance is known once it was updated, with these. */
  predicate Follows(steps: seq<Step>, id: string, n: int, s: System)
    requires 0 <= n <= |steps|
  {
    if id in s.instances then
      && FirstCreated(steps, id, n) == Some(s.instances[id].createdAt)
      && LastState(steps, id, n) == Some(s.instances[id].state)
      && LastDeleted(steps, id, n) == s.instances[id].deletedAt
    else FirstCreated(steps, id, n).None? && LastState(steps, id, n).None? && LastDeleted(steps, id, n).None?
  }

  lemma FollowsStep(steps: seq<Step>, id: string, n: int, s: System)
    requires 0 <= n < |steps| && Follows(steps, id, n, s)
    ensures Follows(steps, id, n + 1, Advance(s, steps[n]))
  {
  }

  /** Over every run: an instance is known exactly if it was updated; it keeps the creation time of its first update,
      has the state of its last one, and is deleted as its last update says or since the first delete after it. */
  lemma {:induction false} InventoryFollowsEvents(steps: seq<Step>, id: string, n: int)
    requires 0 <= n <= |steps|
    ensures Follows(steps, id, n, After(Advance, START, steps, n))
    decreases n
  {
    if 0 < n {
      InventoryFollowsEvents(steps, id, n - 1);
      FollowsStep(steps, id, n - 1, After(Advance, START, steps, n - 1));
    }
  }

  // ----- What is metered -----

  /** Nothing final was metered for the instance, and it is known. */
  predicate Open(s: System, id: string) {
    id in s.instances && InstanceFits(s, id) && !HasFinal(s.log, id, |s.log|)
  }

  lemma NothingFollowsFinal(log: seq<Entry>, id: string, n: int)
    requires 0 <= n <= |log| && !HasFinal(log, id, n)
    ensures !MeteredAfterFinal(log, id, n)
  {
  }

  /** A sweep meters an instance that is alive and running, by the long name of that state, up to now: its uptime is
      then all the time since its creation. Others are left as they are. */
  lemma SweptUptime(s: System, id: string, now: int)
    requires Open(s, id) && PeriodStart(s.instances[id]) <= now
    ensures var i, next := s.instances[id], Advance(s, MeterStep(id, now));
            if i.deletedAt.None? && i.state == "COMPUTE_INSTANCE_STATE_RUNNING" then
              Open(next, id) && PeriodStart(next.instances[id]) == now &&
              Uptime(next.log, id, |next.log|) == now - i.createdAt
            else next == s
  {
    var i, next := s.instances[id], Advance(s, MeterStep(id, now));
    AdvanceKeeps(s, MeterStep(id, now), id);
    NothingFollowsFinal(next.log, id, |next.log|);
    if i.deletedAt.None? && i.state == "COMPUTE_INSTANCE_STATE_RUNNING" {
      ChainedUptime(next.log, id, i.createdAt, |next.log|);
    }
  }

  lemma FinalAdded(log: seq<Entry>, e: Entry, id: string)
    requires e.id == id && !HasFinal(log, id, |log|)
    ensures !MeteredAfterFinal(log + [e], id, |log| + 1)
  {
  }

  /** A delete meters an instance that is running, by either name of that state, up to the deletion: its uptime is
      then all the time from its creation to its deletion. It marks the instance deleted unless it was. */
  lemma DeletedUptime(s: System, id: string, at: int)
    requires Open(s, id) && PeriodStart(s.instances[id]) <= at
    ensures var i, next := s.instances[id], Advance(s, DeleteStep(id, at));
            && (if i.state == "COMPUTE_INSTANCE_STATE_RUNNING" || i.state == "RUNNING"
                then Uptime(next.log, id, |next.log|) == at - i.createdAt else next.log == s.log)
            && id in next.instances
            && next.instances[id] == i.(deletedAt := if i.deletedAt.None? then Some(at) else i.deletedAt)
  {
    var i, next := s.instances[id], Advance(s, DeleteStep(id, at));
    AdvanceKeeps(s, DeleteStep(id, at), id);
    NothingFollowsFinal(s.log, id, |s.log|);
    if next.log != s.log {
      FinalAdded(s.log, next.log[|s.log|], id);
      assert next.log == s.log + [next.log[|s.log|]];
      ChainedUptime(next.log, id, i.createdAt, |next.log|);
    } else {
      ChainedUptime(s.log, id, i.createdAt, |s.log|);
    }
  }

  /** Over every run the invariant these need holds. */
  lemma EveryRunFits(steps: seq<Step>, id: string)
    ensures InstanceFits(After(Advance, START, steps, |steps|), id)
  {
    var inv := (s: System) => InstanceFits(s, id);
    forall s: System, step: Step | inv(s) ensures inv(Advance(s, step)) {
      AdvanceKeeps(s, step, id);
    }
    Induction(Advance, START, steps, |steps|, inv);
  }
}
