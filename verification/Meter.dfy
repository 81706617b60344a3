/** Uptime metering of compute instances: sweeps, inventory updates and final metering on delete.

    Times are instants in nanoseconds; an interval's uptime is its length. */
module Meter {
  import opened Options
  import opened Runs

  const RUNNING_LONG: string := "COMPUTE_INSTANCE_STATE_RUNNING"
  const RUNNING_SHORT: string := "RUNNING"

  datatype Instance = Instance(createdAt: int, lastMeteredAt: Option<int>, state: string, deletedAt: Option<int>)

  /** One metering entry; `final` marks the entry written when the instance was deleted. */
  datatype Entry = Entry(id: string, start: int, end: int, final: bool)

  datatype System = System(instances: map<string, Instance>, log: seq<Entry>)

  const START: System := System(map[], [])

  /** Where the next interval of an instance starts. */
  function PeriodStart(i: Instance): int {
    match i.lastMeteredAt
    case Some(t) => t
    case None => i.createdAt
  }

  /** What a sweep selects: alive, and running by the long name of the state only. */
  predicate Swept(i: Instance) {
    i.deletedAt.None? && i.state == RUNNING_LONG
  }

  /** What final metering accepts: either name of the state. */
  predicate Billable(i: Instance) {
    i.state == RUNNING_LONG || i.state == RUNNING_SHORT
  }

  /** A sweep meters one instance up to `now` and remembers how far it got. */
  function MeterOne(s: System, id: string, now: int): System {
    if id !in s.instances || !Swept(s.instances[id]) || now <= PeriodStart(s.instances[id]) then s
    else
      var i := s.instances[id];
      System(s.instances[id := i.(lastMeteredAt := Some(now))], s.log + [Entry(id, PeriodStart(i), now, false)])
  }

  /** Final metering writes the last interval but does not remember how far it got. */
  function MeterFinal(s: System, id: string, deletedAt: int): System {
    if id !in s.instances || !Billable(s.instances[id]) || deletedAt <= PeriodStart(s.instances[id]) then s
    else s.(log := s.log + [Entry(id, PeriodStart(s.instances[id]), deletedAt, true)])
  }

  function MarkDeleted(s: System, id: string, deletedAt: int): System {
    if id !in s.instances || s.instances[id].deletedAt.Some? then s
    else s.(instances := s.instances[id := s.instances[id].(deletedAt := Some(deletedAt))])
  }

  /** An update keeps the creation time and the metering time of a known instance. */
  function Upsert(s: System, id: string, createdAt: int, state: string, deletedAt: Option<int>): System {
    var next := if id in s.instances then s.instances[id].(state := state, deletedAt := deletedAt)
                else Instance(createdAt, None, state, deletedAt);
    s.(instances := s.instances[id := next])
  }

  datatype Step =
    | UpsertStep(id: string, createdAt: int, state: string, deletedAt: Option<int>)
    | MeterStep(id: string, now: int)
    | DeleteStep(id: string, at: int)

  function Advance(s: System, step: Step): System {
    match step
    case UpsertStep(id, createdAt, state, deletedAt) => Upsert(s, id, createdAt, state, deletedAt)
    case MeterStep(id, now) => MeterOne(s, id, now)
    case DeleteStep(id, at) => MarkDeleted(MeterFinal(s, id, at), id, at)
  }

  // ----- The intervals of one instance -----

  /** End of the last of the first `n` entries that is of the instance, or its creation time. */
  function LastEnd(log: seq<Entry>, id: string, created: int, n: int): int
    requires 0 <= n <= |log|
    decreases n
  {
    if n == 0 then created else if log[n - 1].id == id then log[n - 1].end else LastEnd(log, id, created, n - 1)
  }

  /** The intervals of the instance are not empty, and each starts where the one before it ended, the first at
      the creation time. */
  predicate Chained(log: seq<Entry>, id: string, created: int, n: int)
    requires 0 <= n <= |log|
    decreases n
  {
    n == 0 ||
    (Chained(log, id, created, n - 1) &&
     (log[n - 1].id == id ==>
        log[n - 1].start == LastEnd(log, id, created, n - 1) && log[n - 1].start < log[n - 1].end))
  }

  /** Metered uptime of the instance. */
  function Uptime(log: seq<Entry>, id: string, n: int): int
    requires 0 <= n <= |log|
    decreases n
  {
    if n == 0 then 0 else Uptime(log, id, n - 1) + if log[n - 1].id == id then log[n - 1].end - log[n - 1].start else 0
  }

  predicate HasFinal(log: seq<Entry>, id: string, n: int)
    requires 0 <= n <= |log|
  {
    exists i :: 0 <= i < n && log[i].id == id && log[i].final
  }

  /** Some entry of the instance follows its final one. */
  predicate MeteredAfterFinal(log: seq<Entry>, id: string, n: int)
    requires 0 <= n <= |log|
  {
    exists i, j :: 0 <= i < j < n && log[i].id == id && log[i].final && log[j].id == id
  }

  /** Chained intervals add up to the time from creation to the end of the last one. */
  lemma {:induction false} ChainedUptime(log: seq<Entry>, id: string, created: int, n: int)
    requires 0 <= n <= |log| && Chained(log, id, created, n)
    ensures Uptime(log, id, n) == LastEnd(log, id, created, n) - created
    decreases n
  {
    if 0 < n {
      ChainedUptime(log, id, created, n - 1);
    }
  }

  /** Chained intervals are disjoint and in time order. */
  lemma {:induction false} ChainedDisjoint(log: seq<Entry>, id: string, created: int, i: int, n: int)
    requires 0 <= i < n <= |log| && Chained(log, id, created, n) && log[i].id == id
    ensures log[i].end <= LastEnd(log, id, created, n)
    ensures forall j :: i < j < n && log[j].id == id ==> log[i].end <= log[j].start
    decreases n
  {
    if i < n - 1 {
      ChainedDisjoint(log, id, created, i, n - 1);
    }
  }

  // ----- The invariant -----

  predicate NoEntries(log: seq<Entry>, id: string) {
    forall i :: 0 <= i < |log| ==> log[i].id != id
  }

  /** The intervals of the instance form a chain until something is metered after its final interval, and then
      they do not. */
  predicate ChainFits(log: seq<Entry>, id: string, i: Instance) {
    var n := |log|;
    && (Chained(log, id, i.createdAt, n) <==> !MeteredAfterFinal(log, id, n))
    && (!HasFinal(log, id, n) ==> PeriodStart(i) == LastEnd(log, id, i.createdAt, n))
    && (HasFinal(log, id, n) && !MeteredAfterFinal(log, id, n) ==> PeriodStart(i) < LastEnd(log, id, i.createdAt, n))
  }

  predicate InstanceFits(s: System, id: string) {
    if id in s.instances then ChainFits(s.log, id, s.instances[id]) else NoEntries(s.log, id)
  }

  lemma {:induction false} PrefixChain(log: seq<Entry>, more: seq<Entry>, id: string, created: int, n: int)
    requires 0 <= n <= |log| && log <= more
    ensures Chained(more, id, created, n) == Chained(log, id, created, n)
    ensures LastEnd(more, id, created, n) == LastEnd(log, id, created, n)
    decreases n
  {
    if 0 < n {
      PrefixChain(log, more, id, created, n - 1);
    }
  }

  lemma FinalsAfterAppend(log: seq<Entry>, e: Entry, id: string)
    ensures var more, n := log + [e], |log|;
            && (HasFinal(more, id, n + 1) <==> HasFinal(log, id, n) || (e.id == id && e.final))
            && (MeteredAfterFinal(more, id, n + 1) <==>
                  MeteredAfterFinal(log, id, n) || (e.id == id && HasFinal(log, id, n)))
  {
    var more, n := log + [e], |log|;
    if HasFinal(log, id, n) {
      var i :| 0 <= i < n && log[i].id == id && log[i].final;
      assert more[i] == log[i] && more[n] == e;
    }
    if MeteredAfterFinal(log, id, n) {
      var i, j :| 0 <= i < j < n && log[i].id == id && log[i].final && log[j].id == id;
      assert more[i] == log[i] && more[j] == log[j];
    }
    if e.id == id && e.final {
      assert more[n] == e;
    }
  }

  /** Another instance's entry changes nothing for this one. */
  lemma OtherEntry(log: seq<Entry>, e: Entry, id: string, i: Instance)
    requires ChainFits(log, id, i) && e.id != id
    ensures ChainFits(log + [e], id, i)
  {
    PrefixChain(log, log + [e], id, i.createdAt, |log|);
    FinalsAfterAppend(log, e, id);
  }

  /** An entry of the instance from where its next interval starts. */
  lemma OwnEntry(log: seq<Entry>, e: Entry, id: string, i: Instance)
    requires ChainFits(log, id, i) && e.id == id && e.start == PeriodStart(i) && e.start < e.end
    ensures ChainFits(log + [e], id, if e.final then i else i.(lastMeteredAt := Some(e.end)))
  {
    PrefixChain(log, log + [e], id, i.createdAt, |log|);
    FinalsAfterAppend(log, e, id);
  }

  lemma NoEntriesFit(log: seq<Entry>, id: string, i: Instance)
    requires NoEntries(log, id) && i.lastMeteredAt.None?
    ensures ChainFits(log, id, i)
  {
    NothingChained(log, id, i.createdAt, |log|);
  }

  lemma {:induction false} NothingChained(log: seq<Entry>, id: string, created: int, n: int)
    requires NoEntries(log, id) && 0 <= n <= |log|
    ensures Chained(log, id, created, n) && LastEnd(log, id, created, n) == created
    decreases n
  {
    if 0 < n {
      NothingChained(log, id, created, n - 1);
    }
  }

  lemma MeterOneKeeps(s: System, other: string, now: int, id: string)
    requires InstanceFits(s, id)
    ensures InstanceFits(MeterOne(s, other, now), id)
  {
    var next := MeterOne(s, other, now);
    if next != s {
      var e := next.log[|s.log|];
      if other == id {
        OwnEntry(s.log, e, id, s.instances[id]);
      } else if id in s.instances {
        OtherEntry(s.log, e, id, s.instances[id]);
      }
    }
  }

  lemma MeterFinalKeeps(s: System, other: string, deletedAt: int, id: string)
    requires InstanceFits(s, id)
    ensures InstanceFits(MeterFinal(s, other, deletedAt), id)
  {
    var next := MeterFinal(s, other, deletedAt);
    if next != s {
      var e := next.log[|s.log|];
      if other == id {
        OwnEntry(s.log, e, id, s.instances[id]);
      } else if id in s.instances {
        OtherEntry(s.log, e, id, s.instances[id]);
      }
    }
  }

  lemma AdvanceKeeps(s: System, step: Step, id: string)
    requires InstanceFits(s, id)
    ensures InstanceFits(Advance(s, step), id)
  {
    match step
    case UpsertStep(other, createdAt, state, deletedAt) =>
      if other == id && id !in s.instances {
        NoEntriesFit(s.log, id, Advance(s, step).instances[id]);
      }
    case MeterStep(other, now) => MeterOneKeeps(s, other, now, id);
    case DeleteStep(other, at) => MeterFinalKeeps(s, other, at, id);
  }

  /** For arbitrary clock readings and any mix of sweeps, inventory updates and deletes, the uptime intervals of
      an instance are disjoint, adjacent from its first recorded creation time on, and add up to the end of the
      last one minus that time, if and only if nothing is metered after its final interval. */
  lemma UptimeIsElapsedTime(steps: seq<Step>, id: string)
    ensures var s := After(Advance, START, steps, |steps|);
            id in s.instances ==>
              var created, n := s.instances[id].createdAt, |s.log|;
              && (Chained(s.log, id, created, n) <==> !MeteredAfterFinal(s.log, id, n))
              && (Chained(s.log, id, created, n) ==> Uptime(s.log, id, n) == LastEnd(s.log, id, created, n) - created)
  {
    var inv := (s: System) => InstanceFits(s, id);
    forall s: System, step: Step | inv(s) ensures inv(Advance(s, step)) {
      AdvanceKeeps(s, step, id);
    }
    Induction(Advance, START, steps, |steps|, inv);
    var s := After(Advance, START, steps, |steps|);
    if id in s.instances && Chained(s.log, id, s.instances[id].createdAt, |s.log|) {
      ChainedUptime(s.log, id, s.instances[id].createdAt, |s.log|);
    }
  }

  /** The step writes an interval of the instance: the guards of the writing branches. */
  predicate Writes(s: System, step: Step, id: string) {
    id in s.instances &&
    match step
    case UpsertStep(_, _, _, _) => false
    case MeterStep(other, now) => other == id && Swept(s.instances[id]) && PeriodStart(s.instances[id]) < now
    case DeleteStep(other, at) => other == id && Billable(s.instances[id]) && PeriodStart(s.instances[id]) < at
  }

  lemma ChainAfterStep(s: System, step: Step, id: string)
    requires InstanceFits(s, id) && id in s.instances
    ensures id in Advance(s, step).instances && Advance(s, step).instances[id].createdAt == s.instances[id].createdAt
    ensures MeteredAfterFinal(Advance(s, step).log, id, |Advance(s, step).log|) <==>
            MeteredAfterFinal(s.log, id, |s.log|) || (HasFinal(s.log, id, |s.log|) && Writes(s, step, id))
  {
    var next := Advance(s, step);
    if |next.log| > |s.log| {
      FinalsAfterAppend(s.log, next.log[|s.log|], id);
    }
  }

  /** From a chained state, the next step keeps the chain if and only if it is not the case that the instance has
      had its final interval and the step writes another one. */
  lemma StepKeepsChainIff(s: System, step: Step, id: string)
    requires InstanceFits(s, id) && id in s.instances && Chained(s.log, id, s.instances[id].createdAt, |s.log|)
    ensures Chained(Advance(s, step).log, id, s.instances[id].createdAt, |Advance(s, step).log|) <==>
            !(HasFinal(s.log, id, |s.log|) && Writes(s, step, id))
  {
    AdvanceKeeps(s, step, id);
    ChainAfterStep(s, step, id);
  }

  /** A step that writes nothing after the final interval of the instance. */
  predicate Quiet(s: System, step: Step, id: string) {
    !(HasFinal(s.log, id, |s.log|) && Writes(s, step, id))
  }

  predicate StillChained(s: System, id: string) {
    InstanceFits(s, id) && (id in s.instances ==> Chained(s.log, id, s.instances[id].createdAt, |s.log|))
  }

  lemma QuietStep(s: System, step: Step, id: string)
    requires StillChained(s, id) && Quiet(s, step, id)
    ensures StillChained(Advance(s, step), id)
  {
    AdvanceKeeps(s, step, id);
    if id in s.instances {
      StepKeepsChainIff(s, step, id);
      ChainAfterStep(s, step, id);
    } else if id in Advance(s, step).instances {
      NothingChained(s.log, id, Advance(s, step).instances[id].createdAt, |s.log|);
    }
  }

  /** Over every run whose steps write nothing after the final interval of the instance, redelivered deletes that
      come too early to write included: its intervals form one chain, and add up to elapsed time. */
  lemma QuietRunsAreChained(steps: seq<Step>, id: string)
    requires forall i :: 0 <= i < |steps| ==> Quiet(After(Advance, START, steps, i), steps[i], id)
    ensures var s := After(Advance, START, steps, |steps|);
            id in s.instances ==>
              var created, n := s.instances[id].createdAt, |s.log|;
              Chained(s.log, id, created, n) && Uptime(s.log, id, n) == LastEnd(s.log, id, created, n) - created
  {
    var permits := (s: System, step: Step) => Quiet(s, step, id);
    var inv := (s: System) => StillChained(s, id);
    forall s: System, step: Step | inv(s) && permits(s, step) ensures inv(Advance(s, step)) {
      QuietStep(s, step, id);
    }
    GuardedInduction(Advance, START, steps, |steps|, permits, inv);
    var s := After(Advance, START, steps, |steps|);
    if id in s.instances {
      ChainedUptime(s.log, id, s.instances[id].createdAt, |s.log|);
    }
  }

  /** In such a state the instance has had its final interval exactly if its next interval would start before the
      end of its last one, which the tables show. */
  lemma FinalShows(s: System, id: string)
    requires InstanceFits(s, id) && id in s.instances && Chained(s.log, id, s.instances[id].createdAt, |s.log|)
    ensures HasFinal(s.log, id, |s.log|) <==>
            PeriodStart(s.instances[id]) < LastEnd(s.log, id, s.instances[id].createdAt, |s.log|)
  {
  }

  // ----- Uptime over every run -----

  /** Length of the last of the first `n` entries of the instance, if that entry is final. */
  function OpenFinal(log: seq<Entry>, id: string, n: int): int
    requires 0 <= n <= |log|
    decreases n
  {
    if n == 0 then 0
    else if log[n - 1].id != id then OpenFinal(log, id, n - 1)
    else if log[n - 1].final then log[n - 1].end - log[n - 1].start else 0
  }

  /** Total length of the final intervals that another entry of the instance followed. */
  function FollowedFinals(log: seq<Entry>, id: string, n: int): int
    requires 0 <= n <= |log|
    decreases n
  {
    if n == 0 then 0
    else FollowedFinals(log, id, n - 1) + if log[n - 1].id == id then OpenFinal(log, id, n - 1) else 0
  }

  /** The next interval starts at the end of the last one, or at its start again if that was final; and uptime
      exceeds elapsed time by the final intervals that were followed. */
  predicate Accounted(s: System, id: string) {
    if id in s.instances then
      var created, n := s.instances[id].createdAt, |s.log|;
      && PeriodStart(s.instances[id]) == LastEnd(s.log, id, created, n) - OpenFinal(s.log, id, n)
      && Uptime(s.log, id, n) == LastEnd(s.log, id, created, n) - created + FollowedFinals(s.log, id, n)
    else NoEntries(s.log, id)
  }

  lemma {:induction false} AccountsOfPrefix(log: seq<Entry>, more: seq<Entry>, id: string, created: int, n: int)
    requires 0 <= n <= |log| && log <= more
    ensures LastEnd(more, id, created, n) == LastEnd(log, id, created, n) && Uptime(more, id, n) == Uptime(log, id, n)
    ensures OpenFinal(more, id, n) == OpenFinal(log, id, n) && FollowedFinals(more, id, n) == FollowedFinals(log, id, n)
    decreases n
  {
    if 0 < n {
      AccountsOfPrefix(log, more, id, created, n - 1);
    }
  }

  lemma {:induction false} NothingAccounted(log: seq<Entry>, id: string, created: int, n: int)
    requires NoEntries(log, id) && 0 <= n <= |log|
    ensures LastEnd(log, id, created, n) == created && Uptime(log, id, n) == 0
    ensures OpenFinal(log, id, n) == 0 && FollowedFinals(log, id, n) == 0
    decreases n
  {
    if 0 < n {
      NothingAccounted(log, id, created, n - 1);
    }
  }

  lemma AccountedStep(s: System, step: Step, id: string)
    requires Accounted(s, id)
    ensures Accounted(Advance(s, step), id)
  {
    var next := Advance(s, step);
    if id in next.instances {
      AccountsOfPrefix(s.log, next.log, id, next.instances[id].createdAt, |s.log|);
      if id !in s.instances {
        NothingAccounted(s.log, id, next.instances[id].createdAt, |s.log|);
      }
    }
  }

  /** Over every run, deletes redelivered and instances revived included: the metered uptime of an instance is the
      time from its creation to the end of its last interval, plus the length of every final interval after which
      something more was metered. */
  lemma UptimeOverEveryRun(steps: seq<Step>, id: string)
    ensures var s := After(Advance, START, steps, |steps|);
            id in s.instances ==>
              var created, n := s.instances[id].createdAt, |s.log|;
              Uptime(s.log, id, n) == LastEnd(s.log, id, created, n) - created + FollowedFinals(s.log, id, n)
  {
    var inv := (s: System) => Accounted(s, id);
    forall s: System, step: Step | inv(s) ensures inv(Advance(s, step)) {
      AccountedStep(s, step, id);
    }
    Induction(Advance, START, steps, |steps|, inv);
  }

  /** For instance an instance that runs for some time and whose delete event is delivered twice is metered twice
      that time: final metering does not look at the deletion time. */
  lemma RedeliveredDelete(id: string, created: int, at: int)
    requires created < at
    ensures var s := Advance(START, UpsertStep(id, created, RUNNING_LONG, None));
            var twice := Advance(Advance(s, DeleteStep(id, at)), DeleteStep(id, at));
            && id in twice.instances && twice.instances[id].createdAt == created && |twice.log| == 2
            && Uptime(twice.log, id, 2) == 2 * (at - created)
            && LastEnd(twice.log, id, created, 2) == at && !Chained(twice.log, id, created, 2)
  {
    var s := Advance(START, UpsertStep(id, created, RUNNING_LONG, None));
    var once := Advance(s, DeleteStep(id, at));
    var twice := Advance(once, DeleteStep(id, at));
    var e := Entry(id, created, at, true);
    assert once.log == [e] && twice.log == [e, e];
    assert Uptime(twice.log, id, 1) == at - created + Uptime(twice.log, id, 0);
    assert LastEnd(twice.log, id, created, 1) == at;
  }

  // ----- A delete that ends the run -----

  predicate Touches(step: Step, id: string) {
    (step.UpsertStep? || step.DeleteStep?) && step.id == id
  }

  predicate Alive(s: System, id: string) {
    InstanceFits(s, id) && !HasFinal(s.log, id, |s.log|)
  }

  predicate Ended(s: System, id: string) {
    && InstanceFits(s, id) && !MeteredAfterFinal(s.log, id, |s.log|)
    && (id in s.instances ==> s.instances[id].deletedAt.Some?)
  }

  lemma AliveStep(s: System, step: Step, id: string)
    requires Alive(s, id) && !(step.DeleteStep? && step.id == id)
    ensures Alive(Advance(s, step), id)
  {
    AdvanceKeeps(s, step, id);
    if |Advance(s, step).log| > |s.log| {
      FinalsAfterAppend(s.log, Advance(s, step).log[|s.log|], id);
    }
  }

  lemma DeleteEnds(s: System, id: string, at: int)
    requires Alive(s, id)
    ensures Ended(Advance(s, DeleteStep(id, at)), id)
  {
    var next := Advance(s, DeleteStep(id, at));
    AdvanceKeeps(s, DeleteStep(id, at), id);
    if |next.log| > |s.log| {
      FinalsAfterAppend(s.log, next.log[|s.log|], id);
    }
  }

  lemma EndedStep(s: System, step: Step, id: string)
    requires Ended(s, id) && !Touches(step, id)
    ensures Ended(Advance(s, step), id)
  {
    AdvanceKeeps(s, step, id);
    if |Advance(s, step).log| > |s.log| {
      FinalsAfterAppend(s.log, Advance(s, step).log[|s.log|], id);
    }
  }

  lemma AliveAlong(steps: seq<Step>, id: string)
    requires forall i :: 0 <= i < |steps| ==> !(steps[i].DeleteStep? && steps[i].id == id)
    ensures Alive(After(Advance, START, steps, |steps|), id)
  {
    var inv := (s: System) => Alive(s, id);
    forall s: System, step: Step | inv(s) && step in steps ensures inv(Advance(s, step)) {
      AliveStep(s, step, id);
    }
    Induction(Advance, START, steps, |steps|, inv);
  }

  lemma EndedAlong(s: System, steps: seq<Step>, id: string)
    requires Ended(s, id) && forall i :: 0 <= i < |steps| ==> !Touches(steps[i], id)
    ensures Ended(After(Advance, s, steps, |steps|), id)
  {
    var inv := (s: System) => Ended(s, id);
    forall s: System, step: Step | inv(s) && step in steps ensures inv(Advance(s, step)) {
      EndedStep(s, step, id);
    }
    Induction(Advance, s, steps, |steps|, inv);
  }

  /** If a delete is the last word about an instance, its intervals form one chain from creation to the last
      end, final interval included. */
  lemma DeleteEndsTheChain(before: seq<Step>, id: string, at: int, later: seq<Step>)
    requires forall i :: 0 <= i < |before| ==> !(before[i].DeleteStep? && before[i].id == id)
    requires forall i :: 0 <= i < |later| ==> !Touches(later[i], id)
    ensures var s := After(Advance, Advance(After(Advance, START, before, |before|), DeleteStep(id, at)), later,
                           |later|);
            id in s.instances ==>
              var created, n := s.instances[id].createdAt, |s.log|;
              Chained(s.log, id, created, n) && Uptime(s.log, id, n) == LastEnd(s.log, id, created, n) - created
  {
    var mid := After(Advance, START, before, |before|);
    AliveAlong(before, id);
    DeleteEnds(mid, id, at);
    EndedAlong(Advance(mid, DeleteStep(id, at)), later, id);
    var s := After(Advance, Advance(mid, DeleteStep(id, at)), later, |later|);
    if id in s.instances {
      ChainedUptime(s.log, id, s.instances[id].createdAt, |s.log|);
    }
  }

  predicate SameCreation(s: System, id: string, created: int) {
    id in s.instances && s.instances[id].createdAt == created
  }

  /** The creation time recorded first stays. */
  lemma CreationTimeIsFixed(s: System, steps: seq<Step>, id: string)
    requires id in s.instances
    ensures SameCreation(After(Advance, s, steps, |steps|), id, s.instances[id].createdAt)
  {
    var created := s.instances[id].createdAt;
    var inv := (t: System) => SameCreation(t, id, created);
    Induction(Advance, s, steps, |steps|, inv);
  }

  // ----- The sweep -----

  /** The instances a sweep goes through, each once. */
  predicate IsSweepList(instances: map<string, Instance>, ids: seq<string>) {
    && (forall i :: 0 <= i < |ids| ==> ids[i] in instances && Swept(instances[ids[i]]))
    && (forall i, j :: 0 <= i < j < |ids| ==> ids[i] != ids[j])
    && (forall id :: id in instances && Swept(instances[id]) ==> id in ids)
  }

  /** The state after the first `n` instances of a sweep. */
  function MeterAll(s: System, ids: seq<string>, now: int, n: int): System
    requires 0 <= n <= |ids|
    decreases n
  {
    if n == 0 then s else MeterOne(MeterAll(s, ids, now, n - 1), ids[n - 1], now)
  }

  lemma {:induction false} NotYetMetered(s: System, ids: seq<string>, now: int, n: int, j: int)
    requires 0 <= n <= j < |ids| && IsSweepList(s.instances, ids)
    ensures ids[j] in MeterAll(s, ids, now, n).instances
    ensures MeterAll(s, ids, now, n).instances[ids[j]] == s.instances[ids[j]]
    decreases n
  {
    if 0 < n {
      NotYetMetered(s, ids, now, n - 1, j);
    }
  }

  /** A sweep brings every instance it goes through up to `now`, unless that instance is already past it. */
  lemma {:induction false} SweepReachesNow(s: System, ids: seq<string>, now: int, n: int, j: int)
    requires 0 <= j < n <= |ids| && IsSweepList(s.instances, ids)
    ensures var next := MeterAll(s, ids, now, n).instances;
            && ids[j] in next
            && PeriodStart(next[ids[j]]) ==
               if now <= PeriodStart(s.instances[ids[j]]) then PeriodStart(s.instances[ids[j]]) else now
    decreases n
  {
    if j < n - 1 {
      SweepReachesNow(s, ids, now, n - 1, j);
    } else {
      NotYetMetered(s, ids, now, n - 1, j);
    }
  }

  class Store {
    var instances: map<string, Instance>
    var log: seq<Entry>

    function State(): System
      reads this
    {
      System(instances, log)
    }

    /** The metering sweep over the instances `ids`, as the database returns them. */
    method MeterComputeInstances(ids: seq<string>, now: int)
      requires IsSweepList(instances, ids)
      modifies this
      ensures State() == MeterAll(old(State()), ids, now, |ids|)
    {
      ghost var s := State();
      var listed := instances;
      for k := 0 to |ids|
        invariant State() == MeterAll(s, ids, now, k)
      {
        NotYetMetered(s, ids, now, k, k);
        var inst := listed[ids[k]];
        var periodStart := if inst.lastMeteredAt.Some? then inst.lastMeteredAt.value else inst.createdAt;
        if now <= periodStart {
          continue;
        }
        log := log + [Entry(ids[k], periodStart, now, false)];
        instances := instances[ids[k] := instances[ids[k]].(lastMeteredAt := Some(now))];
      }
    }

    method MeterComputeInstanceFinal(id: string, deletedAt: int)
      modifies this`log
      ensures State() == MeterFinal(old(State()), id, deletedAt)
    {
      if id !in instances || !Billable(instances[id]) {
        return;
      }
      var periodStart := PeriodStart(instances[id]);
      if deletedAt <= periodStart {
        return;
      }
      log := log + [Entry(id, periodStart, deletedAt, true)];
    }
  }
}
