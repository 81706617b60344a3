/** Forwarding raw events by a stored cursor: what the cursor promises under failures and crashes. */
module Forwarder {
  import opened Numbers
  import opened Runs

  const BATCH_SIZE: nat := 100
  const MAX_ERRORS: nat := 3

  /** The answer to "the first `limit` rows after `after`, in id order". */
  predicate IsAnswer(table: set<int>, after: int, limit: nat, rows: seq<int>) {
    && |rows| <= limit
    && (forall i :: 0 <= i < |rows| ==> rows[i] in table && after < rows[i])
    && (forall i, j :: 0 <= i < j < |rows| ==> rows[i] < rows[j])
    && (forall id :: id in table && after < id ==>
          id in rows || (|rows| == limit && (limit == 0 || rows[limit - 1] < id)))
  }

  function Last(rows: seq<int>): int
    requires rows != []
  {
    rows[|rows| - 1]
  }

  // ----- The protocol -----

  /** Where the forwarder stands in its sweep. */
  datatype Phase =
    | Idle
    | Ready(cursor: int, errors: nat)
    | Fetched(cursor: int, errors: nat, rows: seq<int>)
    | Posted(rows: seq<int>)

  /** The visible rows, the stored cursor, and everything the receiver got, in order. */
  datatype System = System(table: set<int>, cursor: int, delivered: seq<int>, phase: Phase)

  const START: System := System({}, 0, [], Idle)

  /** A post is accepted, refused, or accepted with its reply lost. */
  datatype Reply = Accepted | Refused | Lost

  datatype Step =
    | Insert(id: int)
    | LateInsert(id: int)
    | Start(readOk: bool)
    | Fetch(rows: seq<int>)
    | FetchFails
    | Post(reply: Reply)
    | WriteCursor(ok: bool)
    | Crash

  predicate Newer(table: set<int>, id: int) {
    0 < id && forall x :: x in table ==> x < id
  }

  /** A failed post retries from the same cursor, up to three times in a row. */
  function AfterError(cursor: int, errors: nat): Phase {
    if errors + 1 >= MAX_ERRORS then Idle else Ready(cursor, errors + 1)
  }

  function Advance(s: System, step: Step): System {
    match step
    case Insert(id) => if Newer(s.table, id) then s.(table := s.table + {id}) else s
    case LateInsert(id) => s.(table := s.table + {id})
    case Start(readOk) => if s.phase.Idle? then s.(phase := Ready(if readOk then s.cursor else 0, 0)) else s
    case Fetch(rows) =>
      if !s.phase.Ready? || !IsAnswer(s.table, s.phase.cursor, BATCH_SIZE, rows) then s
      else s.(phase := if rows == [] then Idle else Fetched(s.phase.cursor, s.phase.errors, rows))
    case FetchFails => if s.phase.Ready? then s.(phase := Idle) else s
    case Post(reply) =>
      if !s.phase.Fetched? then s
      else
        var got := if reply.Refused? then s.delivered else s.delivered + s.phase.rows;
        s.(delivered := got,
           phase := if reply.Accepted? then Posted(s.phase.rows) else AfterError(s.phase.cursor, s.phase.errors))
    case WriteCursor(ok) =>
      if !s.phase.Posted? || s.phase.rows == [] then s
      else if !ok then s.(phase := Idle)
      else s.(cursor := Last(s.phase.rows),
              phase := if |s.phase.rows| < BATCH_SIZE then Idle else Ready(Last(s.phase.rows), 0))
    case Crash => s.(phase := Idle)
  }

  // ----- Everything up to the cursor is delivered, in order -----

  /** Every row up to `cursor` has been delivered. */
  predicate Covered(s: System, cursor: int) {
    forall id :: id in s.table && id <= cursor ==> id in s.delivered
  }

  /** Whatever has been delivered, all smaller rows were delivered before it. */
  predicate InOrder(s: System) {
    forall p, id :: 0 <= p < |s.delivered| && id in s.table && id < s.delivered[p] ==> id in s.delivered[..p]
  }

  predicate Increasing(rows: seq<int>) {
    forall i, j :: 0 <= i < j < |rows| ==> rows[i] < rows[j]
  }

  /** The fetched rows are rows of the table, in order, and leave none out from `cursor` to the last of them. */
  predicate Contiguous(s: System, cursor: int, rows: seq<int>) {
    && rows != [] && Increasing(rows)
    && (forall i :: 0 <= i < |rows| ==> rows[i] in s.table && cursor < rows[i])
    && (forall id :: id in s.table && cursor < id <= Last(rows) ==> id in rows)
  }

  predicate PhaseFits(s: System) {
    match s.phase
    case Idle => true
    case Ready(cursor, _) => Covered(s, cursor)
    case Fetched(cursor, _, rows) => Covered(s, cursor) && Contiguous(s, cursor, rows)
    case Posted(rows) => rows != [] && Last(rows) in s.table && Covered(s, Last(rows))
  }

  /** Rows have positive ids, only rows are delivered, and the cursor has reached only rows. */
  predicate Sane(s: System) {
    && (forall id :: id in s.table ==> 0 < id)
    && (forall i :: 0 <= i < |s.delivered| ==> s.delivered[i] in s.table)
    && (s.cursor == 0 || s.cursor in s.table)
    && (s.phase.Ready? || s.phase.Fetched? ==> s.phase.cursor == 0 || s.phase.cursor in s.table)
  }

  /** Every row up to the cursors has been delivered. */
  predicate CoverFits(s: System) {
    Sane(s) && Covered(s, s.cursor) && PhaseFits(s)
  }

  predicate Fits(s: System) {
    CoverFits(s) && InOrder(s)
  }

  /** How far the stored cursor has come or will come with the batch under way. */
  function Reach(s: System): int {
    match s.phase
    case Idle => s.cursor
    case Ready(cursor, _) => MaxInt(s.cursor, cursor)
    case Fetched(cursor, _, rows) => if rows == [] then s.cursor else MaxInt(s.cursor, Last(rows))
    case Posted(rows) => if rows == [] then s.cursor else MaxInt(s.cursor, Last(rows))
  }

  /** A new row keeps everything covered if and only if it lies beyond the cursors and the batch under way. */
  lemma NewRowCoveredIff(s: System, id: int)
    requires CoverFits(s) && id !in s.table && 0 < id
    ensures CoverFits(s.(table := s.table + {id})) <==> Reach(s) < id
  {
    var next := s.(table := s.table + {id});
    assert id !in s.delivered;
    if s.phase.Fetched? {
      assert Last(s.phase.rows) in s.table && s.phase.cursor < Last(s.phase.rows);
      assert id !in s.phase.rows;
    }
  }

  lemma NewerIsBeyondReach(s: System, id: int)
    requires CoverFits(s) && Newer(s.table, id)
    ensures id !in s.table && Reach(s) < id
  {
    if s.phase.Fetched? {
      assert Last(s.phase.rows) in s.table;
    }
  }

  lemma FetchKeeps(s: System, rows: seq<int>)
    requires CoverFits(s) && s.phase.Ready? && rows != [] && IsAnswer(s.table, s.phase.cursor, BATCH_SIZE, rows)
    ensures CoverFits(s.(phase := Fetched(s.phase.cursor, s.phase.errors, rows)))
  {
  }

  /** Posting a contiguous stretch after a covered cursor covers it, and keeps the order of delivery. */
  lemma PostInOrder(s: System, cursor: int, rows: seq<int>, next: System)
    requires Covered(s, cursor) && Contiguous(s, cursor, rows)
    requires next.table == s.table && next.delivered == s.delivered + rows
    ensures Covered(next, Last(rows)) && (InOrder(s) ==> InOrder(next))
  {
    if InOrder(s) {
      var m := |s.delivered|;
      forall p, id | 0 <= p < |next.delivered| && id in next.table && id < next.delivered[p]
        ensures id in next.delivered[..p]
      {
        if p < m {
          assert next.delivered[p] == s.delivered[p] && next.delivered[..p] == s.delivered[..p];
        } else {
          assert next.delivered[p] == rows[p - m] && next.delivered[..p] == s.delivered + rows[..p - m];
          if cursor < id {
            RowBefore(rows, id, p - m);
          }
        }
      }
    }
  }

  lemma RowBefore(rows: seq<int>, id: int, p: int)
    requires Increasing(rows) && id in rows && 0 <= p < |rows| && id < rows[p]
    ensures id in rows[..p]
  {
    var i :| 0 <= i < |rows| && rows[i] == id;
    assert i < p && rows[..p][i] == id;
  }

  lemma PostKeeps(s: System, reply: Reply)
    requires CoverFits(s) && s.phase.Fetched?
    ensures CoverFits(Advance(s, Post(reply))) && (InOrder(s) ==> InOrder(Advance(s, Post(reply))))
  {
    var next := Advance(s, Post(reply));
    if !reply.Refused? {
      PostInOrder(s, s.phase.cursor, s.phase.rows, next);
    }
  }

  /** A late row does no harm if it is there already or lies beyond the reach. */
  predicate Harmless(s: System, id: int) {
    id in s.table || (0 < id && Reach(s) < id)
  }

  predicate Permitted(s: System, step: Step) {
    step.LateInsert? ==> Harmless(s, step.id)
  }

  lemma AdvanceKeepsCover(s: System, step: Step)
    requires CoverFits(s) && Permitted(s, step)
    ensures CoverFits(Advance(s, step))
  {
    match step
    case Insert(id) =>
      if Newer(s.table, id) {
        NewerIsBeyondReach(s, id);
        NewRowCoveredIff(s, id);
      }
    case LateInsert(id) =>
      if id in s.table {
        assert s.table + {id} == s.table;
      } else {
        NewRowCoveredIff(s, id);
      }
    case Fetch(rows) =>
      if s.phase.Ready? && rows != [] && IsAnswer(s.table, s.phase.cursor, BATCH_SIZE, rows) {
        FetchKeeps(s, rows);
      }
    case Post(reply) => if s.phase.Fetched? { PostKeeps(s, reply); }
    case _ =>
  }

  lemma AdvanceKeeps(s: System, step: Step)
    requires Fits(s) && !step.LateInsert?
    ensures Fits(Advance(s, step))
  {
    AdvanceKeepsCover(s, step);
    if step.Post? && s.phase.Fetched? {
      PostKeeps(s, step.reply);
    }
  }

  /** Over every run, whatever fails and wherever the forwarder crashes: every row up to the stored cursor was
      delivered, if each row that becomes visible late lies beyond the cursor and the batch under way then. */
  lemma CoveredUpToCursor(steps: seq<Step>)
    requires forall i :: 0 <= i < |steps| ==> Permitted(After(Advance, START, steps, i), steps[i])
    ensures CoverFits(After(Advance, START, steps, |steps|))
  {
    forall s: System, step: Step | CoverFits(s) && Permitted(s, step) ensures CoverFits(Advance(s, step)) {
      AdvanceKeepsCover(s, step);
    }
    GuardedInduction(Advance, START, steps, |steps|, Permitted, CoverFits);
  }

  /** Over every run in which rows become visible in id order, whatever fails and wherever the forwarder
      crashes: every row up to the stored cursor was delivered, and each delivery comes after the deliveries
      of all smaller rows. */
  lemma DeliveredUpToCursor(steps: seq<Step>)
    requires forall i :: 0 <= i < |steps| ==> !steps[i].LateInsert?
    ensures Fits(After(Advance, START, steps, |steps|))
  {
    forall s: System, step: Step | Fits(s) && step in steps ensures Fits(Advance(s, step)) {
      AdvanceKeeps(s, step);
    }
    Induction(Advance, START, steps, |steps|, Fits);
  }

  // ----- The cursor, and rows that become visible late -----

  /** While cursor reads succeed, a sweep works from the stored cursor. */
  predicate LocalIsStored(s: System) {
    match s.phase
    case Idle => true
    case Ready(cursor, _) => cursor == s.cursor
    case Fetched(cursor, _, rows) =>
      cursor == s.cursor && rows != [] && forall i :: 0 <= i < |rows| ==> s.cursor < rows[i]
    case Posted(rows) => rows != [] && s.cursor < Last(rows)
  }

  predicate ReadsOk(steps: seq<Step>) {
    forall i :: 0 <= i < |steps| && steps[i].Start? ==> steps[i].readOk
  }

  lemma StepMovesForward(s: System, step: Step)
    requires LocalIsStored(s) && (step.Start? ==> step.readOk)
    ensures LocalIsStored(Advance(s, step)) && s.cursor <= Advance(s, step).cursor
  {
  }

  /** While cursor reads succeed, the stored cursor never moves back. */
  lemma CursorNeverMovesBack(s: System, steps: seq<Step>)
    requires LocalIsStored(s) && ReadsOk(steps)
    ensures s.cursor <= After(Advance, s, steps, |steps|).cursor
  {
    var inv := (t: System) => LocalIsStored(t) && s.cursor <= t.cursor;
    forall t: System, step: Step | inv(t) && step in steps ensures inv(Advance(t, step)) {
      StepMovesForward(t, step);
    }
    Induction(Advance, s, steps, |steps|, inv);
  }

  function Elements(rows: seq<int>, n: int): set<int>
    requires 0 <= n <= |rows|
  {
    set i | 0 <= i < n :: rows[i]
  }

  lemma ElementsNext(rows: seq<int>, n: int)
    requires Increasing(rows) && 0 < n <= |rows|
    ensures Elements(rows, n) == Elements(rows, n - 1) + {rows[n - 1]}
    ensures rows[n - 1] !in Elements(rows, n - 1)
  {
  }

  lemma {:induction false} ElementCount(rows: seq<int>, n: int)
    requires Increasing(rows) && 0 <= n <= |rows|
    ensures |Elements(rows, n)| == n
    decreases n
  {
    if 0 < n {
      ElementCount(rows, n - 1);
      ElementsNext(rows, n);
    }
  }

  lemma SubsetSize(a: set<int>, b: set<int>)
    requires a <= b
    ensures |a| <= |b| && (a != b ==> |a| < |b|)
  {
    assert b == a + (b - a);
  }

  /** The rows up to an id. */
  function RowsUpTo(table: set<int>, id: int): set<int> {
    set x | x in table && x <= id
  }

  /** The first batch from the start ends below a row exactly if more rows than a batch lie up to that row. */
  lemma FirstBatchEndsBelow(table: set<int>, cursor: int, rows: seq<int>)
    requires (forall id :: id in table ==> 0 < id) && cursor in table
    requires rows != [] && IsAnswer(table, 0, BATCH_SIZE, rows)
    ensures Last(rows) < cursor <==> |RowsUpTo(table, cursor)| > BATCH_SIZE
  {
    var all, upTo := Elements(rows, |rows|), RowsUpTo(table, cursor);
    ElementCount(rows, |rows|);
    if Last(rows) < cursor {
      assert all < upTo by {
        assert cursor in upTo && cursor !in all;
      }
      SubsetSize(all, upTo);
    } else {
      forall id | id in upTo ensures id in all {
        assert id in rows;
      }
      SubsetSize(upTo, all);
    }
  }

  /** A failed cursor read is taken for the cursor 0: the sweep starts over, and its first write sets the stored
      cursor to the end of the first batch. That moves it back if and only if more rows than one batch holds lie
      up to it. */
  lemma FailedReadStartsOver(s: System, rows: seq<int>)
    requires Fits(s) && s.phase.Idle? && rows != [] && IsAnswer(s.table, 0, BATCH_SIZE, rows)
    ensures var ready := Advance(s, Start(false));
            var next := Advance(Advance(Advance(ready, Fetch(rows)), Post(Accepted)), WriteCursor(true));
            && next.cursor == Last(rows) && next.delivered == s.delivered + rows
            && (next.cursor < s.cursor <==> |RowsUpTo(s.table, s.cursor)| > BATCH_SIZE)
  {
    if s.cursor == 0 {
      assert RowsUpTo(s.table, 0) == {};
      assert 0 < rows[|rows| - 1];
    } else {
      FirstBatchEndsBelow(s.table, s.cursor, rows);
    }
  }

  /** The ids from 1 to `n`. */
  function FirstIds(n: nat): seq<int> {
    seq(n, i => i + 1)
  }

  /** For instance with 101 rows, all delivered: the cursor falls from 101 to 100. */
  lemma CursorFallsBack(s: System)
    requires s == System(Elements(FirstIds(101), 101), 101, FirstIds(101), Idle)
    ensures Fits(s)
    ensures var rows := FirstIds(100);
            var ready := Advance(s, Start(false));
            Advance(Advance(Advance(ready, Fetch(rows)), Post(Accepted)), WriteCursor(true)).cursor == 100
  {
    var ids, rows := FirstIds(101), FirstIds(100);
    assert forall id :: id in s.table <==> 1 <= id <= 101 by {
      forall id | 1 <= id <= 101 ensures id in s.table {
        assert ids[id - 1] == id;
      }
    }
    forall p, id | 0 <= p < |ids| && id in s.table && id < ids[p] ensures id in ids[..p] {
      assert ids[..p][id - 1] == id;
    }
    forall id | id in s.table ensures id in s.delivered {
      assert ids[id - 1] == id;
    }
    assert IsAnswer(s.table, 0, BATCH_SIZE, rows) by {
      forall id | id in s.table && 0 < id ensures id in rows || rows[BATCH_SIZE - 1] < id {
        if id <= 100 {
          assert rows[id - 1] == id;
        }
      }
    }
  }

  predicate IsLost(s: System, id: int) {
    LocalIsStored(s) && id <= s.cursor && id !in s.delivered
  }

  lemma LostStep(s: System, step: Step, id: int)
    requires IsLost(s, id) && (step.Start? ==> step.readOk)
    ensures IsLost(Advance(s, step), id)
  {
    StepMovesForward(s, step);
  }

  /** A row that becomes visible below the stored cursor is never delivered while cursor reads succeed: that
      rows become visible in id order is needed. */
  lemma LateRowIsLost(s: System, id: int, steps: seq<Step>)
    requires LocalIsStored(s) && id <= s.cursor && id !in s.delivered && ReadsOk(steps)
    ensures id !in After(Advance, Advance(s, LateInsert(id)), steps, |steps|).delivered
  {
    var inv := (t: System) => IsLost(t, id);
    forall t: System, step: Step | inv(t) && step in steps ensures inv(Advance(t, step)) {
      LostStep(t, step, id);
    }
    Induction(Advance, Advance(s, LateInsert(id)), steps, |steps|, inv);
  }

  // ----- The sweep -----

  /** What the outside does to iteration `i` of a sweep; after the given prefix everything works. */
  datatype Weather = Fine | Cancelled | QueryFails | PostFails | CursorFails

  function WeatherAt(weather: seq<Weather>, i: nat): Weather {
    if i < |weather| then weather[i] else Fine
  }

  /** Rows after the cursor. */
  function Pending(table: set<int>, cursor: int): set<int> {
    set id | id in table && cursor < id
  }

  /** The log holds the rows from one cursor to another, in order and each once. */
  predicate Sent(table: set<int>, from: int, to: int, log: seq<int>) {
    && Increasing(log)
    && (forall i :: 0 <= i < |log| ==> log[i] in table && from < log[i] <= to)
    && (forall id :: id in table && from < id <= to ==> id in log)
  }

  class Store {
    var events: seq<int>
    var cursor: int

    /** Rows are kept in id order. */
    ghost predicate Valid()
      reads this
    {
      Increasing(events)
    }

    function Table(): set<int>
      reads this
    {
      set i | 0 <= i < |events| :: events[i]
    }

    method RawEventsSince(after: int, limit: nat) returns (rows: seq<int>)
      requires Valid()
      ensures IsAnswer(Table(), after, limit, rows)
    {
      var k := 0;
      while k < |events| && events[k] <= after
        invariant 0 <= k <= |events| && forall j :: 0 <= j < k ==> events[j] <= after
      {
        k := k + 1;
      }
      rows := if |events| - k <= limit then events[k..] else events[k..k + limit];
      SliceIsAnswer(events, Table(), after, k, limit, rows);
    }
  }

  lemma SliceIsAnswer(events: seq<int>, table: set<int>, after: int, k: int, limit: nat, rows: seq<int>)
    requires Increasing(events) && 0 <= k <= |events| && table == set i | 0 <= i < |events| :: events[i]
    requires (forall j :: 0 <= j < k ==> events[j] <= after) && (k < |events| ==> after < events[k])
    requires rows == if |events| - k <= limit then events[k..] else events[k..k + limit]
    ensures IsAnswer(table, after, limit, rows)
  {
    forall id | id in table && after < id
      ensures id in rows || (|rows| == limit && (limit == 0 || rows[limit - 1] < id))
    {
      var i :| 0 <= i < |events| && events[i] == id;
      if i < k + |rows| {
        assert rows[i - k] == id;
      } else if limit != 0 {
        assert rows[limit - 1] == events[k + limit - 1];
      }
    }
  }

  lemma BatchMovesOn(table: set<int>, from: int, cursor: int, rows: seq<int>, log: seq<int>)
    requires IsAnswer(table, cursor, BATCH_SIZE, rows) && rows != [] && from <= cursor && Sent(table, from, cursor, log)
    ensures Sent(table, from, Last(rows), log + rows) && cursor < Last(rows)
    ensures Pending(table, Last(rows)) < Pending(table, cursor)
    ensures |rows| < BATCH_SIZE ==> Pending(table, Last(rows)) == {}
  {
    assert Last(rows) in Pending(table, cursor) && Last(rows) !in Pending(table, Last(rows));
    forall id | id in table && from < id <= Last(rows) ensures id in log + rows {
      if cursor < id {
        assert id in rows;
      }
    }
    if |rows| < BATCH_SIZE {
      forall id | id in table && cursor < id ensures id <= Last(rows) {
        assert id in rows;
      }
    }
  }

  /** The steps of one iteration of the sweep, by what happens to it. */
  function IterationSteps(now: Weather, rows: seq<int>): seq<Step> {
    match now
    case Cancelled => [Crash]
    case QueryFails => [FetchFails]
    case _ =>
      if rows == [] then [Fetch(rows)]
      else if now == PostFails then [Fetch(rows), Post(Refused)]
      else [Fetch(rows), Post(Accepted), WriteCursor(now != CursorFails)]
  }

  /** Where an iteration from a local cursor with a number of errors leads. */
  lemma IterationLeads(s: System, steps: seq<Step>, mid: System, now: Weather, rows: seq<int>)
    requires Leads(Advance, s, steps, mid)
    requires mid.phase.Ready? && IsAnswer(mid.table, mid.phase.cursor, BATCH_SIZE, rows)
    ensures Leads(Advance, s, steps + IterationSteps(now, rows), AfterIteration(mid, now, rows))
  {
    if now == Cancelled || now == QueryFails || rows == [] {
      LeadsOn(Advance, s, steps, mid, IterationSteps(now, rows)[0], AfterIteration(mid, now, rows));
    } else if now == PostFails {
      LeadsOnTwice(Advance, s, steps, mid, Fetch(rows), Post(Refused), AfterIteration(mid, now, rows));
    } else {
      var posted := Advance(Advance(mid, Fetch(rows)), Post(Accepted));
      LeadsOnTwice(Advance, s, steps, mid, Fetch(rows), Post(Accepted), posted);
      LeadsOn(Advance, s, steps + [Fetch(rows), Post(Accepted)], posted, WriteCursor(now != CursorFails),
              AfterIteration(mid, now, rows));
      assert steps + [Fetch(rows), Post(Accepted)] + [WriteCursor(now != CursorFails)] ==
             steps + [Fetch(rows), Post(Accepted), WriteCursor(now != CursorFails)];
    }
  }

  /** The state after one iteration. */
  function AfterIteration(mid: System, now: Weather, rows: seq<int>): System
    requires mid.phase.Ready?
  {
    if now == Cancelled || now == QueryFails || rows == [] then mid.(phase := Idle)
    else if now == PostFails then mid.(phase := AfterError(mid.phase.cursor, mid.phase.errors))
    else
      var posted := mid.(delivered := mid.delivered + rows);
      if now == CursorFails then posted.(phase := Idle)
      else posted.(cursor := Last(rows), phase := if |rows| < BATCH_SIZE then Idle else Ready(Last(rows), 0))
  }

  /** The rows an iteration gets through to the receiver. */
  function Through(now: Weather, rows: seq<int>): seq<int> {
    if now == Fine || now == CursorFails then rows else []
  }

  /** A sweep that started at `start`, with the cursor stored at `first`, has posted the rows up to `reached`. */
  predicate Progress(s: System, start: int, first: int, posted: seq<int>, reached: int) {
    && start <= reached && Sent(s.table, start, reached, posted)
    && (s.cursor == first || start < s.cursor <= reached)
    && (s.phase.Ready? ==>
          && s.phase.cursor == reached && s.phase.errors < MAX_ERRORS
          && (s.cursor == reached || (s.cursor == first && reached == start)))
  }

  lemma ProgressStep(s: System, start: int, first: int, posted: seq<int>, reached: int, now: Weather, rows: seq<int>)
    requires Progress(s, start, first, posted, reached)
    requires s.phase.Ready? && IsAnswer(s.table, reached, BATCH_SIZE, rows)
    ensures var sent := Through(now, rows);
            Progress(AfterIteration(s, now, rows), start, first, posted + sent,
                     if sent == [] then reached else Last(sent))
  {
    if Through(now, rows) != [] {
      BatchMovesOn(s.table, start, reached, rows, posted);
    } else {
      assert posted + [] == posted;
    }
  }

  /** What makes the loop end: the rows still pending, then the errors still allowed. */
  lemma IterationEnds(s: System, now: Weather, rows: seq<int>)
    requires s.phase.Ready? && s.phase.errors < MAX_ERRORS && IsAnswer(s.table, s.phase.cursor, BATCH_SIZE, rows)
    requires AfterIteration(s, now, rows).phase.Ready?
    ensures var next := AfterIteration(s, now, rows).phase;
            || Pending(s.table, next.cursor) < Pending(s.table, s.phase.cursor)
            || (next.cursor == s.phase.cursor && s.phase.errors < next.errors < MAX_ERRORS)
  {
    if now == Fine {
      BatchMovesOn(s.table, s.phase.cursor, s.phase.cursor, rows, []);
    }
  }

  /** An iteration without failure ends the sweep only when nothing is pending. */
  lemma FineIteration(s: System, rows: seq<int>)
    requires s.phase.Ready? && IsAnswer(s.table, s.phase.cursor, BATCH_SIZE, rows) && s.cursor == s.phase.cursor
    ensures var next := AfterIteration(s, Fine, rows); next.phase.Idle? ==> Pending(s.table, next.cursor) == {}
  {
    if rows != [] {
      BatchMovesOn(s.table, s.phase.cursor, s.phase.cursor, rows, []);
    }
  }

  /** The sweep from `init` has come to `s`; if it `settles`, it stops only when nothing is pending. */
  ghost predicate Underway(init: System, steps: seq<Step>, s: System, start: int, posted: seq<int>, reached: int,
                           settles: bool) {
    && Leads(Advance, init, steps, s) && s.table == init.table && (s.phase.Idle? || s.phase.Ready?)
    && Progress(s, start, init.cursor, posted, reached)
    && (settles ==> start == init.cursor && (s.phase.Ready? || Pending(s.table, s.cursor) == {}))
  }

  lemma FirstStep(init: System, readOk: bool, start: int, next: System, settles: bool)
    requires init.phase.Idle? && next == Advance(init, Start(readOk)) && start == (if readOk then init.cursor else 0)
    requires settles ==> readOk
    ensures Underway(init, [Start(readOk)], next, start, [], start, settles)
  {
    LeadsNowhere(Advance, init);
    LeadsOn(Advance, init, [], init, Start(readOk), next);
    assert [] + [Start(readOk)] == [Start(readOk)];
  }

  lemma UnderwayStep(init: System, steps: seq<Step>, s: System, start: int, posted: seq<int>, reached: int,
                     settles: bool, now: Weather, rows: seq<int>)
    requires Underway(init, steps, s, start, posted, reached, settles) && s.phase.Ready? && (settles ==> now == Fine)
    requires IsAnswer(s.table, s.phase.cursor, BATCH_SIZE, rows)
    ensures var sent := Through(now, rows);
            Underway(init, steps + IterationSteps(now, rows), AfterIteration(s, now, rows), start, posted + sent,
                     if sent == [] then reached else Last(sent), settles)
  {
    IterationLeads(init, steps, s, now, rows);
    ProgressStep(s, start, init.cursor, posted, reached, now, rows);
    if settles {
      FineIteration(s, rows);
    }
  }

  class Engine {
    const store: Store

    constructor (store: Store)
      ensures this.store == store
    {
      this.store := store;
    }

    /** The state of the protocol, given what was delivered so far. */
    ghost function State(delivered: seq<int>, phase: Phase): System
      reads store
    {
      System(store.Table(), store.cursor, delivered, phase)
    }

    /** One iteration of the sweep loop: query, post, move the cursor. */
    method Iterate(now: Weather, cursor: int, consecutiveErrors: nat, ghost delivered: seq<int>)
      returns (sent: seq<int>, phase: Phase, ghost rows: seq<int>)
      requires store.Valid()
      modifies store`cursor
      ensures IsAnswer(store.Table(), cursor, BATCH_SIZE, rows) && sent == Through(now, rows)
      ensures State(delivered + sent, phase) ==
              AfterIteration(old(State(delivered, Ready(cursor, consecutiveErrors))), now, rows)
    {
      sent, phase := [], Idle;
      assert delivered + [] == delivered;
      var batch := store.RawEventsSince(cursor, BATCH_SIZE);
      rows := batch;
      if now == Cancelled || now == QueryFails || |batch| == 0 {
        return;
      }
      if now == PostFails {
        if consecutiveErrors + 1 < MAX_ERRORS {
          phase := Ready(cursor, consecutiveErrors + 1);
        }
        return;
      }
      sent := batch;
      if now == CursorFails {
        return;
      }
      store.cursor := Last(batch);
      if |batch| >= BATCH_SIZE {
        phase := Ready(Last(batch), 0);
      }
    }

    /** One sweep. Its effect is that of a run of the protocol. It posts the rows from its start up to some id, in
        order and each once, and leaves the cursor as it was or at most there; after a successful read it is never
        behind where it was, and nothing is left pending when nothing fails. The loop ends because an iteration
        either moves past rows or adds to the consecutive errors, of which three end it. */
    method Sweep(readOk: bool, weather: seq<Weather>, ghost delivered: seq<int>)
      returns (posted: seq<int>, reached: int, ghost steps: seq<Step>)
      requires store.Valid()
      modifies store`cursor
      ensures Leads(Advance, old(State(delivered, Idle)), steps, State(delivered + posted, Idle))
      ensures Sent(store.Table(), if readOk then old(store.cursor) else 0, reached, posted)
      ensures store.cursor == old(store.cursor) || (if readOk then old(store.cursor) else 0) < store.cursor <= reached
      ensures readOk && AllFine(weather) ==> Pending(store.Table(), store.cursor) == {}
    {
      var start := if readOk then store.cursor else 0;
      ghost var init := State(delivered, Idle);
      ghost var settles := readOk && AllFine(weather);
      var phase := Ready(start, 0);
      posted, reached, steps := [], start, [Start(readOk)];
      ghost var got := delivered;
      FirstStep(init, readOk, start, State(got, phase), settles);
      var i := 0;
      while phase.Ready?
        invariant store.Valid() && got == delivered + posted
        invariant Underway(init, steps, State(got, phase), start, posted, reached, settles)
        decreases phase.Ready?, if phase.Ready? then Pending(init.table, phase.cursor) else {},
                  if phase.Ready? then MAX_ERRORS - phase.errors else 0
      {
        ghost var before := State(got, phase);
        var now := WeatherAt(weather, i);
        i := i + 1;
        var sent;
        ghost var rows;
        sent, phase, rows := Iterate(now, phase.cursor, phase.errors, got);
        UnderwayStep(init, steps, before, start, posted, reached, settles, now, rows);
        if phase.Ready? {
          IterationEnds(before, now, rows);
        }
        Associative(delivered, posted, sent);
        steps, got := steps + IterationSteps(now, rows), got + sent;
        posted, reached := posted + sent, if |sent| == 0 then reached else Last(sent);
      }
    }
  }

  predicate AllFine(weather: seq<Weather>) {
    forall i :: 0 <= i < |weather| ==> weather[i] == Fine
  }

  lemma Associative(a: seq<int>, b: seq<int>, c: seq<int>)
    ensures a + (b + c) == a + b + c
  {
  }
}
