/** Failed posts: how often the forwarder tries again, and what the receiver gets. */
module ForwarderRetries {
  import opened Forwarder
  import opened Runs

  /** The batch is fetched and posted once for each reply. */
  function Attempts(rows: seq<int>, replies: seq<Reply>, n: int): seq<Step>
    requires 0 <= n <= |replies|
    decreases n
  {
    if n == 0 then [] else Attempts(rows, replies, n - 1) + [Fetch(rows), Post(replies[n - 1])]
  }

  /** The receiver gets the batch once for every reply but a refusal. */
  function Got(rows: seq<int>, replies: seq<Reply>, n: int): seq<int>
    requires 0 <= n <= |replies|
    decreases n
  {
    if n == 0 then [] else Got(rows, replies, n - 1) + if replies[n - 1].Refused? then [] else rows
  }

  predicate AllFail(replies: seq<Reply>) {
    forall i :: 0 <= i < |replies| ==> !replies[i].Accepted?
  }

  /** Where the sweep stands after `n` failed attempts: it tries again from the same cursor, and gives up after
      three. */
  function AfterFailures(s: System, cursor: int, rows: seq<int>, replies: seq<Reply>, n: int): System
    requires 0 <= n <= |replies|
  {
    s.(delivered := s.delivered + Got(rows, replies, n), phase := if n < 3 then Ready(cursor, n) else Idle)
  }

  lemma NextFailure(s: System, cursor: int, rows: seq<int>, replies: seq<Reply>, n: int, mid: System)
    requires 0 < n <= 3 && n <= |replies| && AllFail(replies) && rows != [] && IsAnswer(s.table, cursor, 100, rows)
    requires mid == AfterFailures(s, cursor, rows, replies, n - 1)
    ensures Advance(Advance(mid, Fetch(rows)), Post(replies[n - 1])) == AfterFailures(s, cursor, rows, replies, n)
  {
    assert s.delivered + Got(rows, replies, n - 1) + rows == s.delivered + (Got(rows, replies, n - 1) + rows);
  }

  /** Failed posts are tried again from the same cursor until the third one in a row, which ends the sweep. The stored
      cursor stays; the receiver has the batch once for each lost reply. */
  lemma {:induction false} FailuresAreRetried(s: System, rows: seq<int>, replies: seq<Reply>, n: int)
    requires s.phase.Ready? && s.phase.errors == 0 && rows != [] && IsAnswer(s.table, s.phase.cursor, 100, rows)
    requires AllFail(replies) && 0 <= n <= |replies| && n <= 3
    ensures Leads(Advance, s, Attempts(rows, replies, n), AfterFailures(s, s.phase.cursor, rows, replies, n))
    decreases n
  {
    if n == 0 {
      LeadsNowhere(Advance, s);
      assert s.delivered + [] == s.delivered;
    } else {
      FailuresAreRetried(s, rows, replies, n - 1);
      var mid, next := AfterFailures(s, s.phase.cursor, rows, replies, n - 1),
                       AfterFailures(s, s.phase.cursor, rows, replies, n);
      NextFailure(s, s.phase.cursor, rows, replies, n, mid);
      LeadsOnTwice(Advance, s, Attempts(rows, replies, n - 1), mid, Fetch(rows), Post(replies[n - 1]), next);
    }
  }

  /** After fewer than three failures an accepted post moves the cursor to the end of the batch, and the sweep goes
      on without errors if the batch was full. The receiver has the batch once more. */
  lemma RetrySucceeds(s: System, rows: seq<int>, replies: seq<Reply>)
    requires s.phase.Ready? && s.phase.errors == 0 && rows != [] && IsAnswer(s.table, s.phase.cursor, 100, rows)
    requires AllFail(replies) && |replies| < 3
    ensures var n := |replies|;
            var mid := After(Advance, s, Attempts(rows, replies, n), |Attempts(rows, replies, n)|);
            Advance(Advance(Advance(mid, Fetch(rows)), Post(Accepted)), WriteCursor(true)) ==
            System(s.table, rows[|rows| - 1], s.delivered + Got(rows, replies, n) + rows,
                   if |rows| < 100 then Idle else Ready(rows[|rows| - 1], 0))
  {
    FailuresAreRetried(s, rows, replies, |replies|);
  }
}
