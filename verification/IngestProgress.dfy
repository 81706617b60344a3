/** What a submitted batch leaves in the tables: progress of the ingestion protocol from every state. */
module IngestProgress {
  import opened Options
  import opened Ingest
  import opened Runs

  /** The events among the first `n` that are the first of their identity, in order. */
  function NewEvents(receipts: Receipts, events: seq<Event>, n: int): seq<Event>
    requires 0 <= n <= |events|
    decreases n
  {
    if n == 0 then []
    else NewEvents(receipts, events, n - 1) + if IsNew(receipts, events, n - 1) then [events[n - 1]] else []
  }

  /** A receipt for each of the first `n` events. */
  function ReceiptsOf(env: Env, events: seq<Event>, n: int): Receipts
    requires 0 <= n <= |events|
    decreases n
  {
    if n == 0 then map[]
    else ReceiptsOf(env, events, n - 1)[Key(events[n - 1].source, events[n - 1].id) := env.digest(events[n - 1])]
  }

  /** The tables after a batch: its new events are appended in order, each with a receipt of its digest. */
  function Published(env: Env, t: Tables, events: seq<Event>): Tables {
    var added := NewEvents(t.receipts, events, |events|);
    Tables(t.receipts + ReceiptsOf(env, added, |added|), t.raw + added)
  }

  /** A batch of 1 to 100 valid events, none of which reuses an identity for other content, and of which the new
      ones can be processed. */
  predicate GoesThrough(env: Env, receipts: Receipts, events: seq<Event>) {
    && 1 <= |events| <= 100
    && (forall i :: 0 <= i < |events| ==> env.valid(events[i]))
    && (forall i :: 0 <= i < |events| ==> Acceptable(env, receipts, events, i))
  }

  // ----- What a transaction writes -----

  lemma {:induction false} ReceiptsOfPrefix(env: Env, events: seq<Event>, more: seq<Event>, n: int)
    requires 0 <= n <= |events| && events <= more
    ensures ReceiptsOf(env, more, n) == ReceiptsOf(env, events, n)
    decreases n
  {
    if 0 < n {
      ReceiptsOfPrefix(env, events, more, n - 1);
    }
  }

  lemma HeldIffNotNew(env: Env, receipts: Receipts, events: seq<Event>, n: int, own: Tables)
    requires 0 <= n < |events| && Own(env, receipts, events, n) == Some(own)
    ensures IsNew(receipts, events, n) <==> KeyOf(events[n]) !in receipts && KeyOf(events[n]) !in own.receipts
  {
    var key := KeyOf(events[n]);
    if key in own.receipts {
      var i := OwnReceiptIsSeen(env, receipts, events, n, own, key);
      assert SameKey(events[i], events[n]);
    }
    forall j | 0 <= j < n ensures Held(env, receipts, own.receipts, events[j]) {
      SeenEventsHeld(env, receipts, events, n, own, j);
    }
  }

  lemma ClaimWrites(env: Env, receipts: Receipts, own: Tables, e: Event, next: Tables)
    requires ClaimOne(env, receipts, own, e) == Some(next) && own.receipts == ReceiptsOf(env, own.raw, |own.raw|)
    ensures next.raw == own.raw + if KeyOf(e) !in receipts && KeyOf(e) !in own.receipts then [e] else []
    ensures next.receipts == ReceiptsOf(env, next.raw, |next.raw|)
  {
    ReceiptsOfPrefix(env, own.raw, next.raw, |own.raw|);
  }

  /** A transaction writes exactly its new events, in order, with their receipts. */
  lemma {:induction false} OwnIsNewEvents(env: Env, receipts: Receipts, events: seq<Event>, n: int, own: Tables)
    requires 0 <= n <= |events| && Own(env, receipts, events, n) == Some(own)
    ensures own.raw == NewEvents(receipts, events, n) && own.receipts == ReceiptsOf(env, own.raw, |own.raw|)
    decreases n
  {
    if 0 < n {
      var before := Own(env, receipts, events, n - 1).value;
      OwnIsNewEvents(env, receipts, events, n - 1, before);
      HeldIffNotNew(env, receipts, events, n - 1, before);
      ClaimWrites(env, receipts, before, events[n - 1], own);
    }
  }

  lemma AppliedIsPublished(env: Env, t: Tables, events: seq<Event>)
    ensures ApplyBatch(env, t, events) ==
            if forall i :: 0 <= i < |events| ==> Acceptable(env, t.receipts, events, i)
            then Some(Published(env, t, events)) else None
  {
    AcceptedIffConsistent(env, t.receipts, events, |events|);
    if Own(env, t.receipts, events, |events|).Some? {
      OwnIsNewEvents(env, t.receipts, events, |events|, Own(env, t.receipts, events, |events|).value);
    }
  }

  // ----- A submitted batch -----

  /** No other open transaction holds a receipt for an event of the batch. */
  predicate Unclaimed(active: map<int, Tx>, events: seq<Event>) {
    forall u, i :: u in active && 0 <= i < |events| ==> Key(events[i].source, events[i].id) !in active[u].own.receipts
  }

  /** A submission: begin, claim every event, commit. */
  function Submission(tx: int, events: seq<Event>): (steps: seq<Step>)
    ensures |steps| == |events| + 2 && steps[0] == Begin(tx, events) && steps[|events| + 1] == Commit(tx)
    ensures forall i :: 1 <= i <= |events| ==> steps[i] == Claim(tx)
  {
    [Begin(tx, events)] + seq(|events|, i => Claim(tx)) + [Commit(tx)]
  }

  /** The submission after it has claimed `n` events, or after its transaction was rolled back. */
  function Midway(env: Env, s: System, tx: int, events: seq<Event>, n: int): System
    requires 0 <= n <= |events|
  {
    if !Admissible(env, events) then s
    else match Own(env, s.committed.receipts, events, n)
      case None => s
      case Some(own) => s.(active := s.active[tx := Tx(events, n, own)])
  }

  lemma NextClaim(env: Env, s: System, tx: int, events: seq<Event>, n: int)
    requires tx !in s.active && Unclaimed(s.active, events) && 0 <= n < |events|
    ensures Advance(env, Midway(env, s, tx, events, n), Claim(tx)) == Midway(env, s, tx, events, n + 1)
  {
    var mid := Midway(env, s, tx, events, n);
    if tx in mid.active {
      assert mid.active - {tx} == s.active;
      var next := Midway(env, s, tx, events, n + 1);
      assert tx in next.active ==> mid.active[tx := next.active[tx]] == next.active;
    }
  }

  lemma {:induction false} ClaimsLead(env: Env, s: System, tx: int, events: seq<Event>, steps: seq<Step>, n: int)
    requires tx !in s.active && Unclaimed(s.active, events) && steps == Submission(tx, events) && 0 <= n <= |events|
    ensures After((s: System, step: Step) => Advance(env, s, step), s, steps, n + 1) == Midway(env, s, tx, events, n)
    decreases n
  {
    var apply := (s: System, step: Step) => Advance(env, s, step);
    if n == 0 {
      assert After(apply, s, steps, 0) == s;
    } else {
      ClaimsLead(env, s, tx, events, steps, n - 1);
      NextClaim(env, s, tx, events, n - 1);
    }
  }

  lemma CommitMidway(env: Env, s: System, tx: int, events: seq<Event>, mid: System)
    requires tx !in s.active && mid == Midway(env, s, tx, events, |events|)
    ensures Advance(env, mid, Commit(tx)) ==
            if !Admissible(env, events) || ApplyBatch(env, s.committed, events).None? then s
            else System(ApplyBatch(env, s.committed, events).value, s.history + [events], s.active)
  {
    if tx in mid.active {
      assert mid.active - {tx} == s.active;
    }
  }

  /** From every state, whatever other transactions are open: a batch whose keys no other transaction holds goes
      through as a whole, and then its new events are in the raw log, in order, each with its receipt; or it leaves
      no trace. It goes through exactly if it has 1 to 100 valid events, none reuses an identity for other content,
      and the new ones can be processed. */
  lemma SubmissionGoesThroughIff(env: Env, s: System, tx: int, events: seq<Event>)
    requires tx !in s.active && Unclaimed(s.active, events)
    ensures After((s: System, step: Step) => Advance(env, s, step), s, Submission(tx, events), |events| + 2) ==
            if GoesThrough(env, s.committed.receipts, events)
            then System(Published(env, s.committed, events), s.history + [events], s.active) else s
  {
    ClaimsLead(env, s, tx, events, Submission(tx, events), |events|);
    CommitMidway(env, s, tx, events, Midway(env, s, tx, events, |events|));
    AppliedIsPublished(env, s.committed, events);
  }

  // ----- Commits -----

  /** Committing an open transaction that has claimed all its events publishes them, whatever else is open. */
  lemma CommitPublishes(env: Env, s: System, tx: int)
    requires ActiveFit(env, s) && tx in s.active && s.active[tx].next == |s.active[tx].events|
    ensures var events := s.active[tx].events;
            Advance(env, s, Commit(tx)) ==
            System(Published(env, s.committed, events), s.history + [events], s.active - {tx})
  {
    var t := s.active[tx];
    assert TxFits(env, s.committed.receipts, t);
    OwnIsNewEvents(env, s.committed.receipts, t.events, |t.events|, t.own);
  }

  /** No other step changes the tables; an abort only forgets its transaction. */
  lemma OnlyCommitsPublish(env: Env, s: System, step: Step)
    requires step.Commit? ==> step.tx !in s.active || s.active[step.tx].next != |s.active[step.tx].events|
    ensures var next := Advance(env, s, step);
            && next.committed == s.committed && next.history == s.history
            && (step.Abort? ==> next.active == s.active - {step.tx})
  {
  }

  /** The tables after publishing the first `n` batches one after the other. */
  function PublishedAll(env: Env, history: seq<seq<Event>>, n: int): Tables
    requires 0 <= n <= |history|
    decreases n
  {
    if n == 0 then EMPTY else Published(env, PublishedAll(env, history, n - 1), history[n - 1])
  }

  lemma {:induction false} SerialPublishes(env: Env, history: seq<seq<Event>>, n: int, t: Tables)
    requires 0 <= n <= |history| && Serial(env, history, n) == Some(t)
    ensures t == PublishedAll(env, history, n)
    decreases n
  {
    if 0 < n {
      var before := Serial(env, history, n - 1).value;
      SerialPublishes(env, history, n - 1, before);
      AppliedIsPublished(env, before, history[n - 1]);
    }
  }

  /** Over every interleaving, the tables hold the new events of the committed batches, in commit order, and
      nothing else. */
  lemma TablesOfHistory(env: Env, steps: seq<Step>)
    ensures var s := Run(env, steps); s.committed == PublishedAll(env, s.history, |s.history|)
  {
    Serializable(env, steps);
    var s := Run(env, steps);
    SerialPublishes(env, s.history, |s.history|, s.committed);
  }
}
