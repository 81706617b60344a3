/** Event ingestion: receipts make the delivery of event batches exactly-once and all-or-nothing, however
    batches interleave.

    Validation, the payload digest and the processing of an event are parameters. A raw event stands for all
    writes of its event, which share its transaction. */
module Ingest {
  import opened Options
  import opened Runs

  /** An event is identified by its source and id. */
  datatype Event = Event(source: string, id: string, content: string)

  datatype Key = Key(source: string, id: string)

  function KeyOf(e: Event): Key {
    Key(e.source, e.id)
  }

  /** What the handler is given: which events are valid, their digests, and whether processing one succeeds. */
  datatype Env = Env(valid: Event -> bool, digest: Event -> string, ok: Event -> bool)

  ghost predicate InjectiveDigest(env: Env) {
    forall e, f: Event :: env.digest(e) == env.digest(f) ==> e == f
  }

  type Receipts = map<Key, string>

  datatype Tables = Tables(receipts: Receipts, raw: seq<Event>)

  const EMPTY: Tables := Tables(map[], [])

  const MAX_BATCH: nat := 100

  predicate Admissible(env: Env, events: seq<Event>) {
    1 <= |events| <= MAX_BATCH && forall i :: 0 <= i < |events| ==> env.valid(events[i])
  }

  // ----- One transaction -----

  /** What claiming one event adds to the transaction's own writes: nothing for an exact replay; an error for
      an identity reused with other content, and for an event that cannot be processed. */
  function ClaimOne(env: Env, committed: Receipts, own: Tables, e: Event): Option<Tables> {
    var key, digest := KeyOf(e), env.digest(e);
    if key in committed then if committed[key] == digest then Some(own) else None
    else if key in own.receipts then if own.receipts[key] == digest then Some(own) else None
    else if env.ok(e) then Some(Tables(own.receipts[key := digest], own.raw + [e]))
    else None
  }

  /** The writes of a transaction after its first `n` events, on top of the committed receipts. */
  function Own(env: Env, committed: Receipts, events: seq<Event>, n: int): Option<Tables>
    requires 0 <= n <= |events|
    decreases n
  {
    if n == 0 then Some(EMPTY)
    else match Own(env, committed, events, n - 1)
      case None => None
      case Some(own) => ClaimOne(env, committed, own, events[n - 1])
  }

  function Add(t: Tables, own: Tables): Tables {
    Tables(t.receipts + own.receipts, t.raw + own.raw)
  }

  /** A batch that runs alone: all of it, or nothing. */
  function ApplyBatch(env: Env, t: Tables, events: seq<Event>): Option<Tables> {
    match Own(env, t.receipts, events, |events|)
    case None => None
    case Some(own) => Some(Add(t, own))
  }

  // ----- Concurrent transactions -----

  /** A transaction that has claimed its first `next` events. */
  datatype Tx = Tx(events: seq<Event>, next: nat, own: Tables)

  /** The committed tables, the batches committed so far in commit order, and the open transactions. */
  datatype System = System(committed: Tables, history: seq<seq<Event>>, active: map<int, Tx>)

  const START: System := System(EMPTY, [], map[])

  datatype Step = Begin(tx: int, events: seq<Event>) | Claim(tx: int) | Abort(tx: int) | Commit(tx: int)

  /** Another open transaction has claimed the key, so a claim has to wait for it to end. */
  predicate Blocked(active: map<int, Tx>, tx: int, key: Key) {
    exists u :: u in active && u != tx && key in active[u].own.receipts
  }

  function Advance(env: Env, s: System, step: Step): System {
    match step
    case Begin(tx, events) =>
      if tx in s.active || !Admissible(env, events) then s
      else s.(active := s.active[tx := Tx(events, 0, EMPTY)])
    case Claim(tx) =>
      if tx !in s.active || s.active[tx].next >= |s.active[tx].events| then s
      else
        var t := s.active[tx];
        var e := t.events[t.next];
        var claim := ClaimOne(env, s.committed.receipts, t.own, e);
        if Blocked(s.active, tx, KeyOf(e)) then s
        else if claim.None? then s.(active := s.active - {tx})
        else s.(active := s.active[tx := Tx(t.events, t.next + 1, claim.value)])
    case Abort(tx) => s.(active := s.active - {tx})
    case Commit(tx) =>
      if tx !in s.active || s.active[tx].next != |s.active[tx].events| then s
      else
        var t := s.active[tx];
        System(Add(s.committed, t.own), s.history + [t.events], s.active - {tx})
  }

  function Run(env: Env, steps: seq<Step>): System {
    After((s: System, step: Step) => Advance(env, s, step), START, steps, |steps|)
  }

  // ----- Interleaving does not matter -----

  predicate Disjoint(a: Receipts, b: Receipts) {
    a.Keys !! b.Keys
  }

  /** An open transaction has written what it would have written alone, on keys nobody has committed. */
  predicate TxFits(env: Env, committed: Receipts, t: Tx) {
    && t.next <= |t.events| && Own(env, committed, t.events, t.next) == Some(t.own)
    && Disjoint(t.own.receipts, committed)
  }

  predicate Apart(active: map<int, Tx>, t: int, u: int) {
    t in active && u in active && t != u ==> Disjoint(active[t].own.receipts, active[u].own.receipts)
  }

  ghost predicate ActiveFit(env: Env, s: System) {
    && (forall t {:trigger s.active[t]} :: t in s.active ==> TxFits(env, s.committed.receipts, s.active[t]))
    && (forall t, u {:trigger Apart(s.active, t, u)} :: Apart(s.active, t, u))
  }

  lemma ClaimOneGrows(env: Env, committed: Receipts, own: Tables, e: Event)
    requires ClaimOne(env, committed, own, e).Some?
    ensures own.receipts.Keys <= ClaimOne(env, committed, own, e).value.receipts.Keys
  {
  }

  /** Receipts committed meanwhile on other keys do not change what a transaction writes. */
  lemma {:induction false} OwnStable(env: Env, committed: Receipts, more: Receipts, events: seq<Event>, n: int,
                                     own: Tables)
    requires 0 <= n <= |events| && Own(env, committed, events, n) == Some(own)
    requires (forall k :: k in committed ==> k in more && more[k] == committed[k]) && Disjoint(own.receipts, more)
    ensures Own(env, more, events, n) == Some(own)
    decreases n
  {
    if 0 < n {
      var before := Own(env, committed, events, n - 1).value;
      ClaimOneGrows(env, committed, before, events[n - 1]);
      OwnStable(env, committed, more, events, n - 1, before);
    }
  }

  lemma ClaimKeepsFit(env: Env, s: System, tx: int, own: Tables)
    requires ActiveFit(env, s) && tx in s.active && s.active[tx].next < |s.active[tx].events|
    requires var t := s.active[tx];
             && !Blocked(s.active, tx, KeyOf(t.events[t.next]))
             && ClaimOne(env, s.committed.receipts, t.own, t.events[t.next]) == Some(own)
    ensures ActiveFit(env, s.(active := s.active[tx := Tx(s.active[tx].events, s.active[tx].next + 1, own)]))
  {
    var t := s.active[tx];
    var active := s.active[tx := Tx(t.events, t.next + 1, own)];
    forall u, v ensures Apart(active, u, v) {
      assert Apart(s.active, u, v);
      if u in active && v in active && u != v {
        assert u == tx ==> KeyOf(t.events[t.next]) !in s.active[v].own.receipts;
        assert v == tx ==> KeyOf(t.events[t.next]) !in s.active[u].own.receipts;
      }
    }
  }

  lemma CommitKeepsFit(env: Env, s: System, tx: int)
    requires ActiveFit(env, s) && tx in s.active
    ensures ActiveFit(env, System(Add(s.committed, s.active[tx].own), s.history + [s.active[tx].events],
                                  s.active - {tx}))
  {
    var t := s.active[tx];
    var committed, active := Add(s.committed, t.own), s.active - {tx};
    forall u {:trigger active[u]} | u in active ensures TxFits(env, committed.receipts, active[u]) {
      assert Apart(s.active, u, tx);
      assert TxFits(env, s.committed.receipts, s.active[u]) && TxFits(env, s.committed.receipts, t);
      OwnStable(env, s.committed.receipts, committed.receipts, active[u].events, active[u].next, active[u].own);
    }
    forall u, v ensures Apart(active, u, v) {
      assert Apart(s.active, u, v);
    }
  }

  lemma RemoveKeepsFit(env: Env, s: System, tx: int)
    requires ActiveFit(env, s)
    ensures ActiveFit(env, s.(active := s.active - {tx}))
  {
    var active := s.active - {tx};
    forall u, v ensures Apart(active, u, v) {
      assert Apart(s.active, u, v);
    }
  }

  lemma BeginKeepsFit(env: Env, s: System, tx: int, events: seq<Event>)
    requires ActiveFit(env, s) && tx !in s.active
    ensures ActiveFit(env, s.(active := s.active[tx := Tx(events, 0, EMPTY)]))
  {
    var active := s.active[tx := Tx(events, 0, EMPTY)];
    forall u, v ensures Apart(active, u, v) {
      assert Apart(s.active, u, v);
    }
  }

  lemma AdvanceKeepsFit(env: Env, s: System, step: Step)
    requires ActiveFit(env, s)
    ensures ActiveFit(env, Advance(env, s, step))
  {
    match step
    case Begin(tx, events) => if tx !in s.active { BeginKeepsFit(env, s, tx, events); }
    case Claim(tx) =>
      if tx in s.active && s.active[tx].next < |s.active[tx].events| {
        var t := s.active[tx];
        var claim := ClaimOne(env, s.committed.receipts, t.own, t.events[t.next]);
        if claim.None? {
          RemoveKeepsFit(env, s, tx);
        } else if !Blocked(s.active, tx, KeyOf(t.events[t.next])) {
          ClaimKeepsFit(env, s, tx, claim.value);
        }
      }
    case Abort(tx) => RemoveKeepsFit(env, s, tx);
    case Commit(tx) => if tx in s.active { CommitKeepsFit(env, s, tx); }
  }

  /** One more batch, if the ones before it went through. */
  function ThenApply(env: Env, t: Option<Tables>, events: seq<Event>): Option<Tables> {
    if t.None? then None else ApplyBatch(env, t.value, events)
  }

  /** The tables after running the first `n` batches one after the other. */
  function Serial(env: Env, history: seq<seq<Event>>, n: int): Option<Tables>
    requires 0 <= n <= |history|
    decreases n
  {
    if n == 0 then Some(EMPTY) else ThenApply(env, Serial(env, history, n - 1), history[n - 1])
  }

  predicate SerialFits(env: Env, s: System) {
    Serial(env, s.history, |s.history|) == Some(s.committed)
  }

  lemma SameApplication(env: Env, t: Option<Tables>, u: Option<Tables>, x: seq<Event>, y: seq<Event>)
    requires t == u && x == y
    ensures ThenApply(env, t, x) == ThenApply(env, u, y)
  {
  }

  lemma {:induction false} SerialOfPrefix(env: Env, history: seq<seq<Event>>, more: seq<seq<Event>>, n: int)
    requires 0 <= n <= |history| && history <= more
    ensures Serial(env, more, n) == Serial(env, history, n)
    decreases n
  {
    if 0 < n {
      SerialOfPrefix(env, history, more, n - 1);
      SameApplication(env, Serial(env, more, n - 1), Serial(env, history, n - 1), more[n - 1], history[n - 1]);
    }
  }

  lemma SerialNext(env: Env, history: seq<seq<Event>>, t: Tables, events: seq<Event>, next: Tables)
    requires Serial(env, history, |history|) == Some(t) && ApplyBatch(env, t, events) == Some(next)
    ensures Serial(env, history + [events], |history + [events]|) == Some(next)
  {
    SerialOfPrefix(env, history, history + [events], |history|);
  }

  lemma AdvanceKeepsSerial(env: Env, s: System, step: Step)
    requires ActiveFit(env, s) && SerialFits(env, s)
    ensures SerialFits(env, Advance(env, s, step))
  {
    var next := Advance(env, s, step);
    if step.Commit? && step.tx in s.active && s.active[step.tx].next == |s.active[step.tx].events| {
      var t := s.active[step.tx];
      assert TxFits(env, s.committed.receipts, t);
      SerialNext(env, s.history, s.committed, t.events, Add(s.committed, t.own));
    } else {
      assert next.history == s.history && next.committed == s.committed;
    }
  }

  ghost predicate Fits(env: Env, s: System) {
    ActiveFit(env, s) && SerialFits(env, s)
  }

  /** For every interleaving of batches at the granularity of single claims, the committed tables are those of
      the committed batches run one after the other in commit order. So a failed or colliding batch leaves no
      trace. */
  lemma Serializable(env: Env, steps: seq<Step>)
    ensures Fits(env, Run(env, steps))
  {
    var apply := (s: System, step: Step) => Advance(env, s, step);
    var inv := (s: System) => Fits(env, s);
    forall s: System, step: Step | inv(s) ensures inv(apply(s, step)) {
      AdvanceKeepsFit(env, s, step);
      AdvanceKeepsSerial(env, s, step);
    }
    Induction(apply, START, steps, |steps|, inv);
  }

  // ----- When a batch is accepted -----

  /** `f` reuses the identity of `e` for other content. */
  predicate Reuses(env: Env, e: Event, f: Event) {
    KeyOf(e) == KeyOf(f) && env.digest(e) != env.digest(f)
  }

  predicate SameKey(e: Event, f: Event) {
    KeyOf(e) == KeyOf(f)
  }

  /** Event `i` reuses no identity, neither of a receipt nor of an earlier event of the batch. */
  predicate Consistent(env: Env, receipts: Receipts, events: seq<Event>, i: int)
    requires 0 <= i < |events|
  {
    && (KeyOf(events[i]) in receipts ==> receipts[KeyOf(events[i])] == env.digest(events[i]))
    && (forall j {:trigger Reuses(env, events[j], events[i])} :: 0 <= j < i ==> !Reuses(env, events[j], events[i]))
  }

  /** Event `i` is the first of its identity. */
  predicate IsNew(receipts: Receipts, events: seq<Event>, i: int)
    requires 0 <= i < |events|
  {
    && KeyOf(events[i]) !in receipts
    && forall j {:trigger SameKey(events[j], events[i])} :: 0 <= j < i ==> !SameKey(events[j], events[i])
  }

  predicate Acceptable(env: Env, receipts: Receipts, events: seq<Event>, i: int)
    requires 0 <= i < |events|
  {
    Consistent(env, receipts, events, i) && (IsNew(receipts, events, i) ==> env.ok(events[i]))
  }

  /** The event has a receipt, committed or the transaction's own, with its digest. */
  predicate Held(env: Env, receipts: Receipts, own: Receipts, e: Event) {
    || (KeyOf(e) in receipts && receipts[KeyOf(e)] == env.digest(e))
    || (KeyOf(e) !in receipts && KeyOf(e) in own && own[KeyOf(e)] == env.digest(e))
  }

  lemma {:induction false} SeenEventsHeld(env: Env, receipts: Receipts, events: seq<Event>, n: int, own: Tables, i: int)
    requires 0 <= i < n <= |events| && Own(env, receipts, events, n) == Some(own)
    ensures Held(env, receipts, own.receipts, events[i])
    decreases n
  {
    if i < n - 1 {
      SeenEventsHeld(env, receipts, events, n - 1, Own(env, receipts, events, n - 1).value, i);
    }
  }

  lemma {:induction false} OwnReceiptIsSeen(env: Env, receipts: Receipts, events: seq<Event>, n: int, own: Tables,
                                            k: Key) returns (i: int)
    requires 0 <= n <= |events| && Own(env, receipts, events, n) == Some(own) && k in own.receipts
    ensures k !in receipts && 0 <= i < n && KeyOf(events[i]) == k && own.receipts[k] == env.digest(events[i])
    decreases n
  {
    var before := Own(env, receipts, events, n - 1).value;
    if k in before.receipts {
      i := OwnReceiptIsSeen(env, receipts, events, n - 1, before, k);
    } else {
      i := n - 1;
    }
  }

  lemma ClaimIffAcceptable(env: Env, receipts: Receipts, events: seq<Event>, n: int, own: Tables)
    requires 0 <= n < |events| && Own(env, receipts, events, n) == Some(own)
    ensures ClaimOne(env, receipts, own, events[n]).Some? <==> Acceptable(env, receipts, events, n)
  {
    var key := KeyOf(events[n]);
    forall j | 0 <= j < n ensures Held(env, receipts, own.receipts, events[j]) {
      SeenEventsHeld(env, receipts, events, n, own, j);
    }
    if key in own.receipts {
      var i := OwnReceiptIsSeen(env, receipts, events, n, own, key);
      assert SameKey(events[i], events[n]);
      assert Reuses(env, events[i], events[n]) <==> own.receipts[key] != env.digest(events[n]);
    }
  }

  /** A batch is accepted if and only if no event of it reuses an identity and every new event can be
      processed. */
  lemma {:induction false} AcceptedIffConsistent(env: Env, receipts: Receipts, events: seq<Event>, n: int)
    requires 0 <= n <= |events|
    ensures Own(env, receipts, events, n).Some? <==> forall i :: 0 <= i < n ==> Acceptable(env, receipts, events, i)
    decreases n
  {
    if 0 < n {
      AcceptedIffConsistent(env, receipts, events, n - 1);
      if Own(env, receipts, events, n - 1).Some? {
        ClaimIffAcceptable(env, receipts, events, n - 1, Own(env, receipts, events, n - 1).value);
      }
    }
  }

  // ----- Receipts and raw events match one to one -----

  predicate Recorded(env: Env, t: Tables, e: Event) {
    KeyOf(e) in t.receipts && t.receipts[KeyOf(e)] == env.digest(e)
  }

  predicate KeyAt(raw: seq<Event>, i: int, k: Key) {
    0 <= i < |raw| && KeyOf(raw[i]) == k
  }

  ghost predicate OneToOne(env: Env, t: Tables) {
    && (forall i {:trigger t.raw[i]} :: 0 <= i < |t.raw| ==> Recorded(env, t, t.raw[i]))
    && (forall i, j {:trigger SameKey(t.raw[i], t.raw[j])} :: 0 <= i < j < |t.raw| ==> !SameKey(t.raw[i], t.raw[j]))
    && (forall k :: k in t.receipts ==> exists i :: KeyAt(t.raw, i, k))
  }

  lemma NewReceipt(env: Env, own: Tables, e: Event, next: Tables)
    requires OneToOne(env, own) && KeyOf(e) !in own.receipts
    requires next == Tables(own.receipts[KeyOf(e) := env.digest(e)], own.raw + [e])
    ensures OneToOne(env, next)
  {
    forall k | k in next.receipts ensures exists i :: KeyAt(next.raw, i, k) {
      if k == KeyOf(e) {
        assert KeyAt(next.raw, |own.raw|, k);
      } else {
        var i :| KeyAt(own.raw, i, k);
        assert KeyAt(next.raw, i, k);
      }
    }
    forall i {:trigger next.raw[i]} | 0 <= i < |next.raw| ensures Recorded(env, next, next.raw[i]) {
      if i < |own.raw| {
        assert Recorded(env, own, own.raw[i]);
      }
    }
    forall i, j {:trigger SameKey(next.raw[i], next.raw[j])} | 0 <= i < j < |next.raw|
      ensures !SameKey(next.raw[i], next.raw[j])
    {
      assert Recorded(env, own, own.raw[i]);
      if j < |own.raw| {
        assert !SameKey(own.raw[i], own.raw[j]);
      }
    }
  }

  lemma ClaimKeepsOneToOne(env: Env, committed: Receipts, own: Tables, e: Event)
    requires OneToOne(env, own) && ClaimOne(env, committed, own, e).Some?
    ensures OneToOne(env, ClaimOne(env, committed, own, e).value)
  {
    var next := ClaimOne(env, committed, own, e).value;
    if KeyOf(e) !in committed && KeyOf(e) !in own.receipts {
      NewReceipt(env, own, e, next);
    }
  }

  lemma {:induction false} OwnOneToOne(env: Env, committed: Receipts, events: seq<Event>, n: int, own: Tables)
    requires 0 <= n <= |events| && Own(env, committed, events, n) == Some(own)
    ensures OneToOne(env, own)
    decreases n
  {
    if 0 < n {
      OwnOneToOne(env, committed, events, n - 1, Own(env, committed, events, n - 1).value);
      ClaimKeepsOneToOne(env, committed, Own(env, committed, events, n - 1).value, events[n - 1]);
    }
  }

  lemma AddOneToOne(env: Env, t: Tables, own: Tables, next: Tables)
    requires OneToOne(env, t) && OneToOne(env, own) && Disjoint(own.receipts, t.receipts) && next == Add(t, own)
    ensures OneToOne(env, next)
  {
    var m := |t.raw|;
    forall i {:trigger next.raw[i]} | 0 <= i < |next.raw| ensures Recorded(env, next, next.raw[i]) {
      assert i < m ==> Recorded(env, t, t.raw[i]);
      assert m <= i ==> Recorded(env, own, own.raw[i - m]);
    }
    forall i, j {:trigger SameKey(next.raw[i], next.raw[j])} | 0 <= i < j < |next.raw|
      ensures !SameKey(next.raw[i], next.raw[j])
    {
      if j < m {
        assert !SameKey(t.raw[i], t.raw[j]);
      } else if m <= i {
        assert !SameKey(own.raw[i - m], own.raw[j - m]);
      } else {
        assert Recorded(env, t, t.raw[i]) && Recorded(env, own, own.raw[j - m]);
      }
    }
    forall k | k in next.receipts ensures exists i :: KeyAt(next.raw, i, k) {
      if k in own.receipts {
        var i :| KeyAt(own.raw, i, k);
        assert KeyAt(next.raw, m + i, k);
      } else {
        var i :| KeyAt(t.raw, i, k);
        assert KeyAt(next.raw, i, k);
      }
    }
  }

  /** Everything in `t` is still in `next`. */
  predicate Extends(t: Tables, next: Tables) {
    t.raw <= next.raw && forall k :: k in t.receipts ==> k in next.receipts && next.receipts[k] == t.receipts[k]
  }

  lemma OwnIsDisjoint(env: Env, receipts: Receipts, events: seq<Event>, n: int, own: Tables)
    requires 0 <= n <= |events| && Own(env, receipts, events, n) == Some(own)
    ensures Disjoint(own.receipts, receipts)
  {
    forall k | k in own.receipts ensures k !in receipts {
      var i := OwnReceiptIsSeen(env, receipts, events, n, own, k);
    }
  }

  lemma ApplyBatchRecords(env: Env, t: Tables, events: seq<Event>, next: Tables)
    requires OneToOne(env, t) && ApplyBatch(env, t, events) == Some(next)
    ensures OneToOne(env, next) && Extends(t, next) && AllRecorded(env, next, events)
  {
    var own := Own(env, t.receipts, events, |events|).value;
    OwnIsDisjoint(env, t.receipts, events, |events|, own);
    OwnOneToOne(env, t.receipts, events, |events|, own);
    AddOneToOne(env, t, own, next);
    forall i | 0 <= i < |events| ensures Recorded(env, next, events[i]) {
      SeenEventsHeld(env, t.receipts, events, |events|, own, i);
    }
  }

  predicate AllRecorded(env: Env, t: Tables, events: seq<Event>) {
    forall i :: 0 <= i < |events| ==> Recorded(env, t, events[i])
  }

  lemma StillRecorded(env: Env, t: Tables, next: Tables, events: seq<Event>)
    requires AllRecorded(env, t, events) && Extends(t, next)
    ensures AllRecorded(env, next, events)
  {
    forall i | 0 <= i < |events| ensures Recorded(env, next, events[i]) {
      assert Recorded(env, t, events[i]);
    }
  }

  /** After any number of committed batches: receipts and raw events match one to one, and every event of every
      committed batch has its receipt. */
  lemma {:induction false} SerialRecords(env: Env, history: seq<seq<Event>>, n: int, t: Tables)
    requires 0 <= n <= |history| && Serial(env, history, n) == Some(t)
    ensures OneToOne(env, t) && forall i :: 0 <= i < n ==> AllRecorded(env, t, history[i])
    decreases n
  {
    if 0 < n {
      var before := Serial(env, history, n - 1).value;
      SerialRecords(env, history, n - 1, before);
      ApplyBatchRecords(env, before, history[n - 1], t);
      forall i | 0 <= i < n - 1 ensures AllRecorded(env, t, history[i]) {
        StillRecorded(env, before, t, history[i]);
      }
    }
  }

  /** Over every run, committed receipts and raw events match one to one. */
  lemma ReceiptsMatchRawEvents(env: Env, steps: seq<Step>)
    ensures OneToOne(env, Run(env, steps).committed)
  {
    Serializable(env, steps);
    var s := Run(env, steps);
    SerialRecords(env, s.history, |s.history|, s.committed);
  }

  /** With a digest that tells contents apart, every event of every committed batch is in the raw log, once. */
  lemma ExactlyOnce(env: Env, steps: seq<Step>, b: int, i: int)
    requires InjectiveDigest(env) && 0 <= b < |Run(env, steps).history| && 0 <= i < |Run(env, steps).history[b]|
    ensures multiset(Run(env, steps).committed.raw)[Run(env, steps).history[b][i]] == 1
  {
    Serializable(env, steps);
    var s := Run(env, steps);
    var e := s.history[b][i];
    SerialRecords(env, s.history, |s.history|, s.committed);
    assert AllRecorded(env, s.committed, s.history[b]) && Recorded(env, s.committed, e);
    var j :| KeyAt(s.committed.raw, j, KeyOf(e));
    assert Recorded(env, s.committed, s.committed.raw[j]);
    CountOnce(s.committed.raw, j);
  }

  lemma CountOnce(raw: seq<Event>, j: int)
    requires 0 <= j < |raw|
    requires forall i, k {:trigger SameKey(raw[i], raw[k])} :: 0 <= i < k < |raw| ==> !SameKey(raw[i], raw[k])
    ensures multiset(raw)[raw[j]] == 1
  {
    assert raw == raw[..j] + [raw[j]] + raw[j + 1..];
    forall i | 0 <= i < |raw| && i != j ensures raw[i] != raw[j] {
      assert if i < j then !SameKey(raw[i], raw[j]) else !SameKey(raw[j], raw[i]);
    }
    assert raw[j] !in raw[..j] && raw[j] !in raw[j + 1..];
  }

  // ----- Replays -----

  /** A batch whose events are all recorded adds nothing. */
  lemma {:induction false} ReplayOwnsNothing(env: Env, t: Tables, events: seq<Event>, n: int)
    requires 0 <= n <= |events| && AllRecorded(env, t, events)
    ensures Own(env, t.receipts, events, n) == Some(EMPTY)
    decreases n
  {
    if 0 < n {
      ReplayOwnsNothing(env, t, events, n - 1);
      assert Recorded(env, t, events[n - 1]);
    }
  }

  lemma ReplayApplies(env: Env, t: Tables, events: seq<Event>)
    requires AllRecorded(env, t, events)
    ensures ApplyBatch(env, t, events) == Some(t)
  {
    ReplayOwnsNothing(env, t, events, |events|);
    assert t.receipts + map[] == t.receipts && t.raw + [] == t.raw;
  }

  lemma CommittedIsRecorded(env: Env, s: System, b: int)
    requires Fits(env, s) && 0 <= b < |s.history|
    ensures AllRecorded(env, s.committed, s.history[b])
  {
    SerialRecords(env, s.history, |s.history|, s.committed);
  }

  /** At any point of any run, resubmitting a committed batch is accepted and changes no table. */
  lemma ReplayChangesNothing(env: Env, steps: seq<Step>, b: int)
    requires 0 <= b < |Run(env, steps).history|
    ensures var s := Run(env, steps); ApplyBatch(env, s.committed, s.history[b]) == Some(s.committed)
  {
    Serializable(env, steps);
    var s := Run(env, steps);
    CommittedIsRecorded(env, s, b);
    ReplayApplies(env, s.committed, s.history[b]);
  }

  // ----- Receipts never change -----

  lemma CommitExtends(env: Env, s: System, tx: int, t: Tables)
    requires ActiveFit(env, s) && tx in s.active && Extends(t, s.committed)
    ensures Extends(t, Add(s.committed, s.active[tx].own))
  {
    assert TxFits(env, s.committed.receipts, s.active[tx]);
  }

  /** From any state of a run on, committed receipts keep their digests and raw events stay. */
  lemma ReceiptsNeverChange(env: Env, s: System, steps: seq<Step>)
    requires Fits(env, s)
    ensures Extends(s.committed, After((s: System, step: Step) => Advance(env, s, step), s, steps, |steps|).committed)
  {
    var apply := (s: System, step: Step) => Advance(env, s, step);
    var inv := (u: System) => ActiveFit(env, u) && Extends(s.committed, u.committed);
    forall u: System, step: Step | inv(u) ensures inv(apply(u, step)) {
      AdvanceKeepsFit(env, u, step);
      if step.Commit? && step.tx in u.active {
        CommitExtends(env, u, step.tx, s.committed);
      }
    }
    Induction(apply, s, steps, |steps|, inv);
  }

  // ----- The store and the handler -----

  datatype IngestError = InvalidEvents | ReceiptCollision | ProcessingFailed

  class Store {
    var receipts: Receipts
    var raw: seq<Event>

    function State(): Tables
      reads this
    {
      Tables(receipts, raw)
    }

    /** Claim a receipt: true for a new one, false for an exact replay, an error for a reused identity. */
    method ClaimIngestionReceipt(source: string, id: string, digest: string) returns (r: Result<bool, IngestError>)
      modifies this`receipts
      ensures r == (if Key(source, id) !in old(receipts) then Ok(true)
                    else if old(receipts)[Key(source, id)] == digest then Ok(false) else Err(ReceiptCollision))
      ensures receipts ==
        if Key(source, id) in old(receipts) then old(receipts) else old(receipts)[Key(source, id) := digest]
    {
      if Key(source, id) !in receipts {
        receipts := receipts[Key(source, id) := digest];
        return Ok(true);
      }
      if receipts[Key(source, id)] != digest {
        return Err(ReceiptCollision);
      }
      return Ok(false);
    }

    /** Claim and process one event on top of the transaction's own writes. */
    method ProcessEvent(env: Env, ghost base: Tables, ghost own: Tables, e: Event)
      returns (r: Result<bool, IngestError>)
      requires State() == Add(base, own) && Disjoint(own.receipts, base.receipts)
      modifies this
      ensures r.Ok? <==> ClaimOne(env, base.receipts, own, e).Some?
      ensures r.Ok? ==> State() == Add(base, ClaimOne(env, base.receipts, own, e).value)
      ensures r.Err? ==> r.error == if KeyOf(e) in old(receipts) then ReceiptCollision else ProcessingFailed
    {
      r := ClaimIngestionReceipt(e.source, e.id, env.digest(e));
      if r == Ok(true) {
        if env.ok(e) {
          raw := raw + [e];
        } else {
          r := Err(ProcessingFailed);
        }
      }
    }

    /** Process a batch in one transaction: all of it takes effect, or none of it. */
    method ProcessEvents(env: Env, events: seq<Event>) returns (r: Result<int, IngestError>)
      modifies this
      ensures r.Ok? <==>
        (forall i :: 0 <= i < |events| ==> env.valid(events[i])) && ApplyBatch(env, old(State()), events).Some?
      ensures State() == if r.Ok? then ApplyBatch(env, old(State()), events).value else old(State())
      ensures r == Err(InvalidEvents) <==> exists i :: 0 <= i < |events| && !env.valid(events[i])
    {
      for i := 0 to |events|
        invariant forall j :: 0 <= j < i ==> env.valid(events[j])
      {
        if !env.valid(events[i]) {
          return Err(InvalidEvents);
        }
      }
      var savedReceipts, savedRaw := receipts, raw;
      ghost var base := State();
      ghost var own := EMPTY;
      for i := 0 to |events|
        invariant Own(env, base.receipts, events, i) == Some(own) && State() == Add(base, own)
      {
        OwnIsDisjoint(env, base.receipts, events, i, own);
        var done := ProcessEvent(env, base, own, events[i]);
        if done.Err? {
          NoneStaysNone(env, base.receipts, events, i + 1, |events|);
          receipts, raw := savedReceipts, savedRaw;
          return Err(done.error);
        }
        own := ClaimOne(env, base.receipts, own, events[i]).value;
      }
      r := Ok(|events|);
    }
  }

  lemma {:induction false} NoneStaysNone(env: Env, committed: Receipts, events: seq<Event>, m: int, n: int)
    requires 0 <= m <= n <= |events| && Own(env, committed, events, m).None?
    ensures Own(env, committed, events, n).None?
    decreases n
  {
    if m < n {
      NoneStaysNone(env, committed, events, m, n - 1);
    }
  }
}
