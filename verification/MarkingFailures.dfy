/** What the rating engine bills when marking entries rated may fail after their costs were inserted. */
module MarkingFailures {
  import opened Rating
  import opened RatingRuns
  import opened Runs

  /** As in a run, but the mark of a batch may fail on its own. */
  datatype Move =
    | Arrives(entries: seq<MeteringEntry>)
    | Rates(f: Charging, limit: nat, inserted: bool, marked: bool)

  /** The cost entries a batch inserts. */
  function Bills(db: Db, move: Move): seq<CostEntry> {
    match move
    case Arrives(_) => []
    case Rates(f, limit, inserted, _) => if inserted then RateBatch(f, db.metering, Fetch(db, limit)) else []
  }

  function Next(db: Db, move: Move): Db {
    match move
    case Arrives(entries) => db.(metering := db.metering + entries)
    case Rates(f, limit, inserted, marked) =>
      var es := Fetch(db, limit);
      if RateBatch(f, db.metering, es) != [] && !inserted then db
      else Db(db.metering, if marked then db.rated + IdSet(es) else db.rated, db.costs + Bills(db, move))
  }

  /** The batch step of a run is the move in which marking succeeds. */
  lemma MarkedMoveIsBatch(db: Db, f: Charging, limit: nat, inserted: bool)
    ensures Next(db, Rates(f, limit, inserted, true)) == Apply(db, Batch(f, limit, inserted))
  {
    assert db.costs + [] == db.costs;
  }

  /** How often a move inserts a cost entry for a metering entry: once for each time the entry is in the batch and
      is priced. */
  function BilledBy(db: Db, move: Move, id: int): nat {
    match move
    case Arrives(_) => 0
    case Rates(f, limit, inserted, _) =>
      var es := Fetch(db, limit);
      if inserted then Times(PricedIds(es, Verdicts(f, es), |es|), id, |PricedIds(es, Verdicts(f, es), |es|)|) else 0
  }

  /** Over the first `n` moves of a run. */
  function BilledTimes(moves: seq<Move>, id: int, n: int): nat
    requires 0 <= n <= |moves|
    decreases n
  {
    if n == 0 then 0
    else BilledTimes(moves, id, n - 1) + BilledBy(After(Next, EMPTY, moves, n - 1), moves[n - 1], id)
  }

  lemma {:induction false} TimesConcat(xs: seq<int>, ys: seq<int>, id: int, n: int)
    requires 0 <= n <= |ys|
    ensures Times(xs + ys, id, |xs| + n) == Times(xs, id, |xs|) + Times(ys, id, n)
    decreases n
  {
    if n == 0 {
      TimesOfPrefix(xs, xs + ys, id, |xs|);
    } else {
      TimesConcat(xs, ys, id, n - 1);
      assert (xs + ys)[|xs| + n - 1] == ys[n - 1];
    }
  }

  lemma CountConcat(xs: seq<CostEntry>, ys: seq<CostEntry>, all: seq<CostEntry>, id: int)
    requires all == xs + ys
    ensures CostCount(all, id) == CostCount(xs, id) + CostCount(ys, id)
  {
    CostIdsConcat(xs, ys);
    TimesConcat(CostIds(xs), CostIds(ys), id, |ys|);
  }

  lemma BillsCount(db: Db, move: Move, id: int)
    ensures CostCount(Bills(db, move), id) == BilledBy(db, move, id)
  {
    if move.Rates? && move.inserted {
      BatchCostIds(move.f, db.metering, Fetch(db, move.limit), |Fetch(db, move.limit)|);
    }
  }

  lemma MoveCount(db: Db, move: Move, id: int)
    ensures CostCount(Next(db, move).costs, id) == CostCount(db.costs, id) + BilledBy(db, move, id)
  {
    var bills := Bills(db, move);
    BillsCount(db, move, id);
    CountConcat(db.costs, bills, db.costs + bills, id);
    if move.Rates? && !move.inserted {
      assert db.costs + [] == db.costs;
    }
  }

  /** Over every run, marks failing or not: a metering entry has as many cost entries as batches that priced and
      inserted it. */
  lemma {:induction false} CostEntriesAreInsertions(moves: seq<Move>, id: int, n: int)
    requires 0 <= n <= |moves|
    ensures CostCount(After(Next, EMPTY, moves, n).costs, id) == BilledTimes(moves, id, n)
    decreases n
  {
    if 0 < n {
      CostEntriesAreInsertions(moves, id, n - 1);
      MoveCount(After(Next, EMPTY, moves, n - 1), moves[n - 1], id);
    }
  }

  /** A batch whose mark fails is fetched again and billed again: the same cost entries follow each other. */
  lemma FailedMarkBillsTwice(db: Db, f: Charging, limit: nat)
    ensures var costs := RateBatch(f, db.metering, Fetch(db, limit));
            var once := Next(db, Rates(f, limit, true, false));
            Next(once, Rates(f, limit, true, true)).costs == db.costs + costs + costs
  {
    var once := Next(db, Rates(f, limit, true, false));
    assert Fetch(once, limit) == Fetch(db, limit) && once.metering == db.metering;
  }

  /** Each entry of such a batch that is priced has two cost entries more. */
  lemma PricedEntryBilledTwice(db: Db, f: Charging, limit: nat, i: int)
    requires IncreasingIds(Fetch(db, limit)) && 0 <= i < |Fetch(db, limit)| && Verdicts(f, Fetch(db, limit))[i]
    ensures var id := Fetch(db, limit)[i].id;
            var twice := Next(Next(db, Rates(f, limit, true, false)), Rates(f, limit, true, true));
            CostCount(twice.costs, id) == CostCount(db.costs, id) + 2
  {
    var es := Fetch(db, limit);
    FailedMarkBillsTwice(db, f, limit);
    BillsCount(db, Rates(f, limit, true, false), es[i].id);
    PricedIdsCount(es, Verdicts(f, es), |es|, i);
    var costs := RateBatch(f, db.metering, es);
    CountConcat(db.costs, costs, db.costs + costs, es[i].id);
    CountConcat(db.costs + costs, costs, db.costs + costs + costs, es[i].id);
  }
}
