/** What a wallet holds after any run, counted from the steps of the run and not from its ledger. */
module WalletTotals {
  import opened Numbers
  import opened Runs
  import opened Wallet
  import opened WalletPass

  // ----- Rounding -----

  function Abs(x: int): int {
    if x < 0 then -x else x
  }

  lemma NearestIsNearest(x: int)
    requires 0 <= x
    ensures Nearest(x) % 10_000 == 0 && 2 * Abs(Nearest(x) - x) <= 10_000
    ensures 2 * Abs(Nearest(x) - x) == 10_000 ==> x < Nearest(x)
  {
    NearestOf(x / MICRO, x % MICRO);
  }

  /** A column of six decimals holds the multiple of 10^-6 nearest to the value, the one away from zero at a tie. */
  lemma RoundIsNearest(x: int)
    ensures var r := Round(Micro, x);
            && r % 10_000 == 0 && 2 * Abs(r - x) <= 10_000
            && (2 * Abs(r - x) == 10_000 ==> Abs(x) < Abs(r))
            && Round(Exact, x) == x
  {
    NearestIsNearest(Abs(x));
  }

  // ----- One top-up -----

  /** No top-up row has this reference. */
  predicate Unused(ledger: seq<Row>, ref: string) {
    forall i :: 0 <= i < |ledger| ==> ledger[i].kind != TopUpRow(ref)
  }

  /** The balance and the reference rise by the amount, and one row with the amount and the new balance follows. */
  predicate Credits(b: Books, amount: int, ref: string, next: Books) {
    var credit := Round(b.scale, amount);
    && next.wallet == Wallet(b.wallet.balance + credit, b.wallet.floor, b.wallet.reference + credit)
    && next.ledger == b.ledger + [Row(TopUpRow(ref), credit, b.wallet.balance + credit)]
    && next.costs == b.costs && next.scale == b.scale
  }

  /** A positive amount with an empty or unused reference is credited, once and as it is; anything else changes
      nothing. */
  lemma TopUpCredits(w: Wallet, b: Books, amount: int, ref: string)
    requires BooksFit(w, b)
    ensures if 0 < amount && (ref == "" || Unused(b.ledger, ref)) then Credits(b, amount, ref, TopUp(b, amount, ref))
            else TopUp(b, amount, ref) == b
  {
    if 0 < amount && (ref == "" || Unused(b.ledger, ref)) {
      ToppedUp(b.scale, b.wallet, amount, TopUp(b, amount, ref).wallet);
    }
  }

  // ----- Top-ups over a run -----

  /** The step asks for a positive amount under the reference. */
  predicate Asks(step: Step, ref: string) {
    step.TopUpStep? && 0 < step.amount && step.ref == ref
  }

  /** Step `i` is a positive top-up without a reference, or the first one with its reference. */
  predicate FirstOfRef(steps: seq<Step>, i: int)
    requires 0 <= i < |steps|
  {
    && steps[i].TopUpStep? && 0 < steps[i].amount
    && (steps[i].ref == "" || forall j {:trigger Asks(steps[j], steps[i].ref)} ::
          0 <= j < i ==> !Asks(steps[j], steps[i].ref))
  }

  /** What the first `n` steps credit. */
  function Credited(scale: Scale, steps: seq<Step>, n: int): int
    requires 0 <= n <= |steps|
    decreases n
  {
    if n == 0 then 0
    else Credited(scale, steps, n - 1) + if FirstOfRef(steps, n - 1) then Round(scale, steps[n - 1].amount) else 0
  }

  /** The references in the ledger are those of the positive top-ups among the first `n` steps. */
  ghost predicate RefsFit(steps: seq<Step>, n: int, ledger: seq<Row>) {
    forall ref: string {:trigger HasRef(ledger, ref)} ::
      HasRef(ledger, ref) <==> exists j {:trigger Asks(steps[j], ref)} :: 0 <= j < n <= |steps| && Asks(steps[j], ref)
  }

  lemma HasRefAfter(ledger: seq<Row>, row: Row, more: seq<Row>, ref: string)
    requires more == ledger + [row]
    ensures HasRef(more, ref) <==> HasRef(ledger, ref) || row.kind == TopUpRow(ref)
  {
    if HasRef(ledger, ref) {
      var i :| 0 <= i < |ledger| && ledger[i].kind == TopUpRow(ref);
      assert more[i].kind == TopUpRow(ref);
    }
    assert more[|ledger|] == row;
  }

  /** The step appends no top-up row. */
  predicate NoTopUp(s: System, next: System) {
    || next.books.ledger == s.books.ledger
    || (|next.books.ledger| == |s.books.ledger| + 1 && next.books.ledger[..|s.books.ledger|] == s.books.ledger &&
        next.books.ledger[|s.books.ledger|].kind.DeductionRow?)
  }

  lemma OtherSteps(s: System, step: Step)
    requires !step.TopUpStep?
    ensures var next := Advance(s, step);
            NoTopUp(s, next) && next.books.scale == s.books.scale
  {
  }

  lemma NoTopUpKeeps(s: System, next: System, ref: string)
    requires NoTopUp(s, next)
    ensures HasRef(next.books.ledger, ref) <==> HasRef(s.books.ledger, ref)
    ensures LedgerSum(next.books.ledger, TopUps, |next.books.ledger|) ==
            LedgerSum(s.books.ledger, TopUps, |s.books.ledger|)
  {
    var ledger, more := s.books.ledger, next.books.ledger;
    if more != ledger {
      var row := more[|ledger|];
      assert more == ledger + [row];
      HasRefAfter(ledger, row, more, ref);
      AppendRow(ledger, row, TopUps);
    }
  }

  /** After `n` steps the ledger has the references and the credits of those steps. */
  ghost predicate Counted(scale: Scale, w: Wallet, steps: seq<Step>, n: int, s: System)
    requires 0 <= n <= |steps|
  {
    && SystemFits(w, s) && s.books.scale == scale && RefsFit(steps, n, s.books.ledger)
    && LedgerSum(s.books.ledger, TopUps, |s.books.ledger|) == Credited(scale, steps, n)
  }

  lemma UsedIffAsked(steps: seq<Step>, n: int, ledger: seq<Row>)
    requires 0 <= n < |steps| && steps[n].TopUpStep? && RefsFit(steps, n, ledger)
    ensures FirstOfRef(steps, n) <==> 0 < steps[n].amount && (steps[n].ref == "" || Unused(ledger, steps[n].ref))
  {
    var ref := steps[n].ref;
    assert HasRef(ledger, ref) <==> !Unused(ledger, ref);
  }

  lemma RefsFitNext(steps: seq<Step>, n: int, ledger: seq<Row>, more: seq<Row>)
    requires 0 <= n < |steps| && RefsFit(steps, n, ledger)
    requires forall ref: string {:trigger HasRef(more, ref)} ::
               HasRef(more, ref) <==> HasRef(ledger, ref) || Asks(steps[n], ref)
    ensures RefsFit(steps, n + 1, more)
  {
    forall ref: string
      ensures HasRef(more, ref) <==>
              exists j {:trigger Asks(steps[j], ref)} :: 0 <= j < n + 1 <= |steps| && Asks(steps[j], ref)
    {
      assert HasRef(more, ref) <==> HasRef(ledger, ref) || Asks(steps[n], ref);
    }
  }

  lemma TopUpCounted(scale: Scale, w: Wallet, steps: seq<Step>, n: int, s: System, next: System)
    requires 0 <= n < |steps| && Counted(scale, w, steps, n, s) && steps[n].TopUpStep? && next == Advance(s, steps[n])
    ensures RefsFit(steps, n + 1, next.books.ledger) && next.books.scale == scale
    ensures LedgerSum(next.books.ledger, TopUps, |next.books.ledger|) == Credited(scale, steps, n + 1)
  {
    var amount, asked := steps[n].amount, steps[n].ref;
    var ledger, more := s.books.ledger, next.books.ledger;
    UsedIffAsked(steps, n, ledger);
    TopUpCredits(w, s.books, amount, asked);
    if FirstOfRef(steps, n) {
      AppendRow(ledger, more[|ledger|], TopUps);
    }
    forall ref: string ensures HasRef(more, ref) <==> HasRef(ledger, ref) || Asks(steps[n], ref) {
      if FirstOfRef(steps, n) {
        HasRefAfter(ledger, more[|ledger|], more, ref);
      } else {
        assert HasRef(ledger, asked) <==> !Unused(ledger, asked);
      }
    }
    RefsFitNext(steps, n, ledger, more);
  }

  lemma OtherCounted(scale: Scale, w: Wallet, steps: seq<Step>, n: int, s: System, next: System)
    requires 0 <= n < |steps| && Counted(scale, w, steps, n, s) && !steps[n].TopUpStep? && next == Advance(s, steps[n])
    ensures RefsFit(steps, n + 1, next.books.ledger) && next.books.scale == scale
    ensures LedgerSum(next.books.ledger, TopUps, |next.books.ledger|) == Credited(scale, steps, n + 1)
  {
    OtherSteps(s, steps[n]);
    NoTopUpKeeps(s, next, "");
    forall ref: string ensures HasRef(next.books.ledger, ref) <==> HasRef(s.books.ledger, ref) || Asks(steps[n], ref) {
      NoTopUpKeeps(s, next, ref);
    }
    RefsFitNext(steps, n, s.books.ledger, next.books.ledger);
  }

  lemma {:induction false} CountedAlong(scale: Scale, w: Wallet, steps: seq<Step>, n: int)
    requires Opening(scale, w) && 0 <= n <= |steps|
    ensures Counted(scale, w, steps, n, After(Advance, Opened(scale, w), steps, n))
    decreases n
  {
    if 0 < n {
      var s := After(Advance, Opened(scale, w), steps, n - 1);
      CountedAlong(scale, w, steps, n - 1);
      AdvanceKeeps(w, s, steps[n - 1]);
      if steps[n - 1].TopUpStep? {
        TopUpCounted(scale, w, steps, n - 1, s, Advance(s, steps[n - 1]));
      } else {
        OtherCounted(scale, w, steps, n - 1, s, Advance(s, steps[n - 1]));
      }
    }
  }

  // ----- What was paid for each cost entry -----

  /** Total of the deduction rows of one cost entry among the first `n` rows. */
  function DeductedFor(ledger: seq<Row>, id: nat, n: int): int
    requires 0 <= n <= |ledger|
    decreases n
  {
    if n == 0 then 0
    else DeductedFor(ledger, id, n - 1) + if ledger[n - 1].kind == DeductionRow(id) then ledger[n - 1].amount else 0
  }

  lemma {:induction false} DeductedForPrefix(ledger: seq<Row>, more: seq<Row>, id: nat, n: int)
    requires 0 <= n <= |ledger| && ledger <= more
    ensures DeductedFor(more, id, n) == DeductedFor(ledger, id, n)
    decreases n
  {
    if 0 < n {
      DeductedForPrefix(ledger, more, id, n - 1);
    }
  }

  /** What is applied to the entry is what the deduction rows took for it; an entry to come has none. */
  predicate EntryFits(b: Books, id: nat) {
    -DeductedFor(b.ledger, id, |b.ledger|) == if id < |b.costs| then b.costs[id].applied else 0
  }

  lemma DeductKeepsEntry(w: Wallet, b: Books, id: nat, amount: int, next: Books, other: nat)
    requires BooksFit(w, b) && EntryFits(b, other) && id < |b.costs|
    requires 0 < amount <= b.costs[id].cost - b.costs[id].applied && next == Deduct(b, id, amount)
    ensures EntryFits(next, other)
  {
    assert CostFits(b.scale, b.costs[id]);
    ApplyWithinCost(b.scale, b.costs[id], amount);
    DeductedForPrefix(b.ledger, next.ledger, other, |b.ledger|);
  }

  lemma EntryFitsStep(w: Wallet, s: System, step: Step, next: System, id: nat)
    requires SystemFits(w, s) && EntryFits(s.books, id) && next == Advance(s, step)
    ensures EntryFits(next.books, id)
  {
    match step
    case TopUpStep(_, _) => if next != s { DeductedForPrefix(s.books.ledger, next.books.ledger, id, |s.books.ledger|); }
    case DeductNext(ok) =>
      if s.phase.Walking? && s.phase.todo != [] {
        var item := s.phase.todo[0];
        var remaining, available := item.cost - item.applied, s.phase.copy - s.books.wallet.floor;
        assert ItemFits(s.books.costs, item);
        if 0 < remaining && 0 < available && ok {
          DeductKeepsEntry(w, s.books, item.id, MinInt(remaining, available), next.books, id);
        }
      }
    case _ =>
  }

  /** Over every run, what is applied to a cost entry is what the deduction rows of that entry took. */
  lemma AppliedIsDeducted(scale: Scale, w: Wallet, steps: seq<Step>, id: nat)
    requires Opening(scale, w)
    ensures EntryFits(After(Advance, Opened(scale, w), steps, |steps|).books, id)
  {
    var inv := (s: System) => SystemFits(w, s) && EntryFits(s.books, id);
    forall s: System, step: Step | inv(s) ensures inv(Advance(s, step)) {
      AdvanceKeeps(w, s, step);
      EntryFitsStep(w, s, step, Advance(s, step), id);
    }
    Induction(Advance, Opened(scale, w), steps, |steps|, inv);
  }

  // ----- The costs -----

  /** The costs that the first `n` steps bring in, in order. */
  function CostsOf(steps: seq<Step>, n: int): seq<(int, int)>
    requires 0 <= n <= |steps|
    decreases n
  {
    if n == 0 then []
    else CostsOf(steps, n - 1) + if steps[n - 1].NewCost? then [(steps[n - 1].periodStart, steps[n - 1].cost)] else []
  }

  /** The cost entries are these, whatever is applied to them. */
  predicate CostsAre(costs: seq<Cost>, brought: seq<(int, int)>) {
    |costs| == |brought| && forall i :: 0 <= i < |costs| ==> (costs[i].periodStart, costs[i].cost) == brought[i]
  }

  lemma {:induction false} CostsFromSteps(scale: Scale, w: Wallet, steps: seq<Step>, n: int)
    requires 0 <= n <= |steps|
    ensures CostsAre(After(Advance, Opened(scale, w), steps, n).books.costs, CostsOf(steps, n))
    decreases n
  {
    if 0 < n {
      CostsFromSteps(scale, w, steps, n - 1);
      CostsAreStep(After(Advance, Opened(scale, w), steps, n - 1), steps[n - 1], CostsOf(steps, n - 1));
    }
  }

  lemma CostsAreStep(s: System, step: Step, brought: seq<(int, int)>)
    requires CostsAre(s.books.costs, brought)
    ensures CostsAre(Advance(s, step).books.costs,
                     brought + if step.NewCost? then [(step.periodStart, step.cost)] else [])
  {
  }

  // ----- The balance -----

  lemma {:induction false} LedgerSplits(ledger: seq<Row>, n: int)
    requires 0 <= n <= |ledger|
    ensures LedgerSum(ledger, All, n) == LedgerSum(ledger, TopUps, n) + LedgerSum(ledger, Deductions, n)
    decreases n
  {
    if 0 < n {
      LedgerSplits(ledger, n - 1);
    }
  }

  /** Over every run: the reference balance is that of the opening plus every amount topped up, each reference
      once; and the balance is that of the opening plus the same amounts, less what is applied to the cost entries,
      exactly without rounding, and else at most one micro-unit above it per deduction. The cost entries are those
      that came in. */
  lemma BalanceFromSteps(scale: Scale, w: Wallet, steps: seq<Step>)
    requires Opening(scale, w)
    ensures var b, credited := After(Advance, Opened(scale, w), steps, |steps|).books, Credited(scale, steps, |steps|);
            && b.wallet.reference == w.reference + credited && b.wallet.floor == w.floor
            && Near(scale, b.wallet.balance - (w.balance + credited - AppliedSum(b.costs, |b.costs|)),
                    DeductionCount(b.ledger, |b.ledger|))
            && CostsAre(b.costs, CostsOf(steps, |steps|))
  {
    var b := After(Advance, Opened(scale, w), steps, |steps|).books;
    CountedAlong(scale, w, steps, |steps|);
    CostsFromSteps(scale, w, steps, |steps|);
    LedgerSplits(b.ledger, |b.ledger|);
  }

  // ----- Earlier periods first -----

  lemma {:induction false} OthersUntouched(b: Books, ids: seq<nat>, n: int, id: nat)
    requires 0 <= n <= |ids| && KnownIds(b, ids) && id < |b.costs| && id !in ids
    ensures Paid(b, ids, n).costs[id] == b.costs[id]
    decreases n
  {
    if 0 < n {
      OthersUntouched(b, ids, n - 1, id);
      assert ids[n - 1] in ids;
    }
  }

  /** A pass over the unapplied entries pays nothing for an entry while one of an earlier period is not paid up. */
  lemma EarlierPeriodsFirst(w: Wallet, b: Books, ids: seq<nat>, next: Books, x: nat, y: nat)
    requires BooksFit(w, b) && IsUnapplied(b.costs, ids) && KnownIds(b, ids) && next == Paid(b, ids, |ids|)
    requires x < |b.costs| && y < |b.costs| && b.costs[x].periodStart < b.costs[y].periodStart
    requires b.costs[x].applied < b.costs[x].cost && next.costs[y] != b.costs[y]
    ensures next.costs[x].applied == Round(b.scale, b.costs[x].cost)
  {
    BooksArePayable(w, b, ids);
    var k := FirstInFirstPaid(b, ids, next);
    if y !in ids {
      OthersUntouched(b, ids, |ids|, y);
    }
    assert x in ids && y in ids;
    var i :| 0 <= i < |ids| && ids[i] == x;
    var j :| 0 <= j < |ids| && ids[j] == y;
    assert Settled(b, ids, next, k, i) && Settled(b, ids, next, k, j);
    assert i < j && j <= k;
  }

  // ----- A pass in which deductions fail -----

  /** The ids among the first `n` whose deduction does not fail. */
  function Kept(ids: seq<nat>, oks: seq<bool>, n: int): seq<nat>
    requires 0 <= n <= |ids| == |oks|
    decreases n
  {
    if n == 0 then [] else Kept(ids, oks, n - 1) + if oks[n - 1] then [ids[n - 1]] else []
  }

  lemma {:induction false} KeptAreIds(ids: seq<nat>, oks: seq<bool>, n: int, b: Books)
    requires 0 <= n <= |ids| == |oks| && KnownIds(b, ids)
    ensures KnownIds(b, Kept(ids, oks, n))
    ensures forall id :: id in Kept(ids, oks, n) ==> exists i :: 0 <= i < n && ids[i] == id
    decreases n
  {
    if 0 < n {
      KeptAreIds(ids, oks, n - 1, b);
    }
  }

  lemma {:induction false} PaidOfPrefix(b: Books, ids: seq<nat>, more: seq<nat>, n: int)
    requires 0 <= n <= |ids| && ids <= more && KnownIds(b, ids) && KnownIds(b, more)
    ensures Paid(b, more, n) == Paid(b, ids, n)
    decreases n
  {
    if 0 < n {
      PaidOfPrefix(b, ids, more, n - 1);
    }
  }

  lemma KeptUntouched(b: Books, ids: seq<nat>, oks: seq<bool>, n: int)
    requires 0 <= n < |ids| == |oks| && Owing(b, ids)
    ensures KnownIds(b, Kept(ids, oks, n))
    ensures Paid(b, Kept(ids, oks, n), |Kept(ids, oks, n)|).costs[ids[n]] == b.costs[ids[n]]
  {
    KeptAreIds(ids, oks, n, b);
    forall i | 0 <= i < n ensures ids[i] != ids[n] {
      assert Apart(ids, i, n);
    }
    OthersUntouched(b, Kept(ids, oks, n), |Kept(ids, oks, n)|, ids[n]);
  }

  lemma PaidKeptNext(b: Books, ids: seq<nat>, oks: seq<bool>, n: int)
    requires 0 < n <= |ids| == |oks| && KnownIds(b, ids)
    ensures KnownIds(b, Kept(ids, oks, n)) && KnownIds(b, Kept(ids, oks, n - 1))
    ensures var mid := Paid(b, Kept(ids, oks, n - 1), |Kept(ids, oks, n - 1)|);
            Paid(b, Kept(ids, oks, n), |Kept(ids, oks, n)|) == if oks[n - 1] then PayOne(mid, ids[n - 1]) else mid
  {
    KeptAreIds(ids, oks, n, b);
    KeptAreIds(ids, oks, n - 1, b);
    if oks[n - 1] {
      PaidOfPrefix(b, Kept(ids, oks, n - 1), Kept(ids, oks, n), |Kept(ids, oks, n - 1)|);
    } else {
      assert Kept(ids, oks, n) == Kept(ids, oks, n - 1);
    }
  }

  /** Where a pass with failures stands after `n` entries. */
  predicate FailingPassAt(b: Books, ids: seq<nat>, oks: seq<bool>, n: int, s: System)
    requires 0 <= n <= |ids| == |oks| && KnownIds(b, ids) && KnownIds(b, Kept(ids, oks, n))
  {
    && s.books == Paid(b, Kept(ids, oks, n), |Kept(ids, oks, n)|)
    && (s.phase == Walking(s.books.wallet.balance, Items(b.costs, ids)[n..]) ||
        (s.phase.Idle? && Available(s.books) <= 0))
  }

  /** One entry of the walk with a fresh copy of the balance: it is paid, passed over, or ends the walk. */
  lemma WalkIs(mid: System, id: nat, ok: bool, items: seq<Item>, n: int, s: System)
    requires 0 < n <= |items| && id < |mid.books.costs| && 0 < Remaining(mid.books.costs[id])
    requires items[n - 1] == Item(id, mid.books.costs[id].cost, mid.books.costs[id].applied)
    requires mid.phase == Walking(mid.books.wallet.balance, items[n - 1..])
    requires s == Advance(Advance(mid, DeductNext(ok)), Refresh)
    ensures s.books == if ok then PayOne(mid.books, id) else mid.books
    ensures s.phase == if Available(mid.books) <= 0 then Idle else Walking(s.books.wallet.balance, items[n..])
  {
    assert items[n - 1..][0] == items[n - 1] && items[n - 1..][1..] == items[n..];
  }

  lemma FailingStep(b: Books, ids: seq<nat>, oks: seq<bool>, n: int, mid: System, s: System)
    requires 0 < n <= |ids| == |oks| && Owing(b, ids) && KnownIds(b, Kept(ids, oks, n - 1))
    requires FailingPassAt(b, ids, oks, n - 1, mid) && s == Advance(Advance(mid, DeductNext(oks[n - 1])), Refresh)
    ensures KnownIds(b, Kept(ids, oks, n)) && FailingPassAt(b, ids, oks, n, s)
  {
    KeptUntouched(b, ids, oks, n - 1);
    PaidKeptNext(b, ids, oks, n);
    if mid.phase.Walking? {
      WalkIs(mid, ids[n - 1], oks[n - 1], Items(b.costs, ids), n, s);
    }
  }

  /** A failed deduction is passed over: a pass in which some deductions fail ends like a pass over the other
      entries. */
  lemma {:induction false} FailedDeductionsArePassedOver(b: Books, ids: seq<nat>, oks: seq<bool>, n: int,
                                                         start: System) returns (steps: seq<Step>, s: System)
    requires 0 <= n <= |ids| == |oks| && Owing(b, ids)
    requires start == System(b, Walking(b.wallet.balance, Items(b.costs, ids)))
    ensures Leads(Advance, start, steps, s)
    ensures KnownIds(b, Kept(ids, oks, n)) && FailingPassAt(b, ids, oks, n, s)
    decreases n
  {
    if n == 0 {
      steps, s := [], start;
      LeadsNowhere(Advance, start);
    } else {
      var before, mid := FailedDeductionsArePassedOver(b, ids, oks, n - 1, start);
      s := Advance(Advance(mid, DeductNext(oks[n - 1])), Refresh);
      FailingStep(b, ids, oks, n, mid, s);
      steps := before + [DeductNext(oks[n - 1]), Refresh];
      LeadsOnTwice(Advance, start, before, mid, DeductNext(oks[n - 1]), Refresh, s);
    }
  }
}
