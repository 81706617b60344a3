/** The wallet ledger: top-ups, deductions, and the rater's deduction pass, step by step.

    Amounts are integers in units of 10^-10, the scale of `cost_amount`. */
module Wallet {
  import opened Numbers
  import opened Runs

  // ----- Rounding -----

  /** How amounts are stored: exactly, or in columns of six decimals. */
  datatype Scale = Exact | Micro

  /** 10^-6 in units of 10^-10. */
  const MICRO: int := 10_000

  function Nearest(x: int): int
    requires 0 <= x
  {
    (x + MICRO / 2) / MICRO * MICRO
  }

  /** The value a column takes when `x` is assigned to it; ties round away from zero. */
  function Round(scale: Scale, x: int): int {
    if scale.Exact? then x else if 0 <= x then Nearest(x) else -Nearest(-x)
  }

  predicate OnGrid(scale: Scale, x: int) {
    scale.Micro? ==> x % MICRO == 0
  }

  // ----- The tables -----

  datatype Wallet = Wallet(balance: int, floor: int, reference: int)

  datatype Kind = TopUpRow(ref: string) | DeductionRow(costId: nat)

  datatype Row = Row(kind: Kind, amount: int, balanceAfter: int)

  /** A cost entry; its id is its position in the table. */
  datatype Cost = Cost(periodStart: int, cost: int, applied: int)

  datatype Books = Books(scale: Scale, wallet: Wallet, ledger: seq<Row>, costs: seq<Cost>)

  predicate HasRef(ledger: seq<Row>, ref: string) {
    exists i :: 0 <= i < |ledger| && ledger[i].kind == TopUpRow(ref)
  }

  /** A top-up must be positive, and a reference can be used once. */
  predicate Accepts(b: Books, amount: int, ref: string) {
    0 < amount && (ref == "" || !HasRef(b.ledger, ref))
  }

  function TopUp(b: Books, amount: int, ref: string): Books {
    if !Accepts(b, amount, ref) then b
    else
      var w := b.wallet;
      var next := w.(balance := Round(b.scale, w.balance + amount), reference := Round(b.scale, w.reference + amount));
      b.(wallet := next, ledger := b.ledger + [Row(TopUpRow(ref), Round(b.scale, amount), next.balance)])
  }

  function ApplyTo(b: Books, id: nat, amount: int): seq<Cost> {
    if id < |b.costs| then b.costs[id := b.costs[id].(applied := Round(b.scale, b.costs[id].applied + amount))]
    else b.costs
  }

  /** One deduction transaction: the balance, the cost entry and the ledger change together. */
  function Deduct(b: Books, id: nat, amount: int): Books {
    var next := b.wallet.(balance := Round(b.scale, b.wallet.balance - amount));
    b.(wallet := next, costs := ApplyTo(b, id, amount),
       ledger := b.ledger + [Row(DeductionRow(id), Round(b.scale, -amount), next.balance)])
  }

  // ----- The rater's pass, step by step -----

  /** A cost entry as the rater read it. */
  datatype Item = Item(id: nat, cost: int, applied: int)

  /** Where the rater stands: it has read the wallet, it walks the cost entries with its copy of the balance,
      or it has deducted and not yet refreshed the copy. */
  datatype Phase = Idle | HasWallet(copy: int) | Walking(copy: int, todo: seq<Item>) | Refreshing(todo: seq<Item>)

  datatype System = System(books: Books, phase: Phase)

  /** The answer of the query for unapplied cost entries: each once, in period order. */
  predicate IsUnapplied(costs: seq<Cost>, ids: seq<nat>) {
    && (forall i :: 0 <= i < |ids| ==> ids[i] < |costs| && costs[ids[i]].applied < costs[ids[i]].cost)
    && (forall i, j :: 0 <= i < j < |ids| ==>
          ids[i] != ids[j] && costs[ids[i]].periodStart <= costs[ids[j]].periodStart)
    && (forall id :: 0 <= id < |costs| && costs[id].applied < costs[id].cost ==> id in ids)
  }

  function Items(costs: seq<Cost>, ids: seq<nat>): (items: seq<Item>)
    requires forall i :: 0 <= i < |ids| ==> ids[i] < |costs|
    ensures |items| == |ids|
    ensures forall i :: 0 <= i < |ids| ==> items[i] == Item(ids[i], costs[ids[i]].cost, costs[ids[i]].applied)
  {
    seq(|ids|, i requires 0 <= i < |ids| => Item(ids[i], costs[ids[i]].cost, costs[ids[i]].applied))
  }

  datatype Step =
    | TopUpStep(amount: int, ref: string)
    | NewCost(periodStart: int, cost: int)
    | ReadWallet
    | ReadCosts(ids: seq<nat>)
    | DeductNext(ok: bool)
    | Refresh
    | Crash

  /** The body of the walk over the cost entries: skip what is paid, stop at the floor, else deduct what the
      copy of the balance allows. A failed deduction goes on with the next entry. */
  function WalkOne(s: System, ok: bool): System
    requires s.phase.Walking?
  {
    if s.phase.todo == [] then s.(phase := Idle)
    else
      var item, rest := s.phase.todo[0], s.phase.todo[1..];
      var remaining, available := item.cost - item.applied, s.phase.copy - s.books.wallet.floor;
      if remaining <= 0 then s.(phase := Walking(s.phase.copy, rest))
      else if available <= 0 then s.(phase := Idle)
      else if !ok then s.(phase := Walking(s.phase.copy, rest))
      else System(Deduct(s.books, item.id, MinInt(remaining, available)), Refreshing(rest))
  }

  function Advance(s: System, step: Step): System {
    match step
    case TopUpStep(amount, ref) => s.(books := TopUp(s.books, amount, ref))
    case NewCost(periodStart, cost) => s.(books := s.books.(costs := s.books.costs + [Cost(periodStart, cost, 0)]))
    case ReadWallet => if s.phase.Idle? then s.(phase := HasWallet(s.books.wallet.balance)) else s
    case ReadCosts(ids) =>
      if s.phase.HasWallet? && IsUnapplied(s.books.costs, ids)
      then s.(phase := Walking(s.phase.copy, Items(s.books.costs, ids))) else s
    case DeductNext(ok) => if s.phase.Walking? then WalkOne(s, ok) else s
    case Refresh => if s.phase.Refreshing? then s.(phase := Walking(s.books.wallet.balance, s.phase.todo)) else s
    case Crash => s.(phase := Idle)
  }

  // ----- Totals -----

  datatype Which = All | TopUps | Deductions

  function Part(row: Row, which: Which): int {
    match which
    case All => row.amount
    case TopUps => if row.kind.TopUpRow? then row.amount else 0
    case Deductions => if row.kind.DeductionRow? then row.amount else 0
  }

  function LedgerSum(ledger: seq<Row>, which: Which, n: int): int
    requires 0 <= n <= |ledger|
    decreases n
  {
    if n == 0 then 0 else LedgerSum(ledger, which, n - 1) + Part(ledger[n - 1], which)
  }

  function DeductionCount(ledger: seq<Row>, n: int): (count: int)
    requires 0 <= n <= |ledger|
    ensures 0 <= count <= n
    decreases n
  {
    if n == 0 then 0 else DeductionCount(ledger, n - 1) + if ledger[n - 1].kind.DeductionRow? then 1 else 0
  }

  function AppliedSum(costs: seq<Cost>, n: int): int
    requires 0 <= n <= |costs|
    decreases n
  {
    if n == 0 then 0 else AppliedSum(costs, n - 1) + costs[n - 1].applied
  }

  lemma {:induction false} LedgerSumOfPrefix(ledger: seq<Row>, more: seq<Row>, which: Which, n: int)
    requires 0 <= n <= |ledger| && ledger <= more
    ensures LedgerSum(more, which, n) == LedgerSum(ledger, which, n)
    ensures DeductionCount(more, n) == DeductionCount(ledger, n)
    decreases n
  {
    if 0 < n {
      LedgerSumOfPrefix(ledger, more, which, n - 1);
    }
  }

  lemma AppendRow(ledger: seq<Row>, row: Row, which: Which)
    ensures LedgerSum(ledger + [row], which, |ledger| + 1) == LedgerSum(ledger, which, |ledger|) + Part(row, which)
    ensures DeductionCount(ledger + [row], |ledger| + 1) ==
            DeductionCount(ledger, |ledger|) + if row.kind.DeductionRow? then 1 else 0
  {
    LedgerSumOfPrefix(ledger, ledger + [row], which, |ledger|);
  }

  lemma {:induction false} AppliedSumOfPrefix(costs: seq<Cost>, more: seq<Cost>, n: int)
    requires 0 <= n <= |costs| && costs <= more
    ensures AppliedSum(more, n) == AppliedSum(costs, n)
    decreases n
  {
    if 0 < n {
      AppliedSumOfPrefix(costs, more, n - 1);
    }
  }

  lemma {:induction false} AppliedSumUpdate(costs: seq<Cost>, id: nat, c: Cost, n: int)
    requires id < |costs| && 0 <= n <= |costs|
    ensures AppliedSum(costs[id := c], n) == AppliedSum(costs, n) + if id < n then c.applied - costs[id].applied else 0
    decreases n
  {
    if 0 < n {
      AppliedSumUpdate(costs, id, c, n - 1);
    }
  }

  // ----- What rounding does to one step -----

  lemma RoundOnGrid(scale: Scale, x: int)
    ensures OnGrid(scale, Round(scale, x)) && (OnGrid(scale, x) ==> Round(scale, x) == x)
  {
  }

  lemma RoundMonotone(scale: Scale, x: int, y: int)
    requires x <= y
    ensures Round(scale, x) <= Round(scale, y)
  {
  }

  /** Rounding by quotient and remainder. */
  lemma NearestOf(q: int, r: int)
    requires 0 <= q && 0 <= r < MICRO
    ensures Nearest(MICRO * q + r) == if MICRO / 2 <= r then MICRO * (q + 1) else MICRO * q
    ensures (MICRO * q + r) % MICRO == r
  {
    if MICRO / 2 <= r {
      assert (MICRO * q + r + MICRO / 2) / MICRO == q + 1;
    } else {
      assert (MICRO * q + r + MICRO / 2) / MICRO == q;
    }
  }

  lemma NearestShift(q: int, x: int)
    requires 0 <= q && 0 <= x
    ensures Nearest(MICRO * q + x) == MICRO * q + Nearest(x)
  {
    var r := (x + MICRO / 2) / MICRO;
    assert (MICRO * q + x + MICRO / 2) / MICRO == q + r;
  }

  lemma GridQuotient(scale: Scale, x: int)
    requires OnGrid(scale, x) && scale.Micro?
    ensures x == MICRO * (x / MICRO)
  {
  }

  /** On the grid and above zero, rounding a sum rounds the summand. */
  lemma RoundShift(scale: Scale, base: int, x: int)
    requires OnGrid(scale, base) && 0 <= x && (scale.Micro? ==> 0 <= base)
    ensures Round(scale, base + x) == base + Round(scale, x)
  {
    if scale.Micro? {
      GridQuotient(scale, base);
      NearestShift(base / MICRO, x);
    }
  }

  predicate Tie(scale: Scale, x: int) {
    scale.Micro? && x % MICRO == MICRO / 2
  }

  /** A deduction rounds the new balance and the ledger amount apart exactly at a tie, by one micro-unit. */
  lemma RoundDeduction(scale: Scale, balance: int, d: int)
    requires OnGrid(scale, balance) && 0 <= d && (scale.Micro? ==> d <= balance)
    ensures Round(scale, -d) == -Round(scale, d)
    ensures Round(scale, balance - d) == balance - Round(scale, d) + if Tie(scale, d) then MICRO else 0
  {
    if scale.Micro? {
      GridQuotient(scale, balance);
      var q, r := d / MICRO, d % MICRO;
      NearestOf(q, r);
      if r == 0 {
        NearestOf(balance / MICRO - q, 0);
      } else {
        NearestOf(balance / MICRO - q - 1, MICRO - r);
      }
    }
  }

  // ----- The invariant of the books -----

  /** A wallet as it is opened: on the grid, and not below its floor. */
  predicate Opening(scale: Scale, w: Wallet) {
    && OnGrid(scale, w.balance) && OnGrid(scale, w.floor) && OnGrid(scale, w.reference)
    && w.floor <= w.balance
    && (scale.Micro? ==> 0 <= w.floor && 0 <= w.reference)
  }

  /** The difference between a balance and the ledger, after a number of deductions. */
  predicate Near(scale: Scale, difference: int, deductions: int) {
    0 <= difference <= if scale.Exact? then 0 else MICRO * deductions
  }

  predicate RowFits(b: Books, opening: int, i: int)
    requires 0 <= i < |b.ledger|
  {
    Near(b.scale, b.ledger[i].balanceAfter - opening - LedgerSum(b.ledger, All, i + 1), DeductionCount(b.ledger, i + 1))
  }

  /** The balance, and every recorded balance, is the sum of the ledger up to there. */
  predicate LedgerFits(b: Books, opening: int) {
    && Near(b.scale, b.wallet.balance - opening - LedgerSum(b.ledger, All, |b.ledger|),
            DeductionCount(b.ledger, |b.ledger|))
    && forall i {:trigger RowFits(b, opening, i)} :: 0 <= i < |b.ledger| ==> RowFits(b, opening, i)
  }

  /** What can be applied to a cost entry: its cost, rounded. */
  predicate CostFits(scale: Scale, c: Cost) {
    OnGrid(scale, c.applied) && 0 <= c.applied <= MaxInt(0, Round(scale, c.cost))
  }

  /** What was applied to cost entries is what the deduction rows took. */
  predicate AppliedFits(b: Books) {
    && AppliedSum(b.costs, |b.costs|) == -LedgerSum(b.ledger, Deductions, |b.ledger|)
    && forall i {:trigger CostFits(b.scale, b.costs[i])} :: 0 <= i < |b.costs| ==> CostFits(b.scale, b.costs[i])
  }

  predicate BooksFit(w: Wallet, b: Books) {
    && Opening(b.scale, b.wallet) && b.wallet.floor == w.floor
    && LedgerFits(b, w.balance)
    && b.wallet.reference == w.reference + LedgerSum(b.ledger, TopUps, |b.ledger|)
    && AppliedFits(b)
  }

  lemma LedgerFitsAppend(b: Books, next: Books, opening: int, row: Row, gap: int)
    requires LedgerFits(b, opening) && next.scale == b.scale && next.ledger == b.ledger + [row]
    requires row.balanceAfter == next.wallet.balance
    requires next.wallet.balance == b.wallet.balance + row.amount + gap
    requires 0 <= gap <= if b.scale.Micro? && row.kind.DeductionRow? then MICRO else 0
    ensures LedgerFits(next, opening)
  {
    AppendRow(b.ledger, row, All);
    forall i | 0 <= i < |next.ledger| ensures RowFits(next, opening, i) {
      if i < |b.ledger| {
        assert RowFits(b, opening, i);
        LedgerSumOfPrefix(b.ledger, next.ledger, All, i + 1);
      }
    }
  }

  lemma ToppedUp(scale: Scale, w: Wallet, amount: int, next: Wallet)
    requires Opening(scale, w) && 0 < amount
    requires next == w.(balance := Round(scale, w.balance + amount), reference := Round(scale, w.reference + amount))
    ensures Opening(scale, next) && w.balance <= next.balance
    ensures next.balance == w.balance + Round(scale, amount) && next.reference == w.reference + Round(scale, amount)
  {
    RoundShift(scale, w.balance, amount);
    RoundShift(scale, w.reference, amount);
    RoundOnGrid(scale, w.balance + amount);
    RoundOnGrid(scale, w.reference + amount);
    RoundMonotone(scale, 0, amount);
  }

  lemma TopUpKeeps(w: Wallet, b: Books, amount: int, ref: string)
    requires BooksFit(w, b)
    ensures BooksFit(w, TopUp(b, amount, ref)) && b.wallet.balance <= TopUp(b, amount, ref).wallet.balance
    ensures TopUp(b, amount, ref).wallet.balance - b.wallet.balance ==
            if 0 < amount && (ref == "" || !HasRef(b.ledger, ref)) then Round(b.scale, amount) else 0
  {
    if Accepts(b, amount, ref) {
      var next := TopUp(b, amount, ref);
      var row := next.ledger[|b.ledger|];
      ToppedUp(b.scale, b.wallet, amount, next.wallet);
      LedgerFitsAppend(b, next, w.balance, row, 0);
      AppendRow(b.ledger, row, TopUps);
      AppendRow(b.ledger, row, Deductions);
    }
  }

  lemma NewCostKeeps(w: Wallet, b: Books, periodStart: int, cost: int)
    requires BooksFit(w, b)
    ensures BooksFit(w, b.(costs := b.costs + [Cost(periodStart, cost, 0)]))
  {
    var next := b.(costs := b.costs + [Cost(periodStart, cost, 0)]);
    AppliedSumOfPrefix(b.costs, next.costs, |b.costs|);
    forall i | 0 <= i < |next.ledger| ensures RowFits(next, w.balance, i) {
      assert RowFits(b, w.balance, i);
    }
    forall i | 0 <= i < |next.costs| ensures CostFits(next.scale, next.costs[i]) {
      if i < |b.costs| {
        assert CostFits(b.scale, b.costs[i]);
      }
    }
  }

  lemma ApplyWithinCost(scale: Scale, c: Cost, amount: int)
    requires CostFits(scale, c) && 0 < amount <= c.cost - c.applied
    ensures CostFits(scale, c.(applied := Round(scale, c.applied + amount)))
    ensures Round(scale, c.applied + amount) == c.applied + Round(scale, amount)
    ensures Round(scale, -amount) == -Round(scale, amount)
  {
    RoundShift(scale, c.applied, amount);
    RoundOnGrid(scale, c.applied + amount);
    RoundMonotone(scale, c.applied + amount, c.cost);
    RoundMonotone(scale, 0, amount);
  }

  /** A deduction within the cost entry keeps the amounts applied in step with the ledger. */
  lemma DeductKeepsApplied(b: Books, id: nat, amount: int, next: Books)
    requires AppliedFits(b) && id < |b.costs| && 0 < amount <= b.costs[id].cost - b.costs[id].applied
    requires next == Deduct(b, id, amount)
    ensures AppliedFits(next)
  {
    var c := b.costs[id];
    assert CostFits(b.scale, c);
    ApplyWithinCost(b.scale, c, amount);
    AppliedSumUpdate(b.costs, id, next.costs[id], |b.costs|);
    AppendRow(b.ledger, next.ledger[|b.ledger|], Deductions);
    forall i | 0 <= i < |next.costs| ensures CostFits(next.scale, next.costs[i]) {
      assert CostFits(b.scale, b.costs[i]);
    }
  }

  lemma Debited(scale: Scale, w: Wallet, amount: int, next: Wallet)
    requires Opening(scale, w) && 0 < amount <= w.balance - w.floor
    requires next == w.(balance := Round(scale, w.balance - amount))
    ensures Opening(scale, next)
    ensures next.balance == w.balance + Round(scale, -amount) + if Tie(scale, amount) then MICRO else 0
  {
    RoundDeduction(scale, w.balance, amount);
    RoundOnGrid(scale, w.balance - amount);
    RoundOnGrid(scale, w.floor);
    RoundMonotone(scale, w.floor, w.balance - amount);
  }

  /** A deduction of no more than what the floor leaves keeps the books. */
  lemma DeductKeeps(w: Wallet, b: Books, id: nat, amount: int)
    requires BooksFit(w, b) && id < |b.costs|
    requires 0 < amount <= b.wallet.balance - b.wallet.floor && amount <= b.costs[id].cost - b.costs[id].applied
    ensures BooksFit(w, Deduct(b, id, amount))
  {
    var next := Deduct(b, id, amount);
    var row := next.ledger[|b.ledger|];
    Debited(b.scale, b.wallet, amount, next.wallet);
    LedgerFitsAppend(b, next, w.balance, row, if Tie(b.scale, amount) then MICRO else 0);
    AppendRow(b.ledger, row, TopUps);
    DeductKeepsApplied(b, id, amount, next);
  }

  // ----- The invariant of runs -----

  predicate ItemFits(costs: seq<Cost>, item: Item) {
    item.id < |costs| && item.cost == costs[item.id].cost && item.applied == costs[item.id].applied
  }

  /** The entries still to do are as the rater read them, and each comes once. */
  predicate TodoFits(costs: seq<Cost>, todo: seq<Item>) {
    && (forall i {:trigger todo[i]} :: 0 <= i < |todo| ==> ItemFits(costs, todo[i]))
    && (forall i, j :: 0 <= i < j < |todo| ==> todo[i].id != todo[j].id)
  }

  /** The rater's copy of the balance is never above the balance. */
  predicate PhaseFits(s: System) {
    match s.phase
    case Idle => true
    case HasWallet(copy) => copy <= s.books.wallet.balance
    case Walking(copy, todo) => copy <= s.books.wallet.balance && TodoFits(s.books.costs, todo)
    case Refreshing(todo) => TodoFits(s.books.costs, todo)
  }

  predicate SystemFits(w: Wallet, s: System) {
    BooksFit(w, s.books) && PhaseFits(s)
  }

  lemma WalkOneKeeps(w: Wallet, s: System, ok: bool)
    requires SystemFits(w, s) && s.phase.Walking?
    ensures SystemFits(w, WalkOne(s, ok))
  {
    if s.phase.todo != [] {
      var item, rest := s.phase.todo[0], s.phase.todo[1..];
      var remaining, available := item.cost - item.applied, s.phase.copy - s.books.wallet.floor;
      assert ItemFits(s.books.costs, item);
      if 0 < remaining && 0 < available && ok {
        DeductKeeps(w, s.books, item.id, MinInt(remaining, available));
        var next := WalkOne(s, ok);
        forall i | 0 <= i < |rest| ensures ItemFits(next.books.costs, rest[i]) {
          assert ItemFits(s.books.costs, s.phase.todo[i + 1]) && item.id != s.phase.todo[i + 1].id;
        }
      }
    }
  }

  lemma CostsGrow(costs: seq<Cost>, more: seq<Cost>, todo: seq<Item>)
    requires TodoFits(costs, todo) && costs <= more
    ensures TodoFits(more, todo)
  {
    forall i | 0 <= i < |todo| ensures ItemFits(more, todo[i]) {
      assert ItemFits(costs, todo[i]);
    }
  }

  lemma AdvanceKeeps(w: Wallet, s: System, step: Step)
    requires SystemFits(w, s)
    ensures SystemFits(w, Advance(s, step))
  {
    match step
    case TopUpStep(amount, ref) => TopUpKeeps(w, s.books, amount, ref);
    case NewCost(periodStart, cost) =>
      NewCostKeeps(w, s.books, periodStart, cost);
      if s.phase.Walking? || s.phase.Refreshing? {
        CostsGrow(s.books.costs, Advance(s, step).books.costs, s.phase.todo);
      }
    case DeductNext(ok) => if s.phase.Walking? { WalkOneKeeps(w, s, ok); }
    case _ =>
  }

  /** A wallet just opened, before any cost. */
  function Opened(scale: Scale, w: Wallet): System {
    System(Books(scale, w, [], []), Idle)
  }

  /** Over every interleaving of the rater's steps with top-ups, new costs, failures and crashes: the balance
      stays at or above the floor, the balance and every recorded balance are the ledger sum up to rounding
      (exactly, without rounding; else at most one micro-unit above it per deduction), the reference balance is
      the sum of top-ups, and what is applied to cost entries is what the deduction rows took. */
  lemma WalletInvariant(scale: Scale, w: Wallet, steps: seq<Step>)
    requires Opening(scale, w)
    ensures SystemFits(w, After(Advance, Opened(scale, w), steps, |steps|))
  {
    var inv := (s: System) => SystemFits(w, s);
    forall s: System, step: Step | inv(s) ensures inv(Advance(s, step)) {
      AdvanceKeeps(w, s, step);
    }
    Induction(Advance, Opened(scale, w), steps, |steps|, inv);
  }

  /** In exact arithmetic, over every run: the balance is the opening balance plus the ledger, every recorded
      balance is the sum up to its row, and no more is applied to a cost entry than it costs. */
  lemma ExactBooks(w: Wallet, steps: seq<Step>)
    requires Opening(Exact, w)
    ensures var b := After(Advance, Opened(Exact, w), steps, |steps|).books;
            && w.floor == b.wallet.floor <= b.wallet.balance
            && b.wallet.balance == w.balance + LedgerSum(b.ledger, All, |b.ledger|)
            && (forall i :: 0 <= i < |b.ledger| ==>
                  b.ledger[i].balanceAfter == w.balance + LedgerSum(b.ledger, All, i + 1))
            && b.wallet.reference == w.reference + LedgerSum(b.ledger, TopUps, |b.ledger|)
            && (forall i :: 0 <= i < |b.costs| ==> 0 <= b.costs[i].applied <= MaxInt(0, b.costs[i].cost))
  {
    WalletInvariant(Exact, w, steps);
    ScaleIsFixed(Exact, w, steps);
    ExactFit(w, After(Advance, Opened(Exact, w), steps, |steps|).books);
  }

  lemma ExactFit(w: Wallet, b: Books)
    requires BooksFit(w, b) && b.scale.Exact?
    ensures b.wallet.balance == w.balance + LedgerSum(b.ledger, All, |b.ledger|)
    ensures forall i :: 0 <= i < |b.ledger| ==> b.ledger[i].balanceAfter == w.balance + LedgerSum(b.ledger, All, i + 1)
    ensures forall i :: 0 <= i < |b.costs| ==> 0 <= b.costs[i].applied <= MaxInt(0, b.costs[i].cost)
  {
    forall i | 0 <= i < |b.ledger| ensures b.ledger[i].balanceAfter == w.balance + LedgerSum(b.ledger, All, i + 1) {
      assert RowFits(b, w.balance, i);
    }
    forall i | 0 <= i < |b.costs| ensures 0 <= b.costs[i].applied <= MaxInt(0, b.costs[i].cost) {
      assert CostFits(b.scale, b.costs[i]);
    }
  }

  lemma ScaleIsFixed(scale: Scale, w: Wallet, steps: seq<Step>)
    ensures After(Advance, Opened(scale, w), steps, |steps|).books.scale == scale
  {
    var inv := (s: System) => s.books.scale == scale;
    Induction(Advance, Opened(scale, w), steps, |steps|, inv);
  }

  /** With six decimals and a floor that is not negative, over every run: the balance never drops below the
      floor, what was applied offsets the deduction rows exactly, and the balance exceeds the ledger by at most
      one micro-unit per deduction. */
  lemma MicroBooks(w: Wallet, steps: seq<Step>)
    requires Opening(Micro, w)
    ensures var b := After(Advance, Opened(Micro, w), steps, |steps|).books;
            && w.floor == b.wallet.floor <= b.wallet.balance
            && AppliedSum(b.costs, |b.costs|) + LedgerSum(b.ledger, Deductions, |b.ledger|) == 0
            && 0 <= b.wallet.balance - w.balance - LedgerSum(b.ledger, All, |b.ledger|) <=
               MICRO * DeductionCount(b.ledger, |b.ledger|)
  {
    WalletInvariant(Micro, w, steps);
    ScaleIsFixed(Micro, w, steps);
  }

  // ----- Paid entries stay paid -----

  /** With six decimals, a deduction changes the amount applied, and adds a row other than zero, exactly from
      half a micro-unit on; it changes the balance exactly above half a micro-unit. */
  lemma SmallDeductions(b: Books, id: nat, amount: int)
    requires b.scale.Micro? && id < |b.costs| && OnGrid(Micro, b.costs[id].applied) && 0 <= b.costs[id].applied
    requires OnGrid(Micro, b.wallet.balance) && 0 < amount <= b.wallet.balance
    ensures var next := Deduct(b, id, amount);
            && (next.costs[id].applied == b.costs[id].applied <==> amount < MICRO / 2)
            && (next.wallet.balance == b.wallet.balance <==> amount <= MICRO / 2)
            && (next.ledger[|b.ledger|].amount == 0 <==> amount < MICRO / 2)
  {
    var c := b.costs[id];
    RoundShift(Micro, c.applied, amount);
    RoundDeduction(Micro, b.wallet.balance, amount);
  }

  /** Less than half a micro-unit is left to pay. */
  predicate PaidUp(b: Books, id: nat) {
    id < |b.costs| && b.costs[id].cost - b.costs[id].applied < if b.scale.Exact? then 1 else MICRO / 2
  }

  /** A step that deducts for a paid-up entry changes neither the balance nor the entry. */
  lemma WalkOneLeavesPaid(w: Wallet, s: System, ok: bool, id: nat)
    requires SystemFits(w, s) && s.phase.Walking? && PaidUp(s.books, id)
    ensures |WalkOne(s, ok).books.costs| == |s.books.costs| && WalkOne(s, ok).books.costs[id] == s.books.costs[id]
    ensures s.phase.todo != [] && s.phase.todo[0].id == id ==> WalkOne(s, ok).books.wallet == s.books.wallet
  {
    if s.phase.todo != [] {
      var item := s.phase.todo[0];
      assert ItemFits(s.books.costs, item);
      if item.id == id {
        assert CostFits(s.books.scale, s.books.costs[id]);
        var remaining, available := item.cost - item.applied, s.phase.copy - s.books.wallet.floor;
        if 0 < remaining && 0 < available && ok {
          SmallDeductions(s.books, id, MinInt(remaining, available));
        }
      }
    }
  }

  predicate StaysPaid(w: Wallet, s: System, id: nat, c: Cost) {
    SystemFits(w, s) && id < |s.books.costs| && s.books.costs[id] == c && PaidUp(s.books, id)
  }

  lemma StaysPaidStep(w: Wallet, s: System, step: Step, id: nat, c: Cost)
    requires StaysPaid(w, s, id, c)
    ensures StaysPaid(w, Advance(s, step), id, c)
  {
    AdvanceKeeps(w, s, step);
    if step.DeductNext? && s.phase.Walking? {
      WalkOneLeavesPaid(w, s, step.ok, id);
    }
  }

  /** Once an entry is paid to within half a micro-unit, no later step of any run touches it. */
  lemma PaidEntriesStayPaid(w: Wallet, s: System, steps: seq<Step>, id: nat)
    requires SystemFits(w, s) && PaidUp(s.books, id)
    ensures var later := After(Advance, s, steps, |steps|).books;
            id < |later.costs| && later.costs[id] == s.books.costs[id]
  {
    var c := s.books.costs[id];
    var inv := (t: System) => StaysPaid(w, t, id, c);
    forall t: System, step: Step | inv(t) ensures inv(Advance(t, step)) {
      StaysPaidStep(w, t, step, id, c);
    }
    Induction(Advance, s, steps, |steps|, inv);
  }

  // ----- References -----

  /** No reference is used by two top-ups. */
  predicate RefsOnce(ledger: seq<Row>) {
    forall i, j :: 0 <= i < j < |ledger| && ledger[i].kind.TopUpRow? && ledger[i].kind == ledger[j].kind ==>
      ledger[i].kind.ref == ""
  }

  lemma RefsOnceStep(s: System, step: Step)
    requires RefsOnce(s.books.ledger)
    ensures RefsOnce(Advance(s, step).books.ledger)
  {
  }

  /** Over every run, a top-up with a reference is applied at most once. */
  lemma TopUpsAreIdempotent(scale: Scale, w: Wallet, steps: seq<Step>)
    ensures RefsOnce(After(Advance, Opened(scale, w), steps, |steps|).books.ledger)
  {
    var inv := (s: System) => RefsOnce(s.books.ledger);
    forall s: System, step: Step | inv(s) ensures inv(Advance(s, step)) {
      RefsOnceStep(s, step);
    }
    Induction(Advance, Opened(scale, w), steps, |steps|, inv);
  }
}
