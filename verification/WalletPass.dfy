/** A deduction pass without failures or concurrent top-ups: first in, first paid. */
module WalletPass {
  import opened Numbers
  import opened Options
  import opened Runs
  import opened Wallet

  function Remaining(c: Cost): int {
    c.cost - c.applied
  }

  function Available(b: Books): int {
    b.wallet.balance - b.wallet.floor
  }

  /** What the walk deducts for one entry. */
  function PayOne(b: Books, id: nat): Books
    requires id < |b.costs|
  {
    if Remaining(b.costs[id]) <= 0 || Available(b) <= 0 then b
    else Deduct(b, id, MinInt(Remaining(b.costs[id]), Available(b)))
  }

  predicate KnownIds(b: Books, ids: seq<nat>) {
    forall i :: 0 <= i < |ids| ==> ids[i] < |b.costs|
  }

  /** The books after the first `n` entries of the walk. */
  function Paid(b: Books, ids: seq<nat>, n: int): (r: Books)
    requires 0 <= n <= |ids| && KnownIds(b, ids)
    ensures |r.costs| == |b.costs|
    decreases n
  {
    if n == 0 then b else PayOne(Paid(b, ids, n - 1), ids[n - 1])
  }

  /** Once the floor is reached nothing more is paid, so the walk may stop there. */
  lemma {:induction false} NothingMoreAtFloor(b: Books, ids: seq<nat>, m: int, n: int)
    requires 0 <= m <= n <= |ids| && KnownIds(b, ids) && Available(Paid(b, ids, m)) <= 0
    ensures Paid(b, ids, n) == Paid(b, ids, m)
    decreases n
  {
    if m < n {
      NothingMoreAtFloor(b, ids, m, n - 1);
    }
  }

  // ----- What a pass pays -----

  predicate Apart(ids: seq<nat>, i: int, j: int)
    requires 0 <= i < |ids| && 0 <= j < |ids|
  {
    ids[i] != ids[j]
  }

  /** The entries owe something, and each comes once. */
  predicate Owing(b: Books, ids: seq<nat>) {
    && KnownIds(b, ids)
    && (forall i :: 0 <= i < |ids| ==> 0 < Remaining(b.costs[ids[i]]))
    && (forall i, j {:trigger Apart(ids, i, j)} :: 0 <= i < |ids| && 0 <= j < |ids| && i != j ==> Apart(ids, i, j))
  }

  lemma UnappliedOwe(b: Books, ids: seq<nat>)
    requires IsUnapplied(b.costs, ids)
    ensures Owing(b, ids)
  {
  }

  /** What has been applied lies on the grid. */
  predicate OnBooks(scale: Scale, c: Cost) {
    OnGrid(scale, c.applied) && 0 <= c.applied
  }

  /** Books in which the entries can be paid; every run leads to such books. */
  predicate Payable(b: Books, ids: seq<nat>) {
    && Owing(b, ids) && Opening(b.scale, b.wallet)
    && (forall i {:trigger OnBooks(b.scale, b.costs[ids[i]])} :: 0 <= i < |ids| ==> OnBooks(b.scale, b.costs[ids[i]]))
  }

  /** The books after any run are fit for a pass over their unapplied entries. */
  lemma BooksArePayable(w: Wallet, b: Books, ids: seq<nat>)
    requires BooksFit(w, b) && IsUnapplied(b.costs, ids)
    ensures Payable(b, ids)
  {
    UnappliedOwe(b, ids);
    forall i | 0 <= i < |ids| ensures OnBooks(b.scale, b.costs[ids[i]]) {
      assert CostFits(b.scale, b.costs[ids[i]]);
    }
  }

  /** What paying `amount` takes off the balance: the amount, rounded, with ties rounded down. */
  function Fall(scale: Scale, amount: int): int {
    Round(scale, amount) - if Tie(scale, amount) then MICRO else 0
  }

  /** The fall is the multiple of the grid nearest to the amount, and the lower one at a tie. */
  lemma FallQuotient(scale: Scale, amount: int) returns (q: int)
    requires scale.Micro? && 0 <= amount
    ensures Fall(scale, amount) == MICRO * q
    ensures 2 * MICRO * q - MICRO < 2 * amount <= 2 * MICRO * q + MICRO
  {
    q := amount / MICRO;
    NearestOf(q, amount % MICRO);
    if MICRO / 2 < amount % MICRO {
      q := q + 1;
    }
  }

  lemma FallBounds(scale: Scale, amount: int, grid: int)
    requires OnGrid(scale, grid) && 0 <= amount && 0 <= grid
    ensures 0 <= Fall(scale, amount) && OnGrid(scale, Fall(scale, amount)) && Fall(scale, grid) == grid
    ensures (amount <= grid ==> Fall(scale, amount) <= grid) && (grid <= amount ==> grid <= Fall(scale, amount))
  {
    if scale.Micro? {
      GridQuotient(scale, grid);
      var q := FallQuotient(scale, amount);
      MultipleOnGrid(scale, q, MICRO * q);
    }
  }

  /** What the first `n` entries would take off the balance. */
  function Owed(b: Books, ids: seq<nat>, n: int): int
    requires 0 <= n <= |ids| && KnownIds(b, ids)
    decreases n
  {
    if n == 0 then 0 else Owed(b, ids, n - 1) + Fall(b.scale, Remaining(b.costs[ids[n - 1]]))
  }

  /** The funds left for entry `n` when the entries before it come first. */
  function Left(b: Books, ids: seq<nat>, n: int): int
    requires 0 <= n <= |ids| && KnownIds(b, ids)
  {
    MaxInt(0, Available(b) - Owed(b, ids, n))
  }

  /** What is applied to an entry with funds `left`: its cost, rounded, if they suffice, else all that is left. */
  function NowApplied(scale: Scale, c: Cost, left: int): int {
    if left <= 0 then c.applied else if Remaining(c) <= left then Round(scale, c.cost) else c.applied + left
  }

  lemma {:induction false} OwedOnGrid(b: Books, ids: seq<nat>, n: int)
    requires 0 <= n <= |ids| && Owing(b, ids)
    ensures 0 <= Owed(b, ids, n) && OnGrid(b.scale, Owed(b, ids, n))
    decreases n
  {
    if 0 < n {
      OwedOnGrid(b, ids, n - 1);
      assert 0 < Remaining(b.costs[ids[n - 1]]);
      FallBounds(b.scale, Remaining(b.costs[ids[n - 1]]), 0);
      GridSum(b.scale, Owed(b, ids, n - 1), Fall(b.scale, Remaining(b.costs[ids[n - 1]])));
    }
  }

  lemma MultipleOnGrid(scale: Scale, q: int, x: int)
    requires x == MICRO * q
    ensures OnGrid(scale, x)
  {
  }

  lemma GridSum(scale: Scale, x: int, y: int)
    requires OnGrid(scale, x) && OnGrid(scale, y)
    ensures OnGrid(scale, x + y) && OnGrid(scale, x - y)
  {
    if scale.Micro? {
      GridQuotient(scale, x);
      GridQuotient(scale, y);
      MultipleOnGrid(scale, x / MICRO + y / MICRO, x + y);
      MultipleOnGrid(scale, x / MICRO - y / MICRO, x - y);
    }
  }

  lemma LeftOnGrid(b: Books, ids: seq<nat>, n: int)
    requires 0 <= n <= |ids| && Payable(b, ids)
    ensures OnGrid(b.scale, Left(b, ids, n))
  {
    OwedOnGrid(b, ids, n);
    GridSum(b.scale, b.wallet.balance, b.wallet.floor);
    GridSum(b.scale, Available(b), Owed(b, ids, n));
  }

  /** Entry `i` has what its turn gives it if it is among the first `n`, and is untouched otherwise. */
  predicate HasShare(b: Books, ids: seq<nat>, n: int, next: Books, i: int)
    requires KnownIds(b, ids) && |next.costs| == |b.costs| && 0 <= i < |ids|
  {
    var c := b.costs[ids[i]];
    next.costs[ids[i]] == if i < n then c.(applied := NowApplied(b.scale, c, Left(b, ids, i))) else c
  }

  /** The state after `n` entries: the first `n` have their share, the others are untouched, and the funds left
      are those for the next entry. */
  predicate PaidInOrder(b: Books, ids: seq<nat>, n: int, next: Books)
    requires 0 <= n <= |ids| && KnownIds(b, ids)
  {
    && next.scale == b.scale && |next.costs| == |b.costs| && next.wallet.floor == b.wallet.floor
    && OnGrid(b.scale, next.wallet.balance) && Available(next) == Left(b, ids, n)
    && forall i {:trigger HasShare(b, ids, n, next, i)} :: 0 <= i < |ids| ==> HasShare(b, ids, n, next, i)
  }

  /** One payment out of funds `left`. */
  lemma OnePayment(scale: Scale, c: Cost, balance: int, left: int, debit: int)
    requires OnBooks(scale, c) && 0 < Remaining(c) && OnGrid(scale, left) && 0 < left && OnGrid(scale, balance)
    requires scale.Micro? ==> left <= balance
    requires debit == MinInt(Remaining(c), left)
    ensures Round(scale, c.applied + debit) == NowApplied(scale, c, left)
    ensures Round(scale, balance - debit) == balance - left + MaxInt(0, left - Fall(scale, Remaining(c)))
    ensures OnGrid(scale, Round(scale, balance - debit))
  {
    RoundDeduction(scale, balance, debit);
    RoundOnGrid(scale, balance - debit);
    FallBounds(scale, Remaining(c), left);
    GridSum(scale, c.applied, left);
    RoundOnGrid(scale, c.applied + left);
  }

  /** Funds left after one more entry. */
  lemma LeftNext(available: int, owed: int, fall: int)
    requires 0 <= owed && 0 <= fall
    ensures MaxInt(0, available - (owed + fall)) == MaxInt(0, MaxInt(0, available - owed) - fall)
  {
  }

  lemma PayNextFunds(b: Books, ids: seq<nat>, n: int, mid: Books, next: Books)
    requires 0 <= n < |ids| && Payable(b, ids) && PaidInOrder(b, ids, n, mid) && next == PayOne(mid, ids[n])
    ensures OnGrid(b.scale, next.wallet.balance) && Available(next) == Left(b, ids, n + 1)
    ensures var applied := NowApplied(b.scale, b.costs[ids[n]], Left(b, ids, n));
            next.costs == mid.costs[ids[n] := mid.costs[ids[n]].(applied := applied)]
  {
    var c, left := b.costs[ids[n]], Left(b, ids, n);
    assert HasShare(b, ids, n, mid, n) && 0 < Remaining(c) && OnBooks(b.scale, b.costs[ids[n]]);
    OwedOnGrid(b, ids, n);
    LeftOnGrid(b, ids, n);
    FallBounds(b.scale, Remaining(c), 0);
    LeftNext(Available(b), Owed(b, ids, n), Fall(b.scale, Remaining(c)));
    if 0 < left {
      OnePayment(b.scale, c, mid.wallet.balance, left, MinInt(Remaining(c), left));
    }
  }

  lemma PayNext(b: Books, ids: seq<nat>, n: int, mid: Books, next: Books)
    requires 0 <= n < |ids| && Payable(b, ids) && PaidInOrder(b, ids, n, mid) && next == PayOne(mid, ids[n])
    ensures PaidInOrder(b, ids, n + 1, next)
  {
    PayNextFunds(b, ids, n, mid, next);
    var m := n + 1;
    forall i | 0 <= i < |ids| ensures HasShare(b, ids, m, next, i) {
      assert HasShare(b, ids, n, mid, i) && HasShare(b, ids, n, mid, n);
      if i != n {
        assert Apart(ids, i, n);
      }
    }
  }

  /** A pass pays in period order, with or without rounding: every entry is paid in full while funds last, then
      one gets the rest of the funds, then none anything. */
  lemma {:induction false} PassPaysInOrder(b: Books, ids: seq<nat>, n: int)
    requires 0 <= n <= |ids| && Payable(b, ids)
    ensures PaidInOrder(b, ids, n, Paid(b, ids, n))
    decreases n
  {
    if n == 0 {
      forall i | 0 <= i < |ids| ensures HasShare(b, ids, 0, b, i) {
      }
    } else {
      PassPaysInOrder(b, ids, n - 1);
      PayNext(b, ids, n - 1, Paid(b, ids, n - 1), Paid(b, ids, n));
    }
  }

  /** The funds left for entry `i` pay it in full. */
  predicate InFull(b: Books, ids: seq<nat>, i: int)
    requires 0 <= i < |ids| && KnownIds(b, ids)
  {
    Remaining(b.costs[ids[i]]) <= Left(b, ids, i)
  }

  /** After an entry that the funds do not pay in full nothing is left. */
  lemma NothingLeftAfter(b: Books, ids: seq<nat>, k: int)
    requires 0 <= k < |ids| && Payable(b, ids) && !InFull(b, ids, k)
    ensures Left(b, ids, k + 1) == 0
  {
    var c := b.costs[ids[k]];
    assert 0 < Remaining(c);
    OwedOnGrid(b, ids, k);
    LeftOnGrid(b, ids, k);
    FallBounds(b.scale, Remaining(c), Left(b, ids, k));
    LeftNext(Available(b), Owed(b, ids, k), Fall(b.scale, Remaining(c)));
  }

  lemma {:induction false} NothingLeftSince(b: Books, ids: seq<nat>, k: int, n: int)
    requires 0 <= k <= n <= |ids| && Payable(b, ids) && Left(b, ids, k) == 0
    ensures Left(b, ids, n) == 0
    decreases n
  {
    if k < n {
      NothingLeftSince(b, ids, k, n - 1);
      OwedOnGrid(b, ids, n - 1);
      assert 0 < Remaining(b.costs[ids[n - 1]]);
      FallBounds(b.scale, Remaining(b.costs[ids[n - 1]]), 0);
    }
  }

  /** The first entry that the funds do not pay in full. */
  lemma {:induction false} FirstNotInFull(b: Books, ids: seq<nat>, n: int) returns (k: int)
    requires 0 <= n <= |ids| && KnownIds(b, ids)
    ensures 0 <= k <= n && (k < n ==> !InFull(b, ids, k)) && forall i :: 0 <= i < k ==> InFull(b, ids, i)
    decreases n
  {
    if n == 0 {
      k := 0;
    } else {
      k := FirstNotInFull(b, ids, n - 1);
      if k == n - 1 && InFull(b, ids, n - 1) {
        k := n;
      }
    }
  }

  /** Entry `i` after the pass: paid in full before position `k`, up to rounding; at it, given what was left and
      not paid in full; untouched after it. */
  predicate Settled(b: Books, ids: seq<nat>, next: Books, k: int, i: int)
    requires KnownIds(b, ids) && |next.costs| == |b.costs| && 0 <= i < |ids|
  {
    var was, now := b.costs[ids[i]], next.costs[ids[i]];
    if i < k then now == was.(applied := Round(b.scale, was.cost)) && PaidUp(next, ids[i])
    else if i == k then now == was.(applied := was.applied + Left(b, ids, k)) && was.applied <= now.applied < was.cost
    else now == was
  }

  lemma RoundedIsPaidUp(scale: Scale, cost: int)
    requires 0 <= cost
    ensures cost - Round(scale, cost) < if scale.Exact? then 1 else MICRO / 2
  {
  }

  lemma EntrySettled(b: Books, ids: seq<nat>, next: Books, k: int, i: int)
    requires Payable(b, ids) && |next.costs| == |b.costs| && next.scale == b.scale && 0 <= i < |ids|
    requires HasShare(b, ids, |ids|, next, i)
    requires i < k ==> InFull(b, ids, i)
    requires i == k ==> !InFull(b, ids, i)
    requires k < i ==> Left(b, ids, i) == 0
    ensures Settled(b, ids, next, k, i)
  {
    assert 0 < Remaining(b.costs[ids[i]]) && OnBooks(b.scale, b.costs[ids[i]]);
    RoundedIsPaidUp(b.scale, b.costs[ids[i]].cost);
  }

  /** A whole pass, with or without rounding: it takes off the balance what is available or all that is owed,
      whichever is less; a prefix paid in full is followed by at most one entry paid in part; and cost stays unpaid
      only when the balance is at its floor. */
  lemma FirstInFirstPaid(b: Books, ids: seq<nat>, next: Books) returns (k: int)
    requires Payable(b, ids) && next == Paid(b, ids, |ids|)
    ensures 0 <= k <= |ids| && forall i :: 0 <= i < |ids| ==> Settled(b, ids, next, k, i)
    ensures b.wallet.balance - next.wallet.balance == MinInt(Available(b), Owed(b, ids, |ids|))
    ensures k < |ids| ==> Available(next) == 0
  {
    PassPaysInOrder(b, ids, |ids|);
    k := FirstNotInFull(b, ids, |ids|);
    OwedOnGrid(b, ids, |ids|);
    if k < |ids| {
      NothingLeftAfter(b, ids, k);
      NothingLeftSince(b, ids, k + 1, |ids|);
    }
    forall i | 0 <= i < |ids| ensures Settled(b, ids, next, k, i) {
      assert HasShare(b, ids, |ids|, next, i);
      assert i < k ==> InFull(b, ids, i);
      if k < i {
        NothingLeftSince(b, ids, k + 1, i);
      }
      EntrySettled(b, ids, next, k, i);
    }
  }

  // ----- A pass is a run -----

  /** Entries later in the walk are as they were. */
  lemma {:induction false} UntouchedYet(b: Books, ids: seq<nat>, n: int, j: int)
    requires 0 <= n <= j < |ids| && Owing(b, ids)
    ensures Paid(b, ids, n).costs[ids[j]] == b.costs[ids[j]]
    decreases n
  {
    if 0 < n {
      UntouchedYet(b, ids, n - 1, j);
      assert Apart(ids, n - 1, j);
    }
  }

  /** Where the pass stands after `n` entries: it walks on with a fresh copy of the balance, or it has stopped
      at the floor. */
  predicate PassAt(b: Books, ids: seq<nat>, n: int, s: System)
    requires 0 <= n <= |ids| && KnownIds(b, ids)
  {
    && s.books == Paid(b, ids, n)
    && (s.phase == Walking(s.books.wallet.balance, Items(b.costs, ids)[n..]) ||
        (s.phase.Idle? && Available(s.books) <= 0))
  }

  lemma PassStep(b: Books, ids: seq<nat>, n: int, mid: System, s: System)
    requires 0 <= n < |ids| && Owing(b, ids) && PassAt(b, ids, n, mid)
    requires s == Advance(Advance(mid, DeductNext(true)), Refresh)
    ensures PassAt(b, ids, n + 1, s)
  {
    UntouchedYet(b, ids, n, n);
    var items := Items(b.costs, ids);
    if mid.phase.Walking? {
      assert mid.phase.todo[0] == items[n] && mid.phase.todo[1..] == items[n + 1..];
    }
  }

  lemma PassStarts(b: Books, ids: seq<nat>, s: System)
    requires IsUnapplied(b.costs, ids) && s == Advance(Advance(System(b, Idle), ReadWallet), ReadCosts(ids))
    ensures Owing(b, ids) && PassAt(b, ids, 0, s) && Leads(Advance, System(b, Idle), [ReadWallet, ReadCosts(ids)], s)
  {
    var init := System(b, Idle);
    UnappliedOwe(b, ids);
    LeadsNowhere(Advance, init);
    LeadsOnTwice(Advance, init, [], init, ReadWallet, ReadCosts(ids), s);
    assert [] + [ReadWallet, ReadCosts(ids)] == [ReadWallet, ReadCosts(ids)];
  }

  lemma NextEntryLeads(init: System, b: Books, ids: seq<nat>, n: int, before: seq<Step>, mid: System)
    returns (steps: seq<Step>, s: System)
    requires 0 <= n < |ids| && Owing(b, ids) && PassAt(b, ids, n, mid) && Leads(Advance, init, before, mid)
    ensures Leads(Advance, init, steps, s) && PassAt(b, ids, n + 1, s)
  {
    s := Advance(Advance(mid, DeductNext(true)), Refresh);
    PassStep(b, ids, n, mid, s);
    steps := before + [DeductNext(true), Refresh];
    LeadsOnTwice(Advance, init, before, mid, DeductNext(true), Refresh, s);
  }

  lemma {:induction false} PassGoesOn(init: System, b: Books, ids: seq<nat>, n: int, first: seq<Step>, start: System)
    returns (steps: seq<Step>, s: System)
    requires 0 <= n <= |ids| && Owing(b, ids) && PassAt(b, ids, 0, start) && Leads(Advance, init, first, start)
    ensures Leads(Advance, init, steps, s) && PassAt(b, ids, n, s)
    decreases n
  {
    if n == 0 {
      steps, s := first, start;
    } else {
      var before, mid := PassGoesOn(init, b, ids, n - 1, first, start);
      steps, s := NextEntryLeads(init, b, ids, n - 1, before, mid);
    }
  }

  /** A pass is a run of the rater's steps, so everything proved of runs holds after it. */
  lemma PassRuns(b: Books, ids: seq<nat>) returns (steps: seq<Step>, s: System)
    requires IsUnapplied(b.costs, ids)
    ensures Owing(b, ids) && Leads(Advance, System(b, Idle), steps, s) && PassAt(b, ids, |ids|, s)
  {
    s := Advance(Advance(System(b, Idle), ReadWallet), ReadCosts(ids));
    PassStarts(b, ids, s);
    steps, s := PassGoesOn(System(b, Idle), b, ids, |ids|, [ReadWallet, ReadCosts(ids)], s);
  }

  lemma PaidNext(b: Books, ids: seq<nat>, n: int, mid: Books, next: Books)
    requires 0 <= n < |ids| && KnownIds(b, ids) && mid == Paid(b, ids, n) && next == PayOne(mid, ids[n])
    ensures next == Paid(b, ids, n + 1)
  {
  }

  /** Debiting what an entry owes, as far as funds reach, pays it. */
  lemma DebitPays(b: Books, id: nat, debit: int, next: Books)
    requires id < |b.costs| && 0 < Remaining(b.costs[id]) && 0 < Available(b)
    requires debit == MinInt(Remaining(b.costs[id]), Available(b)) && next == Deduct(b, id, debit)
    ensures next == PayOne(b, id)
  {
  }

  // ----- The store and the pass -----

  /** The wallet, its ledger and the cost entries it pays for. */
  class Store {
    const scale: Scale
    var balance: int
    var floor: int
    var reference: int
    var ledger: seq<Row>
    var costs: seq<Cost>

    function State(): Books
      reads this
    {
      Books(scale, Wallet(balance, floor, reference), ledger, costs)
    }

    method TopUpWallet(amount: int, externalRef: string) returns (r: Result<Row, string>)
      modifies this`balance, this`reference, this`ledger
      ensures State() == TopUp(old(State()), amount, externalRef)
      ensures r.Ok? <==> 0 < amount && (externalRef == "" || !HasRef(old(ledger), externalRef))
      ensures r.Ok? ==> ledger == old(ledger) + [Row(TopUpRow(externalRef), Round(scale, amount), balance)] &&
                        r.value == ledger[|old(ledger)|] && balance == Round(scale, old(balance) + amount) &&
                        reference == Round(scale, old(reference) + amount)
      ensures r.Err? ==> balance == old(balance) && reference == old(reference) && ledger == old(ledger)
    {
      if amount <= 0 {
        return Err("amount must be positive");
      }
      if externalRef != "" && HasRef(ledger, externalRef) {
        return Err("duplicate top-up");
      }
      balance := Round(scale, balance + amount);
      reference := Round(scale, reference + amount);
      var row := Row(TopUpRow(externalRef), Round(scale, amount), balance);
      ledger := ledger + [row];
      r := Ok(row);
    }

    method DeductFromWallet(id: nat, amount: int)
      modifies this`balance, this`costs, this`ledger
      ensures State() == Deduct(old(State()), id, amount)
    {
      balance := Round(scale, balance - amount);
      if id < |costs| {
        costs := costs[id := costs[id].(applied := Round(scale, costs[id].applied + amount))];
      }
      ledger := ledger + [Row(DeductionRow(id), Round(scale, -amount), balance)];
    }

    /** The deduction pass over the unapplied cost entries `ids`, as the database returns them. */
    method DeductWallets(ids: seq<nat>) returns (deducted: nat)
      requires Owing(State(), ids)
      modifies this`balance, this`costs, this`ledger
      ensures State() == Paid(old(State()), ids, |ids|)
      ensures deducted == |ledger| - |old(ledger)|
    {
      ghost var b := State();
      var entries := Items(costs, ids);
      var copy := balance;
      deducted := 0;
      for i := 0 to |entries|
        invariant copy == balance && State() == Paid(b, ids, i)
        invariant deducted == |ledger| - |old(ledger)|
      {
        UntouchedYet(b, ids, i, i);
        ghost var before := State();
        var remaining := entries[i].cost - entries[i].applied;
        if remaining <= 0 {
          PaidNext(b, ids, i, before, before);
          continue;
        }
        var available := copy - floor;
        if available <= 0 {
          NothingMoreAtFloor(b, ids, i, |ids|);
          break;
        }
        var debit := remaining;
        if debit > available {
          debit := available;
        }
        DeductFromWallet(entries[i].id, debit);
        DebitPays(before, ids[i], debit, State());
        PaidNext(b, ids, i, before, State());
        copy := balance;
        deducted := deducted + 1;
      }
    }
  }
}
