/** Runs of a state machine, and induction over them. */
module Runs {
  /** The state after the first `n` steps of a run. */
  function After<S, E>(apply: (S, E) -> S, init: S, steps: seq<E>, n: int): S
    requires 0 <= n <= |steps|
    decreases n
  {
    if n == 0 then init else apply(After(apply, init, steps, n - 1), steps[n - 1])
  }

  /** What holds at the start and is kept by every step of the run holds after the run. */
  lemma {:induction false} Induction<S(!new), E(!new)>(apply: (S, E) -> S, init: S, steps: seq<E>, n: int,
                                                       inv: S -> bool)
    requires 0 <= n <= |steps| && inv(init)
    requires forall s: S, e: E {:trigger apply(s, e)} :: inv(s) && e in steps ==> inv(apply(s, e))
    ensures inv(After(apply, init, steps, n))
    decreases n
  {
    if 0 < n {
      Induction(apply, init, steps, n - 1, inv);
    }
  }

  /** The same, for runs whose every step is permitted in the state in which it is taken. */
  lemma {:induction false} GuardedInduction<S(!new), E(!new)>(apply: (S, E) -> S, init: S, steps: seq<E>, n: int,
                                                              permits: (S, E) -> bool, inv: S -> bool)
    requires 0 <= n <= |steps| && inv(init)
    requires forall s: S, e: E {:trigger apply(s, e)} :: inv(s) && permits(s, e) ==> inv(apply(s, e))
    requires forall i {:trigger After(apply, init, steps, i)} ::
               0 <= i < n ==> permits(After(apply, init, steps, i), steps[i])
    ensures inv(After(apply, init, steps, n))
    decreases n
  {
    if 0 < n {
      GuardedInduction(apply, init, steps, n - 1, permits, inv);
      assert permits(After(apply, init, steps, n - 1), steps[n - 1]);
    }
  }

  /** The first `n` steps decide the state after `n` steps. */
  lemma {:induction false} AfterOfPrefix<S, E>(apply: (S, E) -> S, init: S, steps: seq<E>, more: seq<E>, n: int)
    requires 0 <= n <= |steps| && steps <= more
    ensures After(apply, init, more, n) == After(apply, init, steps, n)
    decreases n
  {
    if 0 < n {
      AfterOfPrefix(apply, init, steps, more, n - 1);
    }
  }

  lemma AfterNext<S, E>(apply: (S, E) -> S, init: S, steps: seq<E>, e: E)
    ensures After(apply, init, steps + [e], |steps| + 1) == apply(After(apply, init, steps, |steps|), e)
  {
    AfterOfPrefix(apply, init, steps, steps + [e], |steps|);
  }

  /** If `view` maps every step of one machine to the same step of another, it maps runs to runs. */
  lemma {:induction false} ViewOfRun<S(!new), T, E(!new)>(apply: (S, E) -> S, seen: (T, E) -> T, view: S -> T,
                                                         init: S, steps: seq<E>, n: int)
    requires 0 <= n <= |steps| && forall s: S, e: E {:trigger apply(s, e)} :: view(apply(s, e)) == seen(view(s), e)
    ensures view(After(apply, init, steps, n)) == After(seen, view(init), steps, n)
    decreases n
  {
    if 0 < n {
      ViewOfRun(apply, seen, view, init, steps, n - 1);
    }
  }

  /** A run of `steps` and then `more` is a run of `more` from where `steps` end. */
  lemma {:induction false} AfterConcat<S, E>(apply: (S, E) -> S, init: S, steps: seq<E>, more: seq<E>, n: int)
    requires 0 <= n <= |more|
    ensures After(apply, init, steps + more, |steps| + n) == After(apply, After(apply, init, steps, |steps|), more, n)
    decreases n
  {
    if n == 0 {
      AfterOfPrefix(apply, init, steps, steps + more, |steps|);
    } else {
      AfterConcat(apply, init, steps, more, n - 1);
      assert (steps + more)[|steps| + n - 1] == more[n - 1];
    }
  }

  lemma ViewOfLongerRun<S(!new), T, E(!new)>(apply: (S, E) -> S, seen: (T, E) -> T, view: S -> T,
                                            init: S, steps: seq<E>, more: seq<E>)
    requires forall s: S, e: E {:trigger apply(s, e)} :: view(apply(s, e)) == seen(view(s), e)
    ensures view(After(apply, init, steps + more, |steps + more|)) ==
            After(seen, view(After(apply, init, steps, |steps|)), more, |more|)
  {
    AfterConcat(apply, init, steps, more, |more|);
    ViewOfRun(apply, seen, view, After(apply, init, steps, |steps|), more, |more|);
  }

  /** The steps lead from one state to another. */
  ghost predicate Leads<S, E>(apply: (S, E) -> S, s: S, steps: seq<E>, next: S) {
    After(apply, s, steps, |steps|) == next
  }

  lemma LeadsNowhere<S, E>(apply: (S, E) -> S, s: S)
    ensures Leads(apply, s, [], s)
  {
  }

  lemma LeadsOn<S, E>(apply: (S, E) -> S, s: S, steps: seq<E>, mid: S, e: E, next: S)
    requires Leads(apply, s, steps, mid) && apply(mid, e) == next
    ensures Leads(apply, s, steps + [e], next)
  {
    AfterNext(apply, s, steps, e);
  }

  lemma LeadsOnTwice<S, E>(apply: (S, E) -> S, s: S, steps: seq<E>, mid: S, d: E, e: E, next: S)
    requires Leads(apply, s, steps, mid) && apply(apply(mid, d), e) == next
    ensures Leads(apply, s, steps + [d, e], next)
  {
    LeadsOn(apply, s, steps, mid, d, apply(mid, d));
    LeadsOn(apply, s, steps + [d], apply(mid, d), e, next);
    assert steps + [d] + [e] == steps + [d, e];
  }
}
