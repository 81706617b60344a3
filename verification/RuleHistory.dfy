/** The rule table and the cache, told from the updates. */
module RuleHistory {
  import opened RuleCache
  import opened Runs

  /** The text of every rule in its last update among the first `n` steps. */
  function Latest(steps: seq<Step>, n: int): Cache
    requires 0 <= n <= |steps|
    decreases n
  {
    if n == 0 then map[]
    else if steps[n - 1].UpsertRule? then Latest(steps, n - 1)[steps[n - 1].name := steps[n - 1].json]
    else Latest(steps, n - 1)
  }

  /** The number of updates of a rule. */
  function UpdatesOf(steps: seq<Step>, name: string, n: int): nat
    requires 0 <= n <= |steps|
    decreases n
  {
    if n == 0 then 0
    else UpdatesOf(steps, name, n - 1) + if steps[n - 1].UpsertRule? && steps[n - 1].name == name then 1 else 0
  }

  /** The number of updates. */
  function Updates(steps: seq<Step>, n: int): nat
    requires 0 <= n <= |steps|
    decreases n
  {
    if n == 0 then 0 else Updates(steps, n - 1) + if steps[n - 1].UpsertRule? then 1 else 0
  }

  lemma {:induction false} CacheOfUpdate(rules: Table, i: int, r: Rule, n: int)
    requires UniqueNames(rules) && 0 <= i < |rules| && r.name == rules[i].name && 0 <= n <= |rules|
    ensures CacheOf(rules[i := r], n) == if i < n then CacheOf(rules, n)[r.name := r.json] else CacheOf(rules, n)
    decreases n
  {
    if 0 < n {
      CacheOfUpdate(rules, i, r, n - 1);
      assert i != n - 1 ==> rules[n - 1].name != r.name;
    }
  }

  lemma {:induction false} CacheOfPrefix(rules: Table, more: Table, n: int)
    requires 0 <= n <= |rules| && rules <= more
    ensures CacheOf(more, n) == CacheOf(rules, n)
    decreases n
  {
    if 0 < n {
      CacheOfPrefix(rules, more, n - 1);
    }
  }

  lemma CacheOfAppend(rules: Table, r: Rule, next: Table)
    requires next == rules + [r]
    ensures CacheOf(next, |next|) == CacheOf(rules, |rules|)[r.name := r.json]
  {
    CacheOfPrefix(rules, next, |rules|);
  }

  lemma CacheOfReplace(rules: Table, i: int, r: Rule, next: Table)
    requires UniqueNames(rules) && 0 <= i < |rules| && r.name == rules[i].name && next == rules[i := r]
    ensures CacheOf(next, |next|) == CacheOf(rules, |rules|)[r.name := r.json]
  {
    CacheOfUpdate(rules, i, r, |rules|);
  }

  /** The update puts rule `r` at position `i`. */
  predicate Puts(rules: Table, i: int, r: Rule, next: Table) {
    || (0 <= i < |rules| && rules[i].name == r.name && next == rules[i := r])
    || (i == |rules| && next == rules + [r])
  }

  lemma UpsertIs(rules: Table, name: string, json: string, next: Table) returns (i: int, r: Rule)
    requires next == Upsert(rules, name, json)
    ensures r.name == name && r.json == json && Puts(rules, i, r, next)
  {
    i := Find(rules, name, 0);
    r := Rule(name, json, if i < |rules| then rules[i].version + 1 else 1);
  }

  lemma TextReplaced(rules: Table, i: int, r: Rule, next: Table)
    requires UniqueNames(rules) && Puts(rules, i, r, next)
    ensures CacheOf(next, |next|) == CacheOf(rules, |rules|)[r.name := r.json]
  {
    if i < |rules| {
      CacheOfReplace(rules, i, r, next);
    } else {
      CacheOfAppend(rules, r, next);
    }
  }

  /** An update replaces the text of its rule and no other. */
  lemma UpsertReplacesText(rules: Table, name: string, json: string, next: Table)
    requires UniqueNames(rules) && next == Upsert(rules, name, json)
    ensures CacheOf(next, |next|) == CacheOf(rules, |rules|)[name := json]
  {
    var i, r := UpsertIs(rules, name, json, next);
    TextReplaced(rules, i, r, next);
  }

  /** The version of a rule, 0 if there is none. */
  function VersionOf(rules: Table, name: string): int {
    var i := Find(rules, name, 0);
    if i < |rules| then rules[i].version else 0
  }

  lemma RuleAt(rules: Table, name: string, i: int)
    requires UniqueNames(rules) && 0 <= i < |rules| && rules[i].name == name
    ensures VersionOf(rules, name) == rules[i].version
  {
    assert Find(rules, name, 0) <= i;
  }

  /** An update moves the version of its rule by one, from 0 for a new rule, and no other. */
  lemma UpsertMovesOneVersion(rules: Table, name: string, json: string, next: Table, other: string)
    requires UniqueNames(rules) && next == Upsert(rules, name, json)
    ensures VersionOf(next, other) == VersionOf(rules, other) + if other == name then 1 else 0
  {
    UpsertKeepsUniqueNames(rules, name, json);
    var i, k := Find(rules, name, 0), Find(rules, other, 0);
    if other == name {
      RuleAt(next, name, i);
    } else if k < |rules| {
      RuleAt(next, other, k);
    }
  }

  predicate Recorded(steps: seq<Step>, n: int, s: System)
    requires 0 <= n <= |steps|
  {
    Fits(s) && CacheOf(s.rules, |s.rules|) == Latest(steps, n) && Version(s.rules) == Updates(steps, n)
  }

  lemma RecordedStep(steps: seq<Step>, n: int, s: System, next: System)
    requires 0 <= n < |steps| && Recorded(steps, n, s) && next == Advance(s, steps[n])
    ensures Recorded(steps, n + 1, next)
  {
    AdvanceKeeps(s, steps[n]);
    if steps[n].UpsertRule? {
      UpsertReplacesText(s.rules, steps[n].name, steps[n].json, next.rules);
      UpsertMovesVersion(s.rules, steps[n].name, steps[n].json);
    }
  }

  /** Over every run, the version of a rule is the number of its updates. */
  lemma {:induction false} VersionsCountUpdates(steps: seq<Step>, n: int, name: string)
    requires 0 <= n <= |steps|
    ensures VersionOf(After(Advance, START, steps, n).rules, name) == UpdatesOf(steps, name, n)
    decreases n
  {
    if 0 < n {
      VersionsCountUpdates(steps, n - 1, name);
      RecordedAlong(steps, n - 1);
      var s, step := After(Advance, START, steps, n - 1), steps[n - 1];
      if step.UpsertRule? {
        UpsertMovesOneVersion(s.rules, step.name, step.json, Advance(s, step).rules, name);
      }
    }
  }

  lemma {:induction false} RecordedAlong(steps: seq<Step>, n: int)
    requires 0 <= n <= |steps|
    ensures Recorded(steps, n, After(Advance, START, steps, n))
    decreases n
  {
    if 0 < n {
      RecordedAlong(steps, n - 1);
      var s := After(Advance, START, steps, n - 1);
      RecordedStep(steps, n - 1, s, Advance(s, steps[n - 1]));
    }
  }

  /** Over every interleaving of updates and reloads: the table holds the last text of every rule, its version is the
      number of updates; and whenever the cached version is current, the cache holds the last text of every rule and
      nothing else. */
  lemma CacheHoldsLatestRules(steps: seq<Step>)
    ensures var s, n := After(Advance, START, steps, |steps|), |steps|;
            && CacheOf(s.rules, |s.rules|) == Latest(steps, n) && Version(s.rules) == Updates(steps, n)
            && (s.cachedVersion == Version(s.rules) ==> s.cache == Latest(steps, n))
  {
    RecordedAlong(steps, |steps|);
  }

  /** From every state of a run, a reload that no update interrupts brings the cache to the last texts. */
  lemma ReloadBringsLatestRules(steps: seq<Step>, k: int)
    requires k !in After(Advance, START, steps, |steps|).reloads
    ensures var s := After(Advance, START, steps, |steps|);
            var next := Advance(Advance(Advance(s, ReadVersion(k)), ReadRules(k)), Swap(k));
            next.cache == Latest(steps, |steps|) && next.cachedVersion == Version(next.rules)
  {
    RecordedAlong(steps, |steps|);
    UninterruptedReloadIsFresh(After(Advance, START, steps, |steps|), k);
  }
}
