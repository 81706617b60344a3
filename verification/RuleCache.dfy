/** The pricing-rule cache and its version check, interleaved with rule updates. */
module RuleCache {
  import opened Runs

  datatype Rule = Rule(name: string, json: string, version: int)

  type Table = seq<Rule>

  predicate UniqueNames(rules: Table) {
    forall i, j :: 0 <= i < j < |rules| ==> rules[i].name != rules[j].name
  }

  /** Position of a rule, or the end of the table. */
  function Find(rules: Table, name: string, n: int): (i: int)
    requires 0 <= n <= |rules|
    ensures n <= i <= |rules| && (i < |rules| ==> rules[i].name == name)
    ensures forall j :: n <= j < i ==> rules[j].name != name
    decreases |rules| - n
  {
    if n == |rules| || rules[n].name == name then n else Find(rules, name, n + 1)
  }

  /** A new rule starts at version 1; a known one moves to its next version. */
  function Upsert(rules: Table, name: string, json: string): Table {
    var i := Find(rules, name, 0);
    if i < |rules| then rules[i := Rule(name, json, rules[i].version + 1)] else rules + [Rule(name, json, 1)]
  }

  function VersionSum(rules: Table, n: int): int
    requires 0 <= n <= |rules|
    decreases n
  {
    if n == 0 then 0 else VersionSum(rules, n - 1) + rules[n - 1].version
  }

  /** The version the engine compares: the sum of all rule versions. */
  function Version(rules: Table): int {
    VersionSum(rules, |rules|)
  }

  type Cache = map<string, string>

  /** The cache built from the first `n` rules. */
  function CacheOf(rules: Table, n: int): Cache
    requires 0 <= n <= |rules|
    decreases n
  {
    if n == 0 then map[] else CacheOf(rules, n - 1)[rules[n - 1].name := rules[n - 1].json]
  }

  /** The cache holds exactly the rules of the table. */
  predicate Fresh(cache: Cache, rules: Table) {
    cache == CacheOf(rules, |rules|)
  }

  /** What is in the cache of a table: every rule, and nothing else. */
  lemma {:induction false} CacheHoldsTheRules(rules: Table, n: int, name: string)
    requires UniqueNames(rules) && 0 <= n <= |rules|
    ensures name in CacheOf(rules, n) <==> exists i :: 0 <= i < n && rules[i].name == name
    ensures forall i :: 0 <= i < n && rules[i].name == name ==>
      name in CacheOf(rules, n) && CacheOf(rules, n)[name] == rules[i].json
    decreases n
  {
    if 0 < n {
      CacheHoldsTheRules(rules, n - 1, name);
      if rules[n - 1].name == name {
        assert forall i :: 0 <= i < n - 1 ==> rules[i].name != name;
      }
    }
  }

  // ----- Every update moves the version -----

  lemma {:induction false} SumOfUpdate(rules: Table, i: int, r: Rule, n: int)
    requires 0 <= i < |rules| && 0 <= n <= |rules|
    ensures VersionSum(rules[i := r], n) == VersionSum(rules, n) + if i < n then r.version - rules[i].version else 0
    decreases n
  {
    if 0 < n {
      SumOfUpdate(rules, i, r, n - 1);
    }
  }

  lemma {:induction false} SumOfPrefix(rules: Table, more: Table, n: int)
    requires 0 <= n <= |rules| && rules <= more
    ensures VersionSum(more, n) == VersionSum(rules, n)
    decreases n
  {
    if 0 < n {
      SumOfPrefix(rules, more, n - 1);
    }
  }

  lemma UpsertMovesVersion(rules: Table, name: string, json: string)
    ensures Version(Upsert(rules, name, json)) == Version(rules) + 1
  {
    var i := Find(rules, name, 0);
    if i < |rules| {
      SumOfUpdate(rules, i, Rule(name, json, rules[i].version + 1), |rules|);
    } else {
      SumOfPrefix(rules, rules + [Rule(name, json, 1)], |rules|);
    }
  }

  lemma UpsertKeepsUniqueNames(rules: Table, name: string, json: string)
    requires UniqueNames(rules)
    ensures UniqueNames(Upsert(rules, name, json))
  {
  }

  // ----- Reloads, step by step -----

  /** A reload between its steps: it has read the version, or the version and then the rules. */
  datatype Reload = HasVersion(version: int) | HasRules(version: int, rules: Table)

  /** The rule table, the engine's cache, and the reloads under way. */
  datatype System = System(rules: Table, cache: Cache, cachedVersion: int, reloads: map<int, Reload>)

  const START: System := System([], map[], 0, map[])

  datatype Step =
    | UpsertRule(name: string, json: string)
    | ReadVersion(reload: int)
    | ReadRules(reload: int)
    | Swap(reload: int)
    | Fail(reload: int)

  function Advance(s: System, step: Step): System {
    match step
    case UpsertRule(name, json) => s.(rules := Upsert(s.rules, name, json))
    case ReadVersion(k) =>
      if k in s.reloads || Version(s.rules) == s.cachedVersion then s
      else s.(reloads := s.reloads[k := HasVersion(Version(s.rules))])
    case ReadRules(k) =>
      if k in s.reloads && s.reloads[k].HasVersion?
      then s.(reloads := s.reloads[k := HasRules(s.reloads[k].version, s.rules)]) else s
    case Swap(k) =>
      if k in s.reloads && s.reloads[k].HasRules?
      then System(s.rules, CacheOf(s.reloads[k].rules, |s.reloads[k].rules|), s.reloads[k].version, s.reloads - {k})
      else s
    case Fail(k) => s.(reloads := s.reloads - {k})
  }

  /** A version and the rules read after it: no version is ahead of the table, and if it is the version of the
      table, the rules are those of the table. */
  predicate ReloadFits(rules: Table, r: Reload) {
    r.version <= Version(rules) && (r.HasRules? && r.version == Version(rules) ==> r.rules == rules)
  }

  predicate Fits(s: System) {
    && UniqueNames(s.rules)
    && s.cachedVersion <= Version(s.rules)
    && (s.cachedVersion == Version(s.rules) ==> Fresh(s.cache, s.rules))
    && forall k {:trigger s.reloads[k]} :: k in s.reloads ==> ReloadFits(s.rules, s.reloads[k])
  }

  lemma AdvanceKeeps(s: System, step: Step)
    requires Fits(s)
    ensures Fits(Advance(s, step))
  {
    if step.UpsertRule? {
      UpsertMovesVersion(s.rules, step.name, step.json);
      UpsertKeepsUniqueNames(s.rules, step.name, step.json);
      var next := Advance(s, step);
      forall k {:trigger next.reloads[k]} | k in next.reloads ensures ReloadFits(next.rules, next.reloads[k]) {
        assert ReloadFits(s.rules, s.reloads[k]);
      }
    } else if step.reload in s.reloads {
      assert ReloadFits(s.rules, s.reloads[step.reload]);
    }
  }

  /** Over every interleaving of rule updates with the separate reads of any number of reloads: whenever the
      cached version is the version of the table, the cache is the table. */
  lemma CurrentVersionMeansFreshCache(steps: seq<Step>)
    ensures var s := After(Advance, START, steps, |steps|);
            UniqueNames(s.rules) && (s.cachedVersion == Version(s.rules) ==> Fresh(s.cache, s.rules))
  {
    forall s: System, step: Step | Fits(s) ensures Fits(Advance(s, step)) {
      AdvanceKeeps(s, step);
    }
    Induction(Advance, START, steps, |steps|, Fits);
  }

  /** A reload that no update interrupts leaves the cache fresh. */
  lemma UninterruptedReloadIsFresh(s: System, k: int)
    requires Fits(s) && k !in s.reloads
    ensures var next := Advance(Advance(Advance(s, ReadVersion(k)), ReadRules(k)), Swap(k));
            next.rules == s.rules && next.cachedVersion == Version(s.rules) && Fresh(next.cache, s.rules)
  {
  }

  // ----- The engine -----

  class Store {
    var rules: Table

    method UpsertPricingRule(name: string, json: string)
      modifies this
      ensures rules == Upsert(old(rules), name, json)
    {
      var i := 0;
      while i < |rules| && rules[i].name != name
        invariant 0 <= i <= |rules| && Find(rules, name, 0) == Find(rules, name, i)
      {
        i := i + 1;
      }
      if i < |rules| {
        rules := rules[i := Rule(name, json, rules[i].version + 1)];
      } else {
        rules := rules + [Rule(name, json, 1)];
      }
    }

    method PricingRulesVersion() returns (version: int)
      ensures version == Version(rules)
    {
      version := 0;
      for i := 0 to |rules|
        invariant version == VersionSum(rules, i)
      {
        version := version + rules[i].version;
      }
    }
  }

  class Engine {
    const store: Store
    var cache: Cache
    var cachedVersion: int

    constructor (store: Store)
      ensures this.store == store && cache == map[] && cachedVersion == 0
    {
      this.store := store;
      cache, cachedVersion := map[], 0;
    }

    /** Reload if the version moved: afterwards the cached version is current, and the cache is the table if it
        was reloaded, and as before otherwise. */
    method ReloadIfChanged() returns (reloaded: bool)
      modifies this
      ensures cachedVersion == Version(store.rules) && reloaded == (old(cachedVersion) != Version(store.rules))
      ensures if reloaded then Fresh(cache, store.rules) else cache == old(cache)
    {
      var version := store.PricingRulesVersion();
      if version == cachedVersion {
        return false;
      }
      var rules := store.rules;
      var newCache := map[];
      for i := 0 to |rules|
        invariant newCache == CacheOf(rules, i)
      {
        newCache := newCache[rules[i].name := rules[i].json];
      }
      cache := newCache;
      cachedVersion := version;
      return true;
    }
  }
}
