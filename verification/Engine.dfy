/**
 * Adding rules to an engine (rules/engine.go): a rule is expanded, every expanded rule is indexed
 * and given the lock pattern, and the crawler then finds the work of the rule as it was written.
 */
module Engine {
  import opened Base
  import opened Paths
  import opened Matching
  import opened Prefixes
  import opened DynamicRules
  import opened Expansion
  import opened ExpansionMeaning
  import opened RuleManager
  import opened KeyProcessing
  import S = StaticRules
  import Q = QuadState

  /** What the index, the watched prefixes and the instances rely on. */
  ghost predicate Fit(r: Rule) { Sound(r) && SlashFaithful(r) && PrefixFaithful(r) }

  ghost predicate FitPattern(p: string) { Slashes(p) == |Segments(p)| && Prefix(p) <= Format(p, map[]) }

  lemma FitPatterns(r: Rule)
    ensures SlashFaithful(r) && PrefixFaithful(r) <==> forall p :: p in PatternSet(r) ==> FitPattern(p)
  {
    hide Slashes, Segments, Prefix, Format, PatternSet;
    if forall p :: p in PatternSet(r) ==> FitPattern(p) {
      forall p | p in PatternSet(r) ensures Slashes(p) == |Segments(p)| && Prefix(p) <= Format(p, map[]) {
        assert FitPattern(p);
      }
    }
  }

  /** A formatted pattern is in normal form. */
  lemma FormattedPatternFits(p: string, values: Attrs)
    requires PlainAttrs(values)
    ensures FitPattern(Format(p, values))
  {
    var q := Format(p, values);
    FormatNames(p, values);
    SegmentsParsed(p);
    FormattedSlashes(Segments(p), values);
    RenderSpecialized(Segments(p), values, map[]);
    assert map[] + values == values;
    assert Format(q, map[]) == q;
  }

  lemma {:induction false} SubstPatternsFit(r: Rule, values: Attrs, p: string)
    requires PlainAttrs(values) && p in PatternSet(Subst(r, values)) && forall q :: q in PatternSet(r) ==> FitPattern(q)
    ensures FitPattern(p)
    decreases r
  {
    hide FitPattern, Params;
    match r {
      case And(_) | Or(_) =>
        var q := Subst(r, values);
        var i :| 0 <= i < |q.rules| && p in PatternSet(q.rules[i]);
        NestedParams(r, i);
        SubstPatternsFit(r.rules[i], values, p);
      case Not(rule) => SubstPatternsFit(rule, values, p);
      case _ =>
        if !(Params(r) !! values.Keys) {
          var i :| 0 <= i < |LeafPatterns(r)| && p == Format(LeafPatterns(r)[i], values);
          FormattedPatternFits(LeafPatterns(r)[i], values);
        }
    }
  }

  /** Expansion yields rules that the index and the crawler can handle. */
  lemma SubstFits(r: Rule, values: Attrs)
    requires Fit(r) && PlainAttrs(values)
    ensures Fit(Subst(r, values))
  {
    hide Sound, SlashFaithful, PrefixFaithful;
    FitPatterns(r);
    FitPatterns(Subst(r, values));
    SubstSound(r, values);
    forall p | p in PatternSet(Subst(r, values)) ensures FitPattern(p) { SubstPatternsFit(r, values, p); }
  }

  ghost predicate FreshIds(refs: seq<Ref>, next: nat) {
    && (forall i :: 0 <= i < |refs| ==> refs[i].id < next)
    && forall i, j :: 0 <= i < j < |refs| ==> refs[i].id != refs[j].id
  }

  ghost function RulesOf(refs: seq<Ref>): seq<Rule> { seq(|refs|, i requires 0 <= i < |refs| => refs[i].rule) }

  class Engine {
    const keyExpansion: ValueMap
    const rm: Manager
    const keyProc: KeyProcessor
    var nextId: nat

    ghost predicate Valid()
      reads this, rm, keyProc
    {
      && rm.Valid() && keyProc.rm == rm && GoodValues(keyExpansion)
      && FreshIds(rm.rules, nextId)
      && (forall i: nat :: i in keyProc.lockKeyPatterns <==> i < |rm.rules|)
    }

    constructor (constraints: map<string, Constraint>, enhanced: bool, keyExpansion: ValueMap)
      requires GoodValues(keyExpansion) && forall name :: name in constraints ==> constraints[name].chars != []
      ensures Valid() && rm.rules == [] && fresh(rm) && fresh(keyProc) && this.keyExpansion == keyExpansion
    {
      this.keyExpansion := keyExpansion;
      var manager := new Manager(constraints, enhanced);
      rm := manager;
      keyProc := new KeyProcessor(manager);
      nextId := 0;
    }

    /** `addRuleWithIface`: one indexed rule per choice of expansion values, all under one lock pattern. */
    method AddRule(rule: Rule, lockPattern: string) returns (ghost choices: seq<Choice>)
      requires Valid()
      modifies this`nextId, rm, keyProc`lockKeyPatterns
      ensures Valid() && |rm.rules| >= |old(rm.rules)| && rm.rules[..|old(rm.rules)|] == old(rm.rules)
      ensures ExpandedBy(rule, keyExpansion, RulesOf(rm.rules[|old(rm.rules)|..]), choices)
      ensures var patterns := keyProc.lockKeyPatterns;
        AddedAs(rule, keyExpansion, choices, rm.rules, |old(rm.rules)|, |rm.rules|, patterns, lockPattern)
      ensures Fit(rule) ==> forall i :: |old(rm.rules)| <= i < |rm.rules| ==> Fit(rm.rules[i].rule)
      ensures forall i: nat :: i in keyProc.lockKeyPatterns ==>
        if i < |old(rm.rules)|
        then i in old(keyProc.lockKeyPatterns) && keyProc.lockKeyPatterns[i] == old(keyProc.lockKeyPatterns)[i]
        else keyProc.lockKeyPatterns[i] == lockPattern
    {
      hide Fit, ExpandedBy, Bucket, AllPrefixes, Minimal, RulesOf, Params;
      var out;
      out, choices := ExpandRule(rule);
      ghost var n := |rm.rules|;
      RulesOfStep(rm.rules, n, Ref(nextId, rule));
      for j := 0 to |out|
        invariant Valid() && |rm.rules| == n + j
        invariant rm.rules[..n] == old(rm.rules)
        invariant RulesOf(rm.rules[n..]) == out[..j]
        invariant forall i: nat :: i in keyProc.lockKeyPatterns ==>
          if i < n
          then i in old(keyProc.lockKeyPatterns) && keyProc.lockKeyPatterns[i] == old(keyProc.lockKeyPatterns)[i]
          else keyProc.lockKeyPatterns[i] == lockPattern
      {
        RulesOfStep(rm.rules, n, Ref(nextId, out[j]));
        AddOne(out[j], lockPattern);
        assert out[..j + 1] == out[..j] + [out[j]];
      }
      assert out[..|out|] == out;
      assert rm.rules[n..|rm.rules|] == rm.rules[n..];
      forall i | n <= i < |rm.rules| ensures rm.rules[i].rule in out { RulesOfAt(rm.rules, n, i - n); }
    }

    method ExpandRule(rule: Rule) returns (out: seq<Rule>, ghost choices: seq<Choice>)
      requires GoodValues(keyExpansion)
      ensures ExpandedBy(rule, keyExpansion, out, choices)
      ensures Fit(rule) ==> forall i :: 0 <= i < |out| ==> Fit(out[i])
    {
      hide Fit, ExpandedBy, Params;
      if |keyExpansion| > 0 {
        var expanded;
        out, expanded, choices := Expand(rule, keyExpansion);
      } else {
        ExpandNothing(rule, keyExpansion);
        out, choices := [rule], [map[]];
      }
      if Fit(rule) { ExpandedFit(rule, keyExpansion, out, choices); }
    }

    method AddOne(rule: Rule, lockPattern: string)
      requires Valid()
      modifies this`nextId, rm, keyProc`lockKeyPatterns
      ensures Valid() && rm.rules == old(rm.rules) + [Ref(old(nextId), rule)]
      ensures keyProc.lockKeyPatterns == old(keyProc.lockKeyPatterns)[|old(rm.rules)| := lockPattern]
    {
      hide Fit, Bucket, AllPrefixes, Minimal;
      var ruleIndex := rm.AddRule(Ref(nextId, rule));
      keyProc.SetLockKeyPattern(ruleIndex, lockPattern);
      nextId := nextId + 1;
    }

    /**
     * One run of the crawler (`singleRun`): the watched prefixes are read one after the other, and
     * the keys of the snapshot that have work are processed. A failed read abandons the run.
     */
    method Crawl(prefixes: seq<string>, responses: seq<Result<S.Store>>, stopping: seq<bool>,
                 txn: string -> Result<S.Store>)
      returns (submitted: set<string>, stopped: bool, values: Result<S.Store>)
      requires Valid() && |responses| == |prefixes| && Listed(prefixes, rm.prefixes)
      requires forall i, j :: 0 <= i < j < |prefixes| ==> prefixes[i] != prefixes[j]
      modifies keyProc`channel
      ensures values.Ok? <==> forall i :: 0 <= i < |responses| ==> responses[i].Ok?
      ensures values.Err? ==> submitted == {} && keyProc.channel == old(keyProc.channel)
      ensures values.Ok? ==> Snapshot(prefixes, responses, values.value)
      ensures values.Ok? && !stopped ==> submitted == KeysWithWork(rm.rules, rm.enhanced, values.value)
      ensures values.Ok? ==> forall item :: item in keyProc.channel <==>
        (item in old(keyProc.channel)
         || NewItem(rm.rules, rm.enhanced, keyProc.lockKeyPatterns, submitted, values.value, txn, item))
      ensures stopped ==> true in stopping
    {
      hide KeysWithWork, NewItem, Snapshot, Bucket, AllPrefixes, Supplied;
      submitted, stopped := {}, false;
      values := TakeSnapshot(prefixes, responses);
      if values.Err? { return; }
      ReducedNoneUnderAnother(prefixes, AllPrefixes(rm.rules, rm.constraints));
      submitted, stopped := ProcessData(keyProc, values.value, stopping, txn);
    }
  }

  lemma ReducedNoneUnderAnother(prefixes: seq<string>, all: set<string>)
    requires Listed(prefixes, Minimal(all)) && forall i, j :: 0 <= i < j < |prefixes| ==> prefixes[i] != prefixes[j]
    ensures NoneUnderAnother(prefixes)
  {
    hide Minimal;
    MinimalReduces(all);
    forall i, j | 0 <= i < |prefixes| && 0 <= j < |prefixes| && Under(prefixes[i], prefixes[j]) ensures i == j {
      assert prefixes[i] in prefixes && prefixes[j] in prefixes;
    }
  }

  lemma RulesOfStep(refs: seq<Ref>, n: nat, ref: Ref)
    requires n <= |refs|
    ensures RulesOf((refs + [ref])[n..]) == RulesOf(refs[n..]) + [ref.rule]
    ensures RulesOf(refs[|refs|..]) == []
  {
    assert (refs + [ref])[n..] == refs[n..] + [ref];
  }

  lemma ExpandedFit(rule: Rule, values: ValueMap, out: seq<Rule>, choices: seq<Choice>)
    requires Fit(rule) && GoodValues(values) && ExpandedBy(rule, values, out, choices)
    ensures forall i :: 0 <= i < |out| ==> Fit(out[i])
  {
    hide Fit;
    forall i | 0 <= i < |out| ensures Fit(out[i]) { SubstFits(rule, Pick(values, choices[i])); }
  }

  lemma {:induction false} EntriesHoldAll(added: seq<Ref>, i: nat, next: nat)
    requires i < |added| && FreshIds(added, next)
    ensures added[i].id in Entries(added) && Entries(added)[added[i].id] == Entry(added[i].rule, i)
    decreases |added|
  {
    var n := |added| - 1;
    if i < n {
      assert FreshIds(added[..n], next);
      EntriesHoldAll(added[..n], i, next);
    }
  }

  /** The crawler's rules, and a snapshot of the store s at one moment. */
  ghost predicate Crawling(added: seq<Ref>, next: nat, prefixes: seq<string>, responses: seq<Result<S.Store>>,
                           snapshot: S.Store, s: S.Store) {
    && FreshIds(added, next) && (forall i :: 0 <= i < |added| ==> Fit(added[i].rule))
    && Listed(prefixes, Minimal(AllPrefixes(added, map[]))) && Snapshot(prefixes, responses, snapshot)
    && forall i :: 0 <= i < |responses| ==> responses[i] == Ok(s)
  }

  /** A snapshot holds nothing that the store does not, and everything that an instance reads. */
  lemma SnapshotOfStore(added: seq<Ref>, next: nat, prefixes: seq<string>, responses: seq<Result<S.Store>>,
                        snapshot: S.Store, s: S.Store)
    requires Crawling(added, next, prefixes, responses, snapshot, s)
    ensures forall k :: k in snapshot ==> k in s && snapshot[k] == s[k]
  {
    hide Fit, FreshIds, Listed, Minimal, AllPrefixes;
    forall k | k in snapshot ensures k in s && snapshot[k] == s[k] {
      var i :| 0 <= i < |prefixes| && Under(prefixes[i], k);
      assert S.Get(snapshot, k) == S.Get(responses[i].value, k);
    }
  }

  lemma WatchedInSnapshot(added: seq<Ref>, next: nat, prefixes: seq<string>, responses: seq<Result<S.Store>>,
                          snapshot: S.Store, s: S.Store, i: nat, attrs: Attrs, key: string)
    requires Crawling(added, next, prefixes, responses, snapshot, s) && i < |added|
    requires S.Reads(Instantiate(added[i].rule, attrs), key)
    ensures S.Get(snapshot, key) == S.Get(s, key)
  {
    hide Fit, FreshIds, Minimal, AllPrefixes, Instantiate, PrefixFaithful;
    FitAll(added);
    InstanceKeysWatched(added, i, attrs, key);
    var p :| p in Minimal(AllPrefixes(added, map[])) && p <= key;
    assert p in prefixes && Under(p, key);
  }

  /** The instance that added rule i has for the key. */
  ghost predicate Has(added: seq<Ref>, i: nat, key: string, inst: Instance) {
    i < |added| && Triggers(added[i].rule, key) && MakeStatic(added[i].rule, key) == Some(inst)
  }

  /** The crawl meets the instance of rule i at the key and finds it true on the snapshot. */
  ghost predicate SeenAt(added: seq<Ref>, i: nat, inst: Instance, enhanced: bool, snapshot: S.Store, key: string) {
    && i < |added| && key in snapshot && S.Holds(inst.rule, snapshot)
    && var hits := Scan(Bucket(added, Slashes(key)), key, Some(snapshot[key]), enhanced);
       added[i].id in hits && hits[added[i].id] == Hit(inst, i)
  }

  /** Scope under either filter is the same as being triggered, for instances true in the store. */
  lemma ScopeIsTrigger(r: Rule, key: string, inst: Instance, s: S.Store, enhanced: bool)
    requires MakeStatic(r, key) == Some(inst) && key in s && S.Holds(inst.rule, s)
    requires enhanced ==> Q.Conjunctive(inst.rule)
    ensures InScope(r, key, Some(s[key]), enhanced) <==> Triggers(r, key)
  {
    hide MakeStatic;
    if enhanced { Q.EnhancedFilterLossless(inst.rule, key, s); }
  }

  lemma InstanceOnSnapshot(added: seq<Ref>, next: nat, prefixes: seq<string>, responses: seq<Result<S.Store>>,
                           snapshot: S.Store, s: S.Store, i: nat, key: string, inst: Instance)
    requires Crawling(added, next, prefixes, responses, snapshot, s) && Has(added, i, key, inst)
    ensures S.Holds(inst.rule, snapshot) == S.Holds(inst.rule, s) && S.Get(snapshot, key) == S.Get(s, key)
  {
    hide MakeStatic, Sound, SlashFaithful, PrefixFaithful, Instantiate, FreshIds, S.Holds, S.Reads;
    var r := added[i].rule;
    FitAll(added);
    InstanceIsInstantiation(r, key);
    S.SatisfiableIsKeyMatch(inst.rule, key);
    TriggerIsRead(r, key);
    WatchedInSnapshot(added, next, prefixes, responses, snapshot, s, i, inst.attrs, key);
    forall k | S.Reads(inst.rule, k) ensures S.Get(snapshot, k) == S.Get(s, k) {
      WatchedInSnapshot(added, next, prefixes, responses, snapshot, s, i, inst.attrs, k);
    }
    S.HoldsDependsOnReads(inst.rule, snapshot, s);
  }

  /** An instance that is true in the store is met at a key exactly if the key exists and triggers it. */
  lemma SeenExactly(added: seq<Ref>, next: nat, prefixes: seq<string>, responses: seq<Result<S.Store>>,
                    snapshot: S.Store, s: S.Store, i: nat, inst: Instance, enhanced: bool, key: string)
    requires Crawling(added, next, prefixes, responses, snapshot, s) && i < |added| && S.Holds(inst.rule, s)
    requires enhanced ==> Q.Conjunctive(inst.rule)
    ensures SeenAt(added, i, inst, enhanced, snapshot, key) <==> key in s && Has(added, i, key, inst)
  {
    hide MakeStatic, Sound, SlashFaithful, PrefixFaithful, S.Holds, Entries, Bucket, Triggers, InScope;
    hide Snapshot, Listed, Minimal, AllPrefixes;
    SnapshotOfStore(added, next, prefixes, responses, snapshot, s);
    FitAll(added);
    EntriesHoldAll(added, i, next);
    if key in s {
      AddedTransparent(added, key, Some(s[key]), enhanced);
      if added[i].id in Scan(Entries(added), key, Some(s[key]), enhanced) {
        ScanBuilds(Entries(added), key, Some(s[key]), enhanced, added[i].id);
      }
      if MakeStatic(added[i].rule, key) == Some(inst) { ScopeIsTrigger(added[i].rule, key, inst, s, enhanced); }
      if Has(added, i, key, inst) { InstanceOnSnapshot(added, next, prefixes, responses, snapshot, s, i, key, inst); }
    }
  }

  /**
   * Exactly what a crawl can see: it meets an instance that is true in the store if and only if some
   * existing key triggers the instance. A rule that is true because keys are absent is seen through
   * another of its keys, or not at all.
   */
  lemma VisibleExactly(added: seq<Ref>, next: nat, prefixes: seq<string>, responses: seq<Result<S.Store>>,
                       snapshot: S.Store, s: S.Store, i: nat, inst: Instance, enhanced: bool)
    requires Crawling(added, next, prefixes, responses, snapshot, s) && i < |added| && S.Holds(inst.rule, s)
    requires enhanced ==> Q.Conjunctive(inst.rule)
    ensures (exists key :: SeenAt(added, i, inst, enhanced, snapshot, key)) <==>
      exists key :: key in s && Has(added, i, key, inst)
  {
    hide Crawling, SeenAt, Has;
    forall key ensures SeenAt(added, i, inst, enhanced, snapshot, key) <==> key in s && Has(added, i, key, inst) {
      SeenExactly(added, next, prefixes, responses, snapshot, s, i, inst, enhanced, key);
    }
  }

  /** In particular, an instance none of whose keys exists is not seen, however true it is. */
  lemma AbsentKeysUnseen(added: seq<Ref>, next: nat, prefixes: seq<string>, responses: seq<Result<S.Store>>,
                         snapshot: S.Store, s: S.Store, i: nat, inst: Instance, enhanced: bool, key: string)
    requires Crawling(added, next, prefixes, responses, snapshot, s) && i < |added| && S.Holds(inst.rule, s)
    requires enhanced ==> Q.Conjunctive(inst.rule)
    requires forall k :: S.Reads(inst.rule, k) ==> k !in s
    ensures !SeenAt(added, i, inst, enhanced, snapshot, key)
  {
    hide SeenAt, MakeStatic, S.Holds, Sound, SlashFaithful, PrefixFaithful;
    SeenExactly(added, next, prefixes, responses, snapshot, s, i, inst, enhanced, key);
    FitAll(added);
    S.SatisfiableIsKeyMatch(inst.rule, key);
    if Has(added, i, key, inst) { TriggerIsRead(added[i].rule, key); }
  }

  /** What a crawl meets is work, and the item dispatched for it on the store s is the instance's. */
  lemma SeenIsWork(added: seq<Ref>, i: nat, inst: Instance, enhanced: bool, snapshot: S.Store, s: S.Store, key: string,
                   patterns: map<nat, string>, lockPattern: string)
    requires SeenAt(added, i, inst, enhanced, snapshot, key) && S.Holds(inst.rule, s) && i in patterns
    requires patterns[i] == lockPattern
    ensures key in KeysWithWork(added, enhanced, snapshot)
    ensures Dispatches(added, enhanced, patterns, key, Some(snapshot[key]), s, ItemOf(i, inst, lockPattern))
  {
    hide Scan, Bucket, S.Holds, Format;
    var hits := Scan(Bucket(added, Slashes(key)), key, Some(snapshot[key]), enhanced);
    assert added[i].id in Due(hits, patterns, s);
  }

  /** The work item of an instance of the rule with this index. */
  function ItemOf(index: nat, inst: Instance, lockPattern: string): WorkItem {
    WorkItem(index, inst.rule, inst.attrs, Format(lockPattern, inst.attrs))
  }

  /** An item dispatched for a rule is for an instance that the key triggers. */
  lemma DispatchIsTriggered(added: seq<Ref>, next: nat, patterns: map<nat, string>, key: string, s: S.Store, i: nat,
                            inst: Instance, enhanced: bool, lockPattern: string)
    requires FreshIds(added, next) && i < |added| && key in s && S.Holds(inst.rule, s)
    requires enhanced ==> Q.Conjunctive(inst.rule)
    requires Dispatches(added, enhanced, patterns, key, Some(s[key]), s, ItemOf(i, inst, lockPattern))
    ensures Has(added, i, key, inst)
  {
    hide MakeStatic, S.Holds, Entries, Format, InScope, Triggers;
    var hits := Scan(Bucket(added, Slashes(key)), key, Some(s[key]), enhanced);
    var id :| id in Due(hits, patterns, s) && ItemOf(i, inst, lockPattern) == ItemFor(hits[id], patterns);
    EntryIsAdded(added, id);
    ScanBuilds(Bucket(added, Slashes(key)), key, Some(s[key]), enhanced, id);
    ScopeIsTrigger(added[i].rule, key, inst, s, enhanced);
  }

  /** Rules from..to of the engine are the expansion of r, all under one lock pattern. */
  ghost predicate AddedAs(r: Rule, values: ValueMap, choices: seq<Choice>, added: seq<Ref>, from: nat, to: nat,
                          patterns: map<nat, string>, lockPattern: string) {
    && from <= to <= |added| && ExpandedBy(r, values, RulesOf(added[from..to]), choices)
    && forall i :: from <= i < to ==> i in patterns && patterns[i] == lockPattern
  }

  /** What was added stays added when other rules follow. */
  lemma AddedAsStays(r: Rule, values: ValueMap, choices: seq<Choice>, added: seq<Ref>, from: nat, to: nat,
                     patterns: map<nat, string>, lockPattern: string, later: seq<Ref>, morePatterns: map<nat, string>)
    requires AddedAs(r, values, choices, added, from, to, patterns, lockPattern)
    requires |added| <= |later| && later[..|added|] == added
    requires forall i :: 0 <= i < |added| && i in patterns ==> i in morePatterns && morePatterns[i] == patterns[i]
    ensures AddedAs(r, values, choices, later, from, to, morePatterns, lockPattern)
  {
    hide ExpandedBy, RulesOf;
    forall k | 0 <= k < to - from ensures later[from..to][k] == added[from..to][k] {
      assert later[..|added|][from + k] == later[from + k];
    }
    assert later[from..to] == added[from..to];
  }

  /** Processing the existing key dispatches the instance for one of the rules from..to. */
  ghost predicate SliceDispatches(added: seq<Ref>, from: nat, to: nat, enhanced: bool, patterns: map<nat, string>,
                                  key: string, s: S.Store, inst: Instance, lockPattern: string)
    requires key in s
  {
    exists i :: from <= i < to &&
      Dispatches(added, enhanced, patterns, key, Some(s[key]), s, ItemOf(i, inst, lockPattern))
  }

  /**
   * From a rule to the crawler. Let a slice of an engine's rules be the expansion of r, and let an
   * existing key trigger r, with attributes among the expansion values, in a store where that instance
   * is satisfied. Processing the key dispatches the instance, with its lock key, for some rule of the
   * slice if and only if the search over the original rule ends with the instance's attributes; then
   * the key is in the crawler's snapshot, with the stored value, and is one that the crawler finds.
   * This holds for the plain filter, and for the enhanced one on conjunctive rules.
   */
  lemma CrawlerExact(r: Rule, values: ValueMap, choices: seq<Choice>, added: seq<Ref>, from: nat, to: nat, next: nat,
                     prefixes: seq<string>, responses: seq<Result<S.Store>>, snapshot: S.Store, s: S.Store, key: string,
                     enhanced: bool, patterns: map<nat, string>, lockPattern: string)
    requires Unexpanded(r) && GoodValues(values) && (enhanced ==> ConjunctiveRule(r))
    requires AddedAs(r, values, choices, added, from, to, patterns, lockPattern)
    requires Crawling(added, next, prefixes, responses, snapshot, s)
    requires key in s && Triggers(r, key) && S.Holds(MakeStatic(r, key).value.rule, s)
    requires Within(r, values, MakeStatic(r, key).value.attrs)
    ensures var inst := MakeStatic(r, key).value;
      var kept := FirstUnder(r, Chosen(r, values, inst.attrs), key) == Some(inst.attrs);
      && (kept ==> key in snapshot && snapshot[key] == s[key] && key in KeysWithWork(added, enhanced, snapshot))
      && (kept <==> SliceDispatches(added, from, to, enhanced, patterns, key, s, inst, lockPattern))
  {
    var inst := MakeStatic(r, key).value;
    var kept := FirstUnder(r, Chosen(r, values, inst.attrs), key) == Some(inst.attrs);
    assert FreshIds(added, next) && from <= to <= |added|;
    hide *;
    KeptInSlice(r, values, choices, added, from, to, key, patterns, lockPattern);
    if enhanced { OriginalConjunctive(r, key); }
    if kept {
      var i :| from <= i < to && Has(added, i, key, inst);
      CrawledAt(added, next, prefixes, responses, snapshot, s, i, inst, enhanced, key, patterns, lockPattern);
      SliceDispatched(added, from, to, enhanced, patterns, key, s, inst, lockPattern, i);
    }
    if SliceDispatches(added, from, to, enhanced, patterns, key, s, inst, lockPattern) {
      var i := SliceDispatcher(added, from, to, enhanced, patterns, key, s, inst, lockPattern);
      DispatchIsTriggered(added, next, patterns, key, s, i, inst, enhanced, lockPattern);
    }
  }

  lemma SliceDispatcher(added: seq<Ref>, from: nat, to: nat, enhanced: bool, patterns: map<nat, string>, key: string,
                        s: S.Store, inst: Instance, lockPattern: string) returns (i: nat)
    requires key in s && SliceDispatches(added, from, to, enhanced, patterns, key, s, inst, lockPattern)
    ensures from <= i < to && Dispatches(added, enhanced, patterns, key, Some(s[key]), s, ItemOf(i, inst, lockPattern))
  {
    i :| from <= i < to && Dispatches(added, enhanced, patterns, key, Some(s[key]), s, ItemOf(i, inst, lockPattern));
  }

  lemma SliceDispatched(added: seq<Ref>, from: nat, to: nat, enhanced: bool, patterns: map<nat, string>, key: string,
                        s: S.Store, inst: Instance, lockPattern: string, i: nat)
    requires key in s && from <= i < to
    requires Dispatches(added, enhanced, patterns, key, Some(s[key]), s, ItemOf(i, inst, lockPattern))
    ensures SliceDispatches(added, from, to, enhanced, patterns, key, s, inst, lockPattern)
  {
  }

  /** Some rule of the slice has the instance that the original has, exactly under the condition. */
  lemma KeptInSlice(r: Rule, values: ValueMap, choices: seq<Choice>, added: seq<Ref>, from: nat, to: nat, key: string,
                    patterns: map<nat, string>, lockPattern: string)
    requires Unexpanded(r) && GoodValues(values) && AddedAs(r, values, choices, added, from, to, patterns, lockPattern)
    requires Triggers(r, key) && Within(r, values, MakeStatic(r, key).value.attrs)
    ensures MakeStatic(r, key).Some?
    ensures var inst := MakeStatic(r, key).value;
      (FirstUnder(r, Chosen(r, values, inst.attrs), key) == Some(inst.attrs)) <==>
        exists i :: from <= i < to && Has(added, i, key, inst)
    ensures forall i :: from <= i < to ==> i in patterns && patterns[i] == lockPattern
  {
    hide ExpandedBy, MakeStatic, FirstUnder, Chosen, Unexpanded, Params, Within, RulesOf;
    var out, inst := RulesOf(added[from..to]), MakeStatic(r, key).value;
    ExpandExact(r, values, out, choices, key);
    SliceRules(added, from, to);
    if j :| 0 <= j < |out| && MakeStatic(out[j], key) == MakeStatic(r, key) {
      SharedTrigger(added, from + j, r, key);
    }
    if i :| from <= i < to && Has(added, i, key, inst) {
      assert MakeStatic(out[i - from], key) == MakeStatic(r, key);
    }
  }

  lemma SliceRules(added: seq<Ref>, from: nat, to: nat)
    requires from <= to <= |added|
    ensures |RulesOf(added[from..to])| == to - from
    ensures forall j :: 0 <= j < to - from ==> RulesOf(added[from..to])[j] == added[from + j].rule
  {
  }

  lemma CrawledAt(added: seq<Ref>, next: nat, prefixes: seq<string>, responses: seq<Result<S.Store>>, snapshot: S.Store,
                  s: S.Store, i: nat, inst: Instance, enhanced: bool, key: string, patterns: map<nat, string>,
                  lockPattern: string)
    requires Crawling(added, next, prefixes, responses, snapshot, s) && S.Holds(inst.rule, s)
    requires (enhanced ==> Q.Conjunctive(inst.rule)) && key in s && Has(added, i, key, inst)
    requires i in patterns && patterns[i] == lockPattern
    ensures key in snapshot && snapshot[key] == s[key] && key in KeysWithWork(added, enhanced, snapshot)
    ensures Dispatches(added, enhanced, patterns, key, Some(s[key]), s, ItemOf(i, inst, lockPattern))
  {
    assert i < |added|;
    hide *;
    SeenExactly(added, next, prefixes, responses, snapshot, s, i, inst, enhanced, key);
    SeenInSnapshot(added, i, inst, enhanced, snapshot, key);
    SnapshotOfStore(added, next, prefixes, responses, snapshot, s);
    SeenIsWork(added, i, inst, enhanced, snapshot, s, key, patterns, lockPattern);
  }

  /** So the crawler finds the work of every rule of the shape that expansion respects. */
  lemma CrawlerFindsOriginalWork(r: Rule, values: ValueMap, choices: seq<Choice>, added: seq<Ref>, from: nat, to: nat,
                                 next: nat, prefixes: seq<string>, responses: seq<Result<S.Store>>, snapshot: S.Store,
                                 s: S.Store, key: string, enhanced: bool, patterns: map<nat, string>,
                                 lockPattern: string)
    requires Unexpanded(r) && (Expandable(r) || Params(r) !! values.Keys)
    requires GoodValues(values) && (enhanced ==> ConjunctiveRule(r))
    requires AddedAs(r, values, choices, added, from, to, patterns, lockPattern)
    requires Crawling(added, next, prefixes, responses, snapshot, s)
    requires key in s && Triggers(r, key) && S.Holds(MakeStatic(r, key).value.rule, s)
    requires Within(r, values, MakeStatic(r, key).value.attrs)
    ensures key in snapshot && snapshot[key] == s[key] && key in KeysWithWork(added, enhanced, snapshot)
    ensures SliceDispatches(added, from, to, enhanced, patterns, key, s, MakeStatic(r, key).value, lockPattern)
  {
    var attrs := MakeStatic(r, key).value.attrs;
    hide *;
    if Expandable(r) {
      ChosenUnder(r, values, key);
    } else {
      NothingChosen(r, values, attrs);
      NothingUnder(r, key);
    }
    CrawlerExact(r, values, choices, added, from, to, next, prefixes, responses, snapshot, s, key, enhanced, patterns,
      lockPattern);
  }

  lemma SharedTrigger(added: seq<Ref>, i: nat, r: Rule, key: string)
    requires i < |added| && MakeStatic(added[i].rule, key) == MakeStatic(r, key) && Triggers(r, key)
    ensures MakeStatic(r, key).Some? && Has(added, i, key, MakeStatic(r, key).value)
  {
    hide MakeStatic;
  }

  lemma SeenInSnapshot(added: seq<Ref>, i: nat, inst: Instance, enhanced: bool, snapshot: S.Store, key: string)
    requires SeenAt(added, i, inst, enhanced, snapshot, key)
    ensures key in snapshot
  {
  }

  lemma OriginalConjunctive(r: Rule, key: string)
    requires Unexpanded(r) && ConjunctiveRule(r) && MakeStatic(r, key).Some?
    ensures Q.Conjunctive(MakeStatic(r, key).value.rule)
  {
    hide MakeStatic, Unexpanded, ConjunctiveRule;
    UnexpandedIsSound(r);
    InstanceIsInstantiation(r, key);
    ConjunctiveInstances(r, MakeStatic(r, key).value.attrs);
  }

  lemma RulesOfAt(added: seq<Ref>, from: nat, j: nat)
    requires from <= |added| && j < |RulesOf(added[from..])|
    ensures from + j < |added| && added[from + j].rule == RulesOf(added[from..])[j]
  {
  }

  lemma FitAll(added: seq<Ref>)
    requires forall i :: 0 <= i < |added| ==> Fit(added[i].rule)
    ensures forall i :: 0 <= i < |added| ==>
      Sound(added[i].rule) && SlashFaithful(added[i].rule) && PrefixFaithful(added[i].rule)
  {
    hide Sound, SlashFaithful, PrefixFaithful;
  }

  // ---------------------------------------------------------------------------
  // Watched writes

  /**
   * From a write to a work item: when a write turns an instance of an added rule from false to true
   * and the written key is in one leaf of the instance, processing the key with its new value
   * dispatches the instance, even under the enhanced filter; under the plain one it does for every
   * instance.
   */
  lemma RisingWriteIsDispatched(added: seq<Ref>, next: nat, patterns: map<nat, string>, key: string, v: S.Value,
                                s: S.Store, i: nat, inst: Instance, enhanced: bool)
    requires FreshIds(added, next) && (forall j :: 0 <= j < |added| ==> Fit(added[j].rule))
    requires Has(added, i, key, inst) && i in patterns && (enhanced ==> Q.InOneLeaf(inst.rule, key))
    requires !S.Holds(inst.rule, s) && S.Holds(inst.rule, S.Put(s, key, v))
    ensures Dispatches(added, enhanced, patterns, key, v, S.Put(s, key, v), ItemOf(i, inst, patterns[i]))
  {
    hide MakeStatic, S.Holds, Entries, Bucket, Sound, SlashFaithful, PrefixFaithful, Format, S.Put, Q.InOneLeaf;
    FitAll(added);
    AddedTransparent(added, key, v, enhanced);
    EntriesHoldAll(added, i, next);
    if enhanced { Q.TriggerCompleteness(inst.rule, key, v, s); }
    var hits := Scan(Bucket(added, Slashes(key)), key, v, enhanced);
    assert added[i].id in Due(hits, patterns, S.Put(s, key, v));
  }
}
