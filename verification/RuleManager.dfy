/**
 * The rule manager (rules/rule_manager.go): rules are indexed by the number of slashes in their
 * patterns, and the prefixes to watch are kept reduced. Both shortcuts are transparent.
 */
module RuleManager {
  import opened Base
  import opened Paths
  import opened Matching
  import opened Prefixes
  import opened DynamicRules
  import ExpansionMeaning
  import S = StaticRules
  import Q = QuadState

  /** A reference to a rule object; Go's maps are keyed by its identity. */
  datatype Ref = Ref(id: nat, rule: Rule)

  datatype Entry = Entry(rule: Rule, index: nat)

  /** An instance in scope for a key, with the index of its rule. */
  datatype Hit = Hit(inst: Instance, index: nat)

  // ---------------------------------------------------------------------------
  // The plain thing: every added rule, with the index it was last added under

  function Entries(added: seq<Ref>): map<nat, Entry> {
    if added == [] then map[]
    else var n := |added| - 1; Entries(added[..n])[added[n].id := Entry(added[n].rule, n)]
  }

  predicate InScope(r: Rule, key: string, v: S.Value, enhanced: bool) {
    && MakeStatic(r, key).Some?
    && var sr := MakeStatic(r, key).value.rule;
       if enhanced then Q.Passes(S.QSat(sr, key, v)) else S.Satisfiable(sr, key)
  }

  function Scan(entries: map<nat, Entry>, key: string, v: S.Value, enhanced: bool): map<nat, Hit> {
    map id | id in entries && InScope(entries[id].rule, key, v, enhanced)
      :: Hit(MakeStatic(entries[id].rule, key).value, entries[id].index)
  }

  // ---------------------------------------------------------------------------
  // The index

  predicate HasSlashCount(r: Rule, count: nat) {
    exists p :: p in PatternSet(r) && Slashes(p) == count
  }

  ghost function Bucket(added: seq<Ref>, count: nat): map<nat, Entry> {
    map id | id in Entries(added) && HasSlashCount(Entries(added)[id].rule, count) :: Entries(added)[id]
  }

  /** The raw pattern has one slash per segment: a leading slash and no empty segment. */
  predicate SlashFaithful(r: Rule) {
    forall p :: p in PatternSet(r) ==> Slashes(p) == |Segments(p)|
  }

  /**
   * Passing either filter forces the key to be one of the instance's own keys, and formatted
   * values hold no slash, so the rule is filed under the key's slash count.
   */
  lemma InScopeIsIndexed(r: Rule, key: string, v: S.Value, enhanced: bool)
    requires Sound(r) && SlashFaithful(r) && InScope(r, key, v, enhanced)
    ensures HasSlashCount(r, Slashes(key))
  {
    var p := ScopeSpelled(r, key, v, enhanced);
    assert Slashes(p) == Slashes(key);
  }

  /**
   * What the two filters let through, for an instance of the rule: the plain one exactly the keys that
   * the instance reads, the enhanced one exactly the values at which the instance, pruned to the key,
   * is true.
   */
  lemma ScopeExact(r: Rule, key: string, v: S.Value)
    requires Sound(r) && MakeStatic(r, key).Some?
    ensures var sr := MakeStatic(r, key).value.rule;
      && (InScope(r, key, v, false) <==> S.Reads(sr, key))
      && (Q.Direct(sr, key) ==> (InScope(r, key, v, true) <==> Q.PrunedTrue(Q.Granted(sr, key), key, v)))
  {
    hide MakeStatic, Sound, Q.Direct, Q.Granted, Q.PrunedTrue;
    var sr := MakeStatic(r, key).value.rule;
    S.SatisfiableIsKeyMatch(sr, key);
    Q.ReadImpliesMatch(sr, key);
    if S.KeyMatch(sr, key) { TriggerIsRead(r, key); }
    if Q.Direct(sr, key) { Q.PassesIsPrunedTruth(sr, key, v); }
  }

  /** The index answers like a scan over all rules, in both filter modes. */
  lemma IndexTransparent(added: seq<Ref>, key: string, v: S.Value, enhanced: bool)
    requires forall id :: id in Entries(added) ==>
      Sound(Entries(added)[id].rule) && SlashFaithful(Entries(added)[id].rule)
    ensures Scan(Bucket(added, Slashes(key)), key, v, enhanced) == Scan(Entries(added), key, v, enhanced)
  {
    hide Sound, SlashFaithful, InScope, MakeStatic, Slashes, Entries;
    var entries := Entries(added);
    forall id | id in entries && InScope(entries[id].rule, key, v, enhanced) ensures id in Bucket(added, Slashes(key)) {
      InScopeIsIndexed(entries[id].rule, key, v, enhanced);
    }
  }

  /** For a single literal leaf the slash condition is exactly what transparency needs. */
  lemma IndexExact(leaf: Rule)
    requires leaf.LiteralLeaf? && Sound(leaf)
    ensures (forall key, v :: InScope(leaf, key, v, false) ==> HasSlashCount(leaf, Slashes(key))) <==>
      SlashFaithful(leaf)
  {
    var segs := Segments(leaf.pattern);
    if SlashFaithful(leaf) {
      forall key, v | InScope(leaf, key, v, false) ensures HasSlashCount(leaf, Slashes(key)) {
        InScopeIsIndexed(leaf, key, v, false);
      }
    } else {
      var attrs := map n | n in Names(segs) :: "x";
      var key := Format(leaf.pattern, attrs);
      SegmentsParsed(leaf.pattern);
      assert PlainAttrs(attrs) && Names(segs) <= attrs.Keys;
      assert Spells(segs, key);
      WholeKey(segs, key);
      LeafTriggers(leaf, key);
      FormattedSlashes(segs, attrs);
      assert PatternSet(leaf) == {leaf.pattern};
      assert InScope(leaf, key, None, false) && !HasSlashCount(leaf, Slashes(key));
    }
  }

  /** A tree of literal leaves with the same parameters fires on every key that one of its patterns spells. */
  lemma {:induction false} TreeTriggers(r: Rule, p: string, key: string)
    requires PlainLiteralTree(r) && ExpansionMeaning.SameParams(r) && p in PatternSet(r)
    requires FormatsBack(Segments(p), key)
    ensures Triggers(r, key)
    decreases r
  {
    hide Triggers, FormatsBack, Segments, ExpansionMeaning.SameParams;
    match r {
      case And(_) | Or(_) =>
        var i :| 0 <= i < |r.rules| && p in PatternSet(r.rules[i]);
        ExpansionMeaning.NestedSame(r, i);
        TreeTriggers(r.rules[i], p, key);
        ExpansionMeaning.CompoundTriggers(r, key, i);
      case Not(rule) =>
        ExpansionMeaning.NestedSameNot(r);
        TreeTriggers(rule, p, key);
        ExpansionMeaning.NotTriggers(r, key);
      case LiteralLeaf(_, _, _, _) => LeafTriggers(r, key);
    }
  }

  /**
   * For compounds of literal leaves with the same parameters: the index misses no key if and only if
   * the number of segments of every pattern is the number of slashes of some raw pattern.
   */
  lemma IndexExactTree(r: Rule)
    requires PlainLiteralTree(r) && ExpansionMeaning.SameParams(r)
    ensures (forall key, v :: InScope(r, key, v, false) ==> HasSlashCount(r, Slashes(key)))
       <==> forall p :: p in PatternSet(r) ==> HasSlashCount(r, |Segments(p)|)
  {
    hide HasSlashCount, Segments, Slashes, PatternSet, PlainLiteralTree, ExpansionMeaning.SameParams, Triggers, InScope;
    PlainTreeUnexpanded(r);
    UnexpandedIsSound(r);
    forall key, v | InScope(r, key, v, false) ensures exists p :: p in PatternSet(r) && Slashes(key) == |Segments(p)| {
      var p := ScopeSpelled(r, key, v, false);
      assert Slashes(key) == |Segments(p)|;
    }
    forall p | p in PatternSet(r) ensures exists key :: InScope(r, key, None, false) && Slashes(key) == |Segments(p)| {
      var key := SpelledInScope(r, p);
      assert Slashes(key) == |Segments(p)|;
    }
  }

  /** A key in scope is spelled by one of the rule's patterns. */
  lemma ScopeSpelled(r: Rule, key: string, v: S.Value, enhanced: bool) returns (p: string)
    requires Sound(r) && InScope(r, key, v, enhanced)
    ensures p in PatternSet(r) && Slashes(key) == |Segments(p)|
  {
    var inst := MakeStatic(r, key).value;
    S.SatisfiableIsKeyMatch(inst.rule, key);
    Q.QNoneIsUnmatched(inst.rule, key, v);
    TriggerIsRead(r, key);
    InstanceIsInstantiation(r, key);
    ReadsAreFormats(r, inst.attrs, key);
    p :| p in PatternSet(r) && key == Format(p, inst.attrs);
    SegmentsParsed(p);
    FormattedSlashes(Segments(p), inst.attrs);
  }

  /** Every pattern of such a tree spells a key in scope. */
  lemma SpelledInScope(r: Rule, p: string) returns (key: string)
    requires PlainLiteralTree(r) && ExpansionMeaning.SameParams(r) && p in PatternSet(r)
    ensures InScope(r, key, None, false) && Slashes(key) == |Segments(p)|
  {
    hide PlainLiteralTree, ExpansionMeaning.SameParams, PatternSet, MakeStatic, FormatsBack, Names, Segments, Slashes;
    var segs := Segments(p);
    var attrs := map n | n in Names(segs) :: "x";
    key := Format(p, attrs);
    SegmentsParsed(p);
    assert Spells(segs, key);
    WholeKey(segs, key);
    FormattedSlashes(segs, attrs);
    TreeTriggers(r, p, key);
  }

  // ---------------------------------------------------------------------------
  // Watched prefixes

  ghost function RulePrefixes(r: Rule, constraints: map<string, Constraint>): set<string> {
    set p, x | p in PatternSet(r) && x in ConstrainedPrefixes(p, constraints) :: x
  }

  ghost function AllPrefixes(added: seq<Ref>, constraints: map<string, Constraint>): set<string> {
    if added == [] then {}
    else var n := |added| - 1; AllPrefixes(added[..n], constraints) + RulePrefixes(added[n].rule, constraints)
  }

  /** Each pattern's prefix survives normalisation, so it covers all the pattern's keys. */
  predicate PrefixFaithful(r: Rule) {
    forall p :: p in PatternSet(r) ==> Prefix(p) <= Format(p, map[])
  }

  lemma {:induction false} RulePrefixesIncluded(added: seq<Ref>, constraints: map<string, Constraint>, i: nat)
    requires i < |added|
    ensures RulePrefixes(added[i].rule, constraints) <= AllPrefixes(added, constraints)
    decreases |added|
  {
    var n := |added| - 1;
    if i < n { RulePrefixesIncluded(added[..n], constraints, i); }
  }

  /** Without constraints, every key that any instance of an added rule reads is watched. */
  lemma InstanceKeysWatched(added: seq<Ref>, i: nat, attrs: Attrs, key: string)
    requires i < |added| && PrefixFaithful(added[i].rule)
    requires S.Reads(Instantiate(added[i].rule, attrs), key)
    ensures Covers(Minimal(AllPrefixes(added, map[])), key)
  {
    var r := added[i].rule;
    ReadsAreFormats(r, attrs, key);
    var p :| p in PatternSet(r) && key == Format(p, attrs);
    PrefixExact(p);
    RulePrefixesIncluded(added, map[], i);
    assert Prefix(p) in ConstrainedPrefixes(p, map[]);
    assert Prefix(p) in RulePrefixes(r, map[]) && Prefix(p) <= key;
    MinimalReduces(AllPrefixes(added, map[]));
  }

  // ---------------------------------------------------------------------------
  // Well-formed patterns meet both conditions

  /** A leading slash, and no empty segment anywhere else. */
  predicate WellFormed(p: string) {
    Split(p)[0] == "" && forall i :: 0 < i < |Split(p)| ==> Split(p)[i] != ""
  }

  function Slashed(parts: seq<string>): string {
    if parts == [] then "" else "/" + parts[0] + Slashed(parts[1..])
  }

  lemma {:induction false} JoinOfSplit(s: string)
    ensures s == Split(s)[0] + Slashed(Split(s)[1..])
  {
    if s != "" {
      JoinOfSplit(s[1..]);
      var rest := Split(s[1..]);
      if s[0] == '/' {
        assert Split(s)[1..] == rest;
        assert Slashed(rest) == "/" + rest[0] + Slashed(rest[1..]);
        assert s == "/" + s[1..];
      } else {
        assert Split(s)[1..] == rest[1..];
        assert s == [s[0]] + s[1..];
      }
    }
  }

  lemma {:induction false} RenderOfParts(parts: seq<string>)
    requires forall i :: 0 <= i < |parts| ==> parts[i] != ""
    ensures Render(ToSegments(parts), map[]) == Slashed(parts)
  {
    if parts != [] {
      RenderOfParts(parts[1..]);
      var segs := ToSegments(parts);
      assert segs == [ParseSegment(parts[0])] + ToSegments(parts[1..]);
      assert segs[1..] == ToSegments(parts[1..]);
      assert Text(segs[0], map[]) == parts[0];
    }
  }

  lemma WellFormedIsFaithful(p: string)
    requires WellFormed(p)
    ensures Format(p, map[]) == p
    ensures Slashes(p) == |Segments(p)|
    ensures Prefix(p) <= Format(p, map[])
  {
    var parts := Split(p)[1..];
    JoinOfSplit(p);
    RenderOfParts(parts);
    assert Segments(p) == ToSegments(parts);
    assert p == "" + Slashed(parts);
    SegmentsParsed(p);
    FormattedSlashes(Segments(p), map[]);
  }

  // ---------------------------------------------------------------------------
  // The manager

  class Manager {
    const constraints: map<string, Constraint>
    const enhanced: bool
    var rules: seq<Ref>
    var currentIndex: nat
    var rulesBySlashCount: map<nat, map<nat, Entry>>
    var prefixes: set<string>

    ghost predicate Valid()
      reads this
    {
      && (forall name :: name in constraints ==> constraints[name].chars != [])
      && currentIndex == |rules|
      && (forall c :: Filed(rulesBySlashCount, c) == Bucket(rules, c))
      && prefixes == Minimal(AllPrefixes(rules, constraints))
      && SameObjects(rules)
    }

    constructor (constraints: map<string, Constraint>, enhanced: bool)
      requires forall name :: name in constraints ==> constraints[name].chars != []
      ensures Valid() && rules == [] && this.constraints == constraints && this.enhanced == enhanced
    {
      this.constraints := constraints;
      this.enhanced := enhanced;
      rules, currentIndex, rulesBySlashCount, prefixes := [], 0, map[], {};
    }

    /** `addRule`; adding the same object again moves it to the new index. */
    method AddRule(rule: Ref) returns (lastIndex: nat)
      requires Valid() && SameObjects(rules + [rule])
      modifies this`rules, this`currentIndex, this`rulesBySlashCount, this`prefixes
      ensures Valid() && rules == old(rules) + [rule] && lastIndex == |old(rules)|
    {
      ghost var before, at := rules, currentIndex;
      rules := rules + [rule];
      var index: map<nat, map<nat, Entry>> := rulesBySlashCount;
      var todo := PatternSet(rule.rule);
      ghost var done := {};
      while todo != {}
        invariant done + todo == PatternSet(rule.rule)
        invariant forall c :: Filed(index, c) == FiledAlso(before, c, rule, at, done)
        modifies {}
        decreases todo
      {
        var pattern :| pattern in todo;
        var count := Slashes(pattern);
        var bucket: map<nat, Entry> := if count in index then index[count] else map[];
        FileStep(index, before, rule, at, done, pattern);
        index := index[count := bucket[rule.id := Entry(rule.rule, currentIndex)]];
        todo, done := todo - {pattern}, done + {pattern};
      }
      assert done == PatternSet(rule.rule);
      rulesBySlashCount := index;
      forall c ensures Filed(index, c) == Bucket(rules, c) { BucketStep(before, rule, c); }
      var added := CollectPrefixes(rule.rule);
      MinimalIncremental(AllPrefixes(before, constraints), added);
      assert rules[..|before|] == before;
      prefixes := ReducePrefixes(prefixes + added);
      lastIndex := currentIndex;
      currentIndex := currentIndex + 1;
    }

    method CollectPrefixes(r: Rule) returns (out: set<string>)
      requires forall name :: name in constraints ==> constraints[name].chars != []
      ensures out == RulePrefixes(r, constraints)
    {
      out := {};
      var todo := PatternSet(r);
      while todo != {}
        invariant todo <= PatternSet(r)
        invariant out == set p, x | p in PatternSet(r) - todo && x in ConstrainedPrefixes(p, constraints) :: x
        decreases todo
      {
        var pattern :| pattern in todo;
        var more := PrefixesWithConstraints(pattern, constraints);
        out := out + set x | x in more;
        todo := todo - {pattern};
      }
    }

    /** `getStaticRules`: the bucket's rules, instantiated and filtered. */
    method GetStaticRules(key: string, v: S.Value) returns (out: map<nat, Hit>)
      requires Valid()
      ensures out == Scan(Bucket(rules, Slashes(key)), key, v, enhanced)
      ensures (forall i :: 0 <= i < |rules| ==> Sound(rules[i].rule) && SlashFaithful(rules[i].rule)) ==>
        out == Scan(Entries(rules), key, v, enhanced)
    {
      hide InScope, Bucket, Entries, Sound, SlashFaithful, Scan;
      var slashCount := Slashes(key);
      var bucket: map<nat, Entry> := if slashCount in rulesBySlashCount then rulesBySlashCount[slashCount] else map[];
      assert bucket == Bucket(rules, slashCount) by { assert Filed(rulesBySlashCount, slashCount) == bucket; }
      out := map[];
      var todo := bucket.Keys;
      ScanNothing(bucket, key, v, enhanced);
      while todo != {}
        invariant todo <= bucket.Keys
        invariant out == Scan(bucket - todo, key, v, enhanced)
        decreases todo
      {
        var id :| id in todo;
        var hit := FilterRule(bucket[id], key, v);
        ScanStep(bucket, todo, id, key, v, enhanced);
        if hit.Some? { out := out[id := hit.value]; }
        todo := todo - {id};
      }
      if forall i :: 0 <= i < |rules| ==> Sound(rules[i].rule) && SlashFaithful(rules[i].rule) {
        AddedTransparent(rules, key, v, enhanced);
      }
    }

    /** One rule of the bucket: built for the key and kept if it passes the active filter. */
    method FilterRule(entry: Entry, key: string, v: S.Value) returns (hit: Option<Hit>)
      ensures hit ==
        if InScope(entry.rule, key, v, enhanced)
        then Some(Hit(MakeStatic(entry.rule, key).value, entry.index))
        else None
    {
      var inst := MakeStaticRule(entry.rule, key);
      if inst.None? { return None; }
      var keep := S.Satisfiable(inst.value.rule, key);
      if enhanced {
        var q := S.QSatisfiable(inst.value.rule, key, v);
        keep := q == S.QTrue || q == S.QMaybe;
      }
      hit := if keep then Some(Hit(inst.value, entry.index)) else None;
    }
  }

  lemma AddedTransparent(added: seq<Ref>, key: string, v: S.Value, enhanced: bool)
    requires forall i :: 0 <= i < |added| ==> Sound(added[i].rule) && SlashFaithful(added[i].rule)
    ensures Scan(Bucket(added, Slashes(key)), key, v, enhanced) == Scan(Entries(added), key, v, enhanced)
  {
    hide Sound, SlashFaithful, Scan;
    forall id | id in Entries(added) ensures Sound(Entries(added)[id].rule) && SlashFaithful(Entries(added)[id].rule) {
      EntryIsAdded(added, id);
    }
    IndexTransparent(added, key, v, enhanced);
  }

  lemma ScanNothing(entries: map<nat, Entry>, key: string, v: S.Value, enhanced: bool)
    ensures Scan(entries - entries.Keys, key, v, enhanced) == map[]
    ensures entries - {} == entries
  {
    assert entries - entries.Keys == map[];
  }

  lemma ScanStep(entries: map<nat, Entry>, todo: set<nat>, id: nat, key: string, v: S.Value, enhanced: bool)
    requires todo <= entries.Keys && id in todo
    ensures Scan(entries - (todo - {id}), key, v, enhanced) ==
      if InScope(entries[id].rule, key, v, enhanced)
      then Scan(entries - todo, key, v, enhanced)[id := Hit(MakeStatic(entries[id].rule, key).value, entries[id].index)]
      else Scan(entries - todo, key, v, enhanced)
  {
    hide MakeStatic;
  }

  /** References with one identity are one rule object. */
  ghost predicate SameObjects(refs: seq<Ref>) {
    forall i, j :: 0 <= i < |refs| && 0 <= j < |refs| && refs[i].id == refs[j].id ==> refs[i].rule == refs[j].rule
  }

  ghost function Filed(index: map<nat, map<nat, Entry>>, count: nat): map<nat, Entry> {
    if count in index then index[count] else map[]
  }

  /** The bucket while the new rule is being filed, after the patterns in done. */
  ghost function FiledAlso(before: seq<Ref>, count: nat, rule: Ref, index: nat, done: set<string>): map<nat, Entry> {
    if exists p :: p in done && Slashes(p) == count
    then Bucket(before, count)[rule.id := Entry(rule.rule, index)]
    else Bucket(before, count)
  }

  lemma FileStep(index: map<nat, map<nat, Entry>>, before: seq<Ref>, rule: Ref, at: nat, done: set<string>,
                 pattern: string)
    requires forall c :: Filed(index, c) == FiledAlso(before, c, rule, at, done)
    ensures var count := Slashes(pattern);
      var next := index[count := Filed(index, count)[rule.id := Entry(rule.rule, at)]];
      forall c :: Filed(next, c) == FiledAlso(before, c, rule, at, done + {pattern})
  {
    hide Bucket, Slashes;
    var count := Slashes(pattern);
    var next := index[count := Filed(index, count)[rule.id := Entry(rule.rule, at)]];
    forall c ensures Filed(next, c) == FiledAlso(before, c, rule, at, done + {pattern}) {
      assert pattern in done + {pattern};
      if c == count {
        assert FiledAlso(before, c, rule, at, done + {pattern}) == Bucket(before, c)[rule.id := Entry(rule.rule, at)];
        assert Filed(next, c) == FiledAlso(before, c, rule, at, done)[rule.id := Entry(rule.rule, at)];
        var filed := Bucket(before, c)[rule.id := Entry(rule.rule, at)];
        assert filed[rule.id := Entry(rule.rule, at)] == filed;
        assert Filed(next, c) == filed;
      } else {
        assert (exists p :: p in done + {pattern} && Slashes(p) == c) <==>
          (exists p :: p in done && Slashes(p) == c) by {
          if p :| p in done && Slashes(p) == c { assert p in done + {pattern}; }
        }
        assert Filed(next, c) == Filed(index, c);
        assert FiledAlso(before, c, rule, at, done + {pattern}) == FiledAlso(before, c, rule, at, done);
      }
    }
  }

  lemma {:induction false} EntryIsAdded(added: seq<Ref>, id: nat)
    requires id in Entries(added)
    ensures exists i :: 0 <= i < |added| && added[i].id == id && Entries(added)[id] == Entry(added[i].rule, i)
    decreases |added|
  {
    var n := |added| - 1;
    if id != added[n].id {
      EntryIsAdded(added[..n], id);
      var i :| 0 <= i < n && added[..n][i].id == id && Entries(added[..n])[id] == Entry(added[..n][i].rule, i);
      assert added[i].id == id;
    }
  }

  /** Filing under every pattern's slash count maintains the index. */
  lemma BucketStep(before: seq<Ref>, rule: Ref, count: nat)
    requires SameObjects(before + [rule])
    ensures Bucket(before + [rule], count) == FiledAlso(before, count, rule, |before|, PatternSet(rule.rule))
  {
    var after := before + [rule];
    assert after[..|before|] == before;
    assert Entries(after) == Entries(before)[rule.id := Entry(rule.rule, |before|)];
    if rule.id in Entries(before) {
      EntryIsAdded(before, rule.id);
      var i :| 0 <= i < |before| && before[i].id == rule.id && Entries(before)[rule.id] == Entry(before[i].rule, i);
      assert after[i] == before[i] && after[|before|] == rule;
    }
  }
}
