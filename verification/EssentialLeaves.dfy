/**
 * Essential leaves and crawl patterns (rules/dynamic_rule.go): a truth table over the leaves'
 * representations decides which leaves every satisfying assignment needs, and patterns that such
 * a leaf requires to be absent are not crawled.
 */
module EssentialLeaves {
  import opened Base
  import opened Paths
  import opened DynamicRules
  import S = StaticRules
  import Q = QuadState

  type Assignment = map<string, bool>

  // ---------------------------------------------------------------------------
  // Evaluation over representations

  function Reps(r: Rule): set<string> {
    match r
    case And(_) | Or(_) => set i, rep | 0 <= i < |r.rules| && rep in Reps(r.rules[i]) :: rep
    case Not(rule) => Reps(rule)
    case _ => {r.rep}
  }

  /** `evaluate`: a representation that the map lacks counts as false. */
  predicate Evaluate(r: Rule, values: Assignment) {
    match r
    case And(rules) => forall i :: 0 <= i < |rules| ==> Evaluate(rules[i], values)
    case Or(rules) => exists i :: 0 <= i < |rules| && Evaluate(rules[i], values)
    case Not(rule) => !Evaluate(rule, values)
    case _ => r.rep in values && values[r.rep]
  }

  /** The loops of the AND and OR `evaluate` methods. */
  method EvaluateRule(r: Rule, values: Assignment) returns (result: bool)
    ensures result == Evaluate(r, values)
    decreases r
  {
    match r {
      case And(rules) =>
        result := true;
        for j := 0 to |rules|
          invariant result == forall i :: 0 <= i < j ==> Evaluate(rules[i], values)
        {
          var nested := EvaluateRule(rules[j], values);
          result := result && nested;
        }
      case Or(rules) =>
        result := false;
        for j := 0 to |rules|
          invariant result == exists i :: 0 <= i < j && Evaluate(rules[i], values)
        {
          var nested := EvaluateRule(rules[j], values);
          result := result || nested;
        }
      case Not(rule) =>
        var nested := EvaluateRule(rule, values);
        result := !nested;
      case _ => result := r.rep in values && values[r.rep];
    }
  }

  // ---------------------------------------------------------------------------
  // The truth table

  function Visited(keys: seq<string>, parent: Assignment, value: bool): seq<Assignment> {
    if keys == [] then []
    else
      var child := parent[keys[0] := value];
      if |keys| == 1 then [child]
      else Visited(keys[1..], child, false) + Visited(keys[1..], child, true)
  }

  function Table(keys: seq<string>): seq<Assignment> {
    Visited(keys, map[], false) + Visited(keys, map[], true)
  }

  ghost predicate Distinct(keys: seq<string>) {
    forall i, j :: 0 <= i < j < |keys| ==> keys[i] != keys[j]
  }

  ghost function Members(keys: seq<string>): set<string> { set k | k in keys }

  /** c assigns the keys on top of parent, starting with value. */
  ghost predicate Extends(keys: seq<string>, parent: Assignment, value: bool, c: Assignment) {
    && keys != [] && c.Keys == parent.Keys + Members(keys)
    && c[keys[0]] == value && forall k :: k in parent ==> c[k] == parent[k]
  }

  lemma {:induction false} VisitedOnce(keys: seq<string>, parent: Assignment, value: bool, c: Assignment)
    requires keys != [] && Distinct(keys) && parent.Keys !! Members(keys)
    ensures multiset(Visited(keys, parent, value))[c] == if Extends(keys, parent, value, c) then 1 else 0
    decreases |keys|
  {
    var child := parent[keys[0] := value];
    if |keys| == 1 {
      assert Members(keys) == {keys[0]};
      assert Extends(keys, parent, value, c) <==> c == child;
    } else {
      ExtendsStep(keys, parent, value, c);
      VisitedOnce(keys[1..], child, false, c);
      VisitedOnce(keys[1..], child, true, c);
    }
  }

  lemma ExtendsStep(keys: seq<string>, parent: Assignment, value: bool, c: Assignment)
    requires |keys| > 1 && Distinct(keys) && parent.Keys !! Members(keys)
    ensures var child, rest := parent[keys[0] := value], keys[1..];
      && Distinct(rest) && child.Keys !! Members(rest)
      && (Extends(keys, parent, value, c) <==> Extends(rest, child, false, c) || Extends(rest, child, true, c))
  {
    MembersCons(keys);
    hide Members;
    var rest := keys[1..];
    assert rest[0] in Members(rest);
  }

  lemma MembersCons(keys: seq<string>)
    requires |keys| > 1 && Distinct(keys)
    ensures var rest := keys[1..];
      && Distinct(rest) && Members(keys) == {keys[0]} + Members(rest)
      && keys[0] !in Members(rest) && rest[0] in Members(rest)
  {
    assert keys == [keys[0]] + keys[1..];
  }

  /** The enumeration visits every assignment of the representations exactly once. */
  lemma TableVisitsOnce(keys: seq<string>, c: Assignment)
    requires keys != [] && Distinct(keys)
    ensures multiset(Table(keys))[c] == if c.Keys == Members(keys) then 1 else 0
  {
    VisitedOnce(keys, map[], false, c);
    VisitedOnce(keys, map[], true, c);
    assert c.Keys == Members(keys) ==> keys[0] in c;
  }

  /** What `proc` leaves in the map after the assignments seen so far. */
  ghost predicate Surviving(r: Rule, reps: seq<string>, seen: seq<Assignment>, must: Assignment) {
    && must.Keys == Members(reps)
    && forall rep :: rep in must ==> (must[rep] <==> forall c :: c in seen && Evaluate(r, c) ==> rep in c && c[rep])
  }

  /** `processBooleanMap` with the callback that clears the representations found false. */
  method ProcessBooleanMap(r: Rule, reps: seq<string>, keys: seq<string>, parent: Assignment, value: bool,
                           must: Assignment, ghost seen: seq<Assignment>)
    returns (out: Assignment)
    requires Surviving(r, reps, seen, must)
    ensures Surviving(r, reps, seen + Visited(keys, parent, value), out)
    decreases |keys|
  {
    out := must;
    if |keys| == 0 {
      assert seen + [] == seen;
      return;
    }
    var child := parent[keys[0] := value];
    if |keys| == 1 {
      var result := EvaluateRule(r, child);
      if result { out := ClearFalse(r, reps, child, must, seen); }
      return;
    }
    out := ProcessBooleanMap(r, reps, keys[1..], child, false, out, seen);
    ghost var half := Visited(keys[1..], child, false);
    out := ProcessBooleanMap(r, reps, keys[1..], child, true, out, seen + half);
    assert seen + half + Visited(keys[1..], child, true) == seen + (half + Visited(keys[1..], child, true));
  }

  method ClearFalse(r: Rule, reps: seq<string>, child: Assignment, must: Assignment, ghost seen: seq<Assignment>)
    returns (out: Assignment)
    requires Surviving(r, reps, seen, must) && Evaluate(r, child)
    ensures Surviving(r, reps, seen + [child], out)
  {
    assert forall i :: 0 <= i < |reps| ==> reps[i] in Members(reps);
    assert must.Keys == Members(reps);
    hide Evaluate, Surviving;
    out := must;
    for j := 0 to |reps|
      invariant out.Keys == must.Keys
      invariant forall rep :: rep in out ==> (out[rep] <==> must[rep] && (rep in reps[..j] ==> True(child, rep)))
    {
      var rep := reps[j];
      if !True(child, rep) { out := out[rep := false]; }
      assert reps[..j + 1] == reps[..j] + [rep];
    }
    assert reps[..|reps|] == reps;
    SurvivingStep(r, reps, child, must, seen, out);
  }

  predicate True(values: Assignment, rep: string) { rep in values && values[rep] }

  lemma SurvivingStep(r: Rule, reps: seq<string>, child: Assignment, must: Assignment, seen: seq<Assignment>,
                      out: Assignment)
    requires Surviving(r, reps, seen, must) && Evaluate(r, child) && out.Keys == must.Keys
    requires forall rep :: rep in out ==> (out[rep] <==> must[rep] && (rep in reps ==> True(child, rep)))
    ensures Surviving(r, reps, seen + [child], out)
  {
    hide Evaluate;
    assert forall rep :: rep in out ==> rep in reps;
  }

  /** The leaf is true in every assignment that satisfies the rule. */
  ghost predicate Essential(r: Rule, rep: string) {
    forall c: Assignment :: c.Keys == Reps(r) && Evaluate(r, c) ==> rep in c && c[rep]
  }

  /** A map's keys, in some iteration order. */
  method Listing(items: set<string>) returns (out: seq<string>)
    ensures Distinct(out) && Members(out) == items
  {
    out := [];
    var rest := items;
    while rest != {}
      invariant Distinct(out) && Members(out) !! rest && Members(out) + rest == items
      decreases rest
    {
      var x :| x in rest;
      assert forall i :: 0 <= i < |out| ==> out[i] in Members(out);
      assert Members(out + [x]) == Members(out) + {x};
      out := out + [x];
      rest := rest - {x};
    }
  }

  /** `getEssentialRepresentations` is exact. */
  method GetEssentialRepresentations(r: Rule) returns (out: seq<string>)
    ensures forall rep :: rep in out <==> rep in Reps(r) && Essential(r, rep)
  {
    hide Reps, Evaluate, Visited, Table, Essential;
    var reps := Listing(Reps(r));
    var must := map rep | rep in reps :: true;
    assert must.Keys == Members(reps);
    must := ProcessBooleanMap(r, reps, reps, map[], false, must, []);
    must := ProcessBooleanMap(r, reps, reps, map[], true, must, [] + Visited(reps, map[], false));
    TableIsBoth(reps);
    out := KeepTrue(reps, must);
    forall rep | rep in reps ensures must[rep] <==> Essential(r, rep) {
      TableDecides(r, reps, rep);
    }
    assert forall rep :: rep in reps <==> rep in Members(reps);
  }

  method KeepTrue(reps: seq<string>, must: Assignment) returns (out: seq<string>)
    requires must.Keys == Members(reps)
    ensures forall rep :: rep in out <==> rep in reps && rep in must && must[rep]
  {
    out := [];
    for j := 0 to |reps|
      invariant forall rep :: rep in out <==> rep in reps[..j] && rep in must && must[rep]
    {
      assert reps[j] in Members(reps);
      if must[reps[j]] { out := out + [reps[j]]; }
      assert reps[..j + 1] == reps[..j] + [reps[j]];
    }
    assert reps[..|reps|] == reps;
  }

  lemma TableIsBoth(reps: seq<string>)
    ensures [] + Visited(reps, map[], false) + Visited(reps, map[], true) == Table(reps)
  {
    hide Visited;
  }

  lemma TableDecides(r: Rule, reps: seq<string>, rep: string)
    requires Distinct(reps) && Members(reps) == Reps(r) && rep in reps
    ensures Essential(r, rep) <==> forall c :: c in Table(reps) && Evaluate(r, c) ==> rep in c && c[rep]
  {
    forall c: Assignment ensures c in Table(reps) <==> c.Keys == Reps(r) {
      TableVisitsOnce(reps, c);
      assert c in Table(reps) <==> c in multiset(Table(reps));
    }
  }

  // ---------------------------------------------------------------------------
  // Representations and stores

  ghost predicate HasLeaf(r: Rule, leaf: Rule) {
    match r
    case And(_) | Or(_) => exists i :: 0 <= i < |r.rules| && HasLeaf(r.rules[i], leaf)
    case Not(rule) => HasLeaf(rule, leaf)
    case _ => leaf == r
  }

  /** Leaves that share a representation ask the same of the same patterns. */
  ghost predicate Faithful(r: Rule) {
    forall a, b :: HasLeaf(r, a) && HasLeaf(r, b) && a.IsLeaf() && b.IsLeaf() && a.rep == b.rep ==> SameLeaf(a, b)
  }

  ghost predicate SameLeaf(a: Rule, b: Rule)
    requires a.IsLeaf() && b.IsLeaf()
  {
    if a.LiteralLeaf? then b.LiteralLeaf? && a.pattern == b.pattern && a.cmp == b.cmp
    else b.EqualsLeaf? && a.patterns == b.patterns
  }

  /** values tells, for every leaf, whether its instance holds in the store. */
  ghost predicate Describes(r: Rule, attrs: Attrs, s: S.Store, values: Assignment) {
    match r
    case And(_) | Or(_) => forall i :: 0 <= i < |r.rules| ==> Describes(r.rules[i], attrs, s, values)
    case Not(rule) => Describes(rule, attrs, s, values)
    case _ => r.rep in values && values[r.rep] == S.Holds(Instantiate(r, attrs), s)
  }

  /** Evaluating the leaves' truth values is evaluating the instance in the store. */
  lemma {:induction false} EvaluateIsHolds(r: Rule, attrs: Attrs, s: S.Store, values: Assignment)
    requires Describes(r, attrs, s, values)
    ensures Evaluate(r, values) == S.Holds(Instantiate(r, attrs), s)
    decreases r
  {
    match r {
      case And(_) | Or(_) =>
        var sr := Instantiate(r, attrs);
        forall i | 0 <= i < |r.rules| ensures Evaluate(r.rules[i], values) == S.Holds(sr.rules[i], s) {
          EvaluateIsHolds(r.rules[i], attrs, s, values);
        }
      case Not(rule) => EvaluateIsHolds(rule, attrs, s, values);
      case _ =>
    }
  }

  ghost predicate LeafTrue(r: Rule, attrs: Attrs, s: S.Store, rep: string) {
    exists leaf :: HasLeaf(r, leaf) && leaf.IsLeaf() && leaf.rep == rep && S.Holds(Instantiate(leaf, attrs), s)
  }

  ghost function LeafTruths(r: Rule, attrs: Attrs, s: S.Store): Assignment {
    map rep | rep in Reps(r) :: LeafTrue(r, attrs, s, rep)
  }

  lemma {:induction false} LeafIsListed(r: Rule, leaf: Rule)
    requires HasLeaf(r, leaf)
    ensures leaf.IsLeaf() && leaf.rep in Reps(r)
    decreases r
  {
    match r {
      case And(_) | Or(_) =>
        var i :| 0 <= i < |r.rules| && HasLeaf(r.rules[i], leaf);
        LeafIsListed(r.rules[i], leaf);
      case Not(rule) => LeafIsListed(rule, leaf);
      case _ =>
    }
  }

  lemma SameLeafSameTruth(a: Rule, b: Rule, attrs: Attrs)
    requires a.IsLeaf() && b.IsLeaf() && SameLeaf(a, b)
    ensures Instantiate(a, attrs) == Instantiate(b, attrs)
  {
  }

  lemma {:induction false} TruthsDescribe(r: Rule, nested: Rule, attrs: Attrs, s: S.Store)
    requires Faithful(r) && forall leaf :: HasLeaf(nested, leaf) ==> HasLeaf(r, leaf)
    ensures Describes(nested, attrs, s, LeafTruths(r, attrs, s))
    decreases nested
  {
    hide Faithful, LeafTruths, Instantiate;
    match nested {
      case And(_) | Or(_) =>
        forall i | 0 <= i < |nested.rules| ensures Describes(nested.rules[i], attrs, s, LeafTruths(r, attrs, s)) {
          assert forall leaf :: HasLeaf(nested.rules[i], leaf) ==> HasLeaf(nested, leaf);
          TruthsDescribe(r, nested.rules[i], attrs, s);
        }
      case Not(rule) =>
        assert forall leaf :: HasLeaf(rule, leaf) ==> HasLeaf(nested, leaf);
        TruthsDescribe(r, rule, attrs, s);
      case _ =>
        assert HasLeaf(nested, nested);
        LeafDescribed(r, nested, attrs, s);
    }
  }

  lemma LeafDescribed(r: Rule, leaf: Rule, attrs: Attrs, s: S.Store)
    requires Faithful(r) && HasLeaf(r, leaf) && leaf.IsLeaf()
    ensures leaf.rep in LeafTruths(r, attrs, s)
    ensures LeafTruths(r, attrs, s)[leaf.rep] == S.Holds(Instantiate(leaf, attrs), s)
  {
    hide HasLeaf, Instantiate, SameLeaf, Reps;
    LeafIsListed(r, leaf);
    if other :| HasLeaf(r, other) && other.IsLeaf() && other.rep == leaf.rep && S.Holds(Instantiate(other, attrs), s) {
      SameLeafSameTruth(other, leaf, attrs);
    }
  }

  /** In every store that satisfies an instance, the essential leaves hold. */
  lemma EssentialLeafHolds(r: Rule, leaf: Rule, attrs: Attrs, s: S.Store)
    requires Faithful(r) && HasLeaf(r, leaf) && leaf.IsLeaf() && Essential(r, leaf.rep)
    requires S.Holds(Instantiate(r, attrs), s)
    ensures S.Holds(Instantiate(leaf, attrs), s)
  {
    hide HasLeaf, Instantiate, Reps, Evaluate, Faithful;
    var values := LeafTruths(r, attrs, s);
    TruthsDescribe(r, r, attrs, s);
    EvaluateIsHolds(r, attrs, s, values);
    assert values.Keys == Reps(r);
    LeafDescribed(r, leaf, attrs, s);
  }

  // ---------------------------------------------------------------------------
  // Crawl patterns

  predicate HasSuffix(s: string, suffix: string) {
    |suffix| <= |s| && s[|s| - |suffix|..] == suffix
  }

  const NIL_SUFFIX := "<nil>"

  /** `getLeafRepresentationPatternMap` at one representation. */
  function PatternsOf(r: Rule, rep: string): set<string> {
    match r
    case And(_) | Or(_) => set i, p | 0 <= i < |r.rules| && p in PatternsOf(r.rules[i], rep) :: p
    case Not(rule) => PatternsOf(rule, rep)
    case _ => if r.rep == rep then set p | p in LeafPatterns(r) else {}
  }

  lemma {:induction false} PatternHasLeaf(r: Rule, rep: string, p: string) returns (leaf: Rule)
    requires p in PatternsOf(r, rep)
    ensures HasLeaf(r, leaf) && leaf.IsLeaf() && leaf.rep == rep && p in LeafPatterns(leaf)
    decreases r
  {
    match r {
      case And(_) | Or(_) =>
        var i :| 0 <= i < |r.rules| && p in PatternsOf(r.rules[i], rep);
        leaf := PatternHasLeaf(r.rules[i], rep, p);
      case Not(rule) => leaf := PatternHasLeaf(rule, rep, p);
      case _ => leaf := r;
    }
  }

  /** A pattern is dropped when an essential leaf whose representation ends in <nil> has it. */
  ghost predicate Dropped(r: Rule, p: string) {
    exists rep :: rep in Reps(r) && Essential(r, rep) && HasSuffix(rep, NIL_SUFFIX) && p in PatternsOf(r, rep)
  }

  /** `getCrawlerPatterns` */
  method GetCrawlerPatterns(r: Rule) returns (patterns: set<string>)
    ensures patterns == set p | p in PatternSet(r) && !Dropped(r, p)
  {
    hide Essential, Reps, PatternsOf, PatternSet, HasSuffix;
    patterns := PatternSet(r);
    var eReps := GetEssentialRepresentations(r);
    for j := 0 to |eReps|
      invariant patterns == set p | p in PatternSet(r) &&
        !exists i :: 0 <= i < j && HasSuffix(eReps[i], NIL_SUFFIX) && p in PatternsOf(r, eReps[i])
    {
      if HasSuffix(eReps[j], NIL_SUFFIX) { patterns := patterns - PatternsOf(r, eReps[j]); }
    }
    forall p
      ensures Dropped(r, p) <==>
        exists i :: 0 <= i < |eReps| && HasSuffix(eReps[i], NIL_SUFFIX) && p in PatternsOf(r, eReps[i])
    {
      if Dropped(r, p) {
        var rep :| rep in Reps(r) && Essential(r, rep) && HasSuffix(rep, NIL_SUFFIX) && p in PatternsOf(r, rep);
        assert rep in eReps;
      }
      if i :| 0 <= i < |eReps| && HasSuffix(eReps[i], NIL_SUFFIX) && p in PatternsOf(r, eReps[i]) {
        assert eReps[i] in eReps;
      }
    }
  }

  /** A representation ends in <nil> only for literal leaves that ask for an absent key. */
  ghost predicate NilMeansAbsent(r: Rule) {
    forall leaf :: HasLeaf(r, leaf) && leaf.IsLeaf() && HasSuffix(leaf.rep, NIL_SUFFIX) ==>
      leaf.LiteralLeaf? && forall v :: leaf.cmp(v) ==> v == None
  }

  /**
   * Pruning loses nothing: wherever an instance is satisfied, no key of a dropped pattern exists,
   * so crawling those patterns could not have triggered the rule.
   */
  lemma CrawlPruningLossless(r: Rule, p: string, attrs: Attrs, s: S.Store)
    requires Faithful(r) && NilMeansAbsent(r) && Dropped(r, p)
    requires S.Holds(Instantiate(r, attrs), s)
    ensures Format(p, attrs) !in s
  {
    hide Reps, Essential, HasSuffix, PatternsOf, HasLeaf, Instantiate, Format, Faithful;
    var rep :| rep in Reps(r) && Essential(r, rep) && HasSuffix(rep, NIL_SUFFIX) && p in PatternsOf(r, rep);
    var leaf := PatternHasLeaf(r, rep, p);
    EssentialLeafHolds(r, leaf, attrs, s);
    LiteralHolds(leaf, attrs, s);
  }

  lemma LiteralHolds(leaf: Rule, attrs: Attrs, s: S.Store)
    requires leaf.LiteralLeaf?
    ensures S.Holds(Instantiate(leaf, attrs), s) <==> leaf.cmp(S.Get(s, Format(leaf.pattern, attrs)))
  {
  }

  // ---------------------------------------------------------------------------
  // The two constructors of leaves with standard representations

  function EqualsComparator(value: S.Value): S.Value -> bool { (compared: S.Value) => compared == value }

  function ValueText(value: S.Value): string {
    if value.None? then NIL_SUFFIX else "\"" + value.value + "\""
  }

  function NewEqualsLiteralRule(pattern: string, value: S.Value): Rule {
    LiteralLeaf(pattern, EqualsComparator(value), pattern + " = " + ValueText(value), map[])
  }

  function Join(patterns: seq<string>): string {
    if patterns == [] then "" else if |patterns| == 1 then patterns[0] else patterns[0] + " = " + Join(patterns[1..])
  }

  function NewEqualsRule(patterns: seq<string>): Rule {
    EqualsLeaf(patterns, Join(patterns), map[])
  }

  /** What the two constructors ask of a store: this very value, or absence; and one value for all keys. */
  lemma EqualityRulesHold(p: string, value: S.Value, ps: seq<string>, attrs: Attrs, s: S.Store)
    ensures S.Holds(Instantiate(NewEqualsLiteralRule(p, value), attrs), s) <==> S.Get(s, Format(p, attrs)) == value
    ensures S.Holds(Instantiate(NewEqualsRule(ps), attrs), s) <==>
      forall a, b :: a in ps && b in ps ==> S.Get(s, Format(a, attrs)) == S.Get(s, Format(b, attrs))
  {
    AllEqual(ps, attrs, s);
    hide Format, NewEqualsRule;
  }

  lemma AllEqual(ps: seq<string>, attrs: Attrs, s: S.Store)
    ensures S.Holds(Instantiate(NewEqualsRule(ps), attrs), s) <==>
      forall a, b :: a in ps && b in ps ==> S.Get(s, Format(a, attrs)) == S.Get(s, Format(b, attrs))
  {
    hide Format, Join;
    var sr := Instantiate(NewEqualsRule(ps), attrs);
    assert |sr.keys| == |ps| && forall i :: 0 <= i < |ps| ==> sr.keys[i] == Format(ps[i], attrs);
    hide Instantiate;
    if S.Holds(sr, s) {
      forall a, b | a in ps && b in ps ensures S.Get(s, Format(a, attrs)) == S.Get(s, Format(b, attrs)) {
        var i :| 0 <= i < |ps| && ps[i] == a;
        var j :| 0 <= j < |ps| && ps[j] == b;
        assert S.Get(s, sr.keys[i]) == S.Get(s, sr.keys[0]) == S.Get(s, sr.keys[j]);
      }
    }
    if forall a, b :: a in ps && b in ps ==> S.Get(s, Format(a, attrs)) == S.Get(s, Format(b, attrs)) {
      forall i | 0 <= i < |sr.keys| ensures S.Get(s, sr.keys[i]) == S.Get(s, sr.keys[0]) {
        assert ps[i] in ps && ps[0] in ps;
      }
    }
  }

  /** And how they are written. */
  lemma EqualityRulesText(p: string, q: string, value: string)
    ensures NewEqualsLiteralRule(p, None).rep == p + " = <nil>"
    ensures NewEqualsLiteralRule(p, Some(value)).rep == p + " = " + ("\"" + value + "\"")
    ensures NewEqualsRule([p, q]).rep == p + " = " + q
  {
    assert [p, q][1..] == [q] && Join([q]) == q;
  }

  /** Starts with a slash, holds no blank and does not itself end in <nil>. */
  predicate TextPattern(p: string) {
    p != "" && p[0] == '/' && ' ' !in p && !HasSuffix(p, NIL_SUFFIX)
  }

  ghost predicate Standard(leaf: Rule) {
    match leaf
    case LiteralLeaf(p, _, _, _) => TextPattern(p) && exists value :: leaf == NewEqualsLiteralRule(p, value)
    case EqualsLeaf(ps, _, _) =>
      ps != [] && (forall i :: 0 <= i < |ps| ==> TextPattern(ps[i])) && leaf == NewEqualsRule(ps)
    case _ => false
  }

  ghost predicate StandardLeaves(r: Rule) {
    match r
    case And(_) | Or(_) => forall i :: 0 <= i < |r.rules| ==> StandardLeaves(r.rules[i])
    case Not(rule) => StandardLeaves(rule)
    case _ => Standard(r)
  }

  lemma {:induction false} LeavesStandard(r: Rule, leaf: Rule)
    requires StandardLeaves(r) && HasLeaf(r, leaf)
    ensures Standard(leaf)
    decreases r
  {
    match r {
      case And(_) | Or(_) =>
        var i :| 0 <= i < |r.rules| && HasLeaf(r.rules[i], leaf);
        LeavesStandard(r.rules[i], leaf);
      case Not(rule) => LeavesStandard(rule, leaf);
      case _ =>
    }
  }

  ghost function FirstBlank(s: string): nat {
    if s == "" || s[0] == ' ' then 0 else 1 + FirstBlank(s[1..])
  }

  lemma {:induction false} BlankAfter(p: string, x: string)
    requires ' ' !in p && (x == "" || x[0] == ' ')
    ensures FirstBlank(p + x) == |p|
  {
    if p == "" {
      assert p + x == x;
    } else {
      BlankAfter(p[1..], x);
      assert (p + x)[1..] == p[1..] + x;
    }
  }

  /** Two blank-free words before a blank are equal when the texts are. */
  lemma FirstWord(p: string, q: string, x: string, y: string)
    requires ' ' !in p && ' ' !in q
    requires x == "" || x[0] == ' '
    requires y == "" || y[0] == ' '
    requires p + x == q + y
    ensures p == q && x == y
  {
    var s := p + x;
    BlankAfter(p, x);
    BlankAfter(q, y);
    assert p == s[..|p|] && q == s[..|q|];
    assert x == s[|p|..] && y == s[|q|..];
  }

  /** What follows the first pattern in a standard representation. */
  ghost function Tail(patterns: seq<string>): string
    requires patterns != []
  {
    if |patterns| == 1 then "" else " = " + Join(patterns[1..])
  }

  lemma {:induction false} JoinInjective(a: seq<string>, b: seq<string>)
    requires a != [] && b != [] && Join(a) == Join(b)
    requires forall i :: 0 <= i < |a| ==> TextPattern(a[i])
    requires forall i :: 0 <= i < |b| ==> TextPattern(b[i])
    ensures a == b
  {
    hide Join, Tail, HasSuffix;
    JoinSplit(a);
    JoinSplit(b);
    FirstWord(a[0], b[0], Tail(a), Tail(b));
    TailInjective(a, b);
    if |a| > 1 { JoinInjective(a[1..], b[1..]); }
    assert a == [a[0]] + a[1..] && b == [b[0]] + b[1..];
  }

  lemma JoinSplit(a: seq<string>)
    requires a != []
    ensures Join(a) == a[0] + Tail(a) && (Tail(a) == "" || Tail(a)[0] == ' ')
  {
  }

  lemma TailInjective(a: seq<string>, b: seq<string>)
    requires a != [] && b != [] && Tail(a) == Tail(b)
    ensures |a| == 1 <==> |b| == 1
    ensures |a| > 1 ==> Join(a[1..]) == Join(b[1..])
  {
    hide Join;
    if |a| > 1 && |b| > 1 {
      assert Join(a[1..]) == Tail(a)[3..] && Join(b[1..]) == Tail(b)[3..];
    }
  }

  lemma StandardRepsDiffer(a: Rule, b: Rule)
    requires Standard(a) && Standard(b) && a.IsLeaf() && b.IsLeaf() && a.rep == b.rep
    ensures SameLeaf(a, b)
  {
    if a.EqualsLeaf? && b.EqualsLeaf? {
      JoinInjective(a.patterns, b.patterns);
    } else if a.LiteralLeaf? && b.LiteralLeaf? {
      LiteralRepsDiffer(a, b);
    } else if a.LiteralLeaf? {
      MixedRepsDiffer(a, b);
    } else {
      MixedRepsDiffer(b, a);
    }
  }

  lemma LiteralRepsDiffer(a: Rule, b: Rule)
    requires Standard(a) && Standard(b) && a.LiteralLeaf? && b.LiteralLeaf? && a.rep == b.rep
    ensures SameLeaf(a, b)
  {
    var v: S.Value :| a == NewEqualsLiteralRule(a.pattern, v);
    var w: S.Value :| b == NewEqualsLiteralRule(b.pattern, w);
    LiteralRepInjective(a.pattern, b.pattern, v, w);
  }

  lemma LiteralRepInjective(p: string, q: string, v: S.Value, w: S.Value)
    requires ' ' !in p && ' ' !in q
    requires p + " = " + ValueText(v) == q + " = " + ValueText(w)
    ensures p == q && v == w
  {
    hide ValueText;
    var x, y := " = " + ValueText(v), " = " + ValueText(w);
    assert p + x == p + " = " + ValueText(v) && q + y == q + " = " + ValueText(w);
    FirstWord(p, q, x, y);
    assert ValueText(v) == x[3..] == y[3..] == ValueText(w);
    ValueTextInjective(v, w);
  }

  lemma ValueTextInjective(v: S.Value, w: S.Value)
    requires ValueText(v) == ValueText(w)
    ensures v == w
  {
    assert ValueText(v)[0] == ValueText(w)[0];
    if v.Some? && w.Some? {
      assert v.value == ValueText(v)[1..|ValueText(v)| - 1];
      assert w.value == ValueText(w)[1..|ValueText(w)| - 1];
    }
  }

  lemma MixedRepsDiffer(a: Rule, b: Rule)
    requires Standard(a) && Standard(b) && a.LiteralLeaf? && b.EqualsLeaf?
    ensures a.rep != b.rep
  {
    var v: S.Value :| a == NewEqualsLiteralRule(a.pattern, v);
    var x := " = " + ValueText(v);
    assert a.pattern + x == a.rep;
    assert b.rep == b.patterns[0] + Tail(b.patterns);
    assert x[3] == ValueText(v)[0] != '/';
    if |b.patterns| > 1 {
      JoinSuffix(b.patterns[1..]);
      assert Tail(b.patterns)[3] == Join(b.patterns[1..])[0] == '/';
    }
    assert x != Tail(b.patterns);
    if a.rep == b.rep { FirstWord(a.pattern, b.patterns[0], x, Tail(b.patterns)); }
  }

  lemma NilChars(s: string)
    ensures HasSuffix(s, NIL_SUFFIX) ==> |s| >= 5 && forall i :: 0 <= i < 5 ==> s[|s| - 5 + i] == NIL_SUFFIX[i]
  {
    if HasSuffix(s, NIL_SUFFIX) {
      assert forall i :: 0 <= i < 5 ==> s[|s| - 5..][i] == NIL_SUFFIX[i];
    }
  }

  lemma {:induction false} JoinSuffix(patterns: seq<string>)
    requires patterns != [] && forall i :: 0 <= i < |patterns| ==> TextPattern(patterns[i])
    ensures !HasSuffix(Join(patterns), NIL_SUFFIX)
    ensures Join(patterns) != "" && Join(patterns)[0] == '/'
  {
    if |patterns| > 1 {
      var rest := Join(patterns[1..]);
      JoinSuffix(patterns[1..]);
      var s := patterns[0] + " = " + rest;
      if |rest| < 5 {
        NilChars(s);
        assert s[|s| - 5 + (5 - |rest|)] == rest[0] == '/';
      } else {
        assert rest[|rest| - 5..] == s[|s| - 5..];
      }
    }
  }

  /** Rules built with the two constructors meet both hypotheses of the pruning theorem. */
  lemma StandardRules(r: Rule)
    requires StandardLeaves(r)
    ensures Faithful(r) && NilMeansAbsent(r)
  {
    forall a, b | HasLeaf(r, a) && HasLeaf(r, b) && a.IsLeaf() && b.IsLeaf() && a.rep == b.rep ensures SameLeaf(a, b) {
      LeavesStandard(r, a);
      LeavesStandard(r, b);
      StandardRepsDiffer(a, b);
    }
    forall leaf | HasLeaf(r, leaf) && leaf.IsLeaf() && HasSuffix(leaf.rep, NIL_SUFFIX)
      ensures leaf.LiteralLeaf? && forall v :: leaf.cmp(v) ==> v == None
    {
      LeavesStandard(r, leaf);
      NilSuffixIsNil(leaf);
    }
  }

  lemma NilSuffixIsNil(leaf: Rule)
    requires Standard(leaf) && HasSuffix(leaf.rep, NIL_SUFFIX)
    ensures leaf.LiteralLeaf? && forall v :: leaf.cmp(v) ==> v == None
  {
    if leaf.EqualsLeaf? {
      JoinSuffix(leaf.patterns);
    } else {
      var v: S.Value :| leaf == NewEqualsLiteralRule(leaf.pattern, v);
      QuotedSuffix(leaf.pattern, v);
    }
  }

  lemma QuotedSuffix(p: string, v: S.Value)
    ensures v.Some? ==> !HasSuffix(NewEqualsLiteralRule(p, v).rep, NIL_SUFFIX)
  {
    if v.Some? {
      var s := NewEqualsLiteralRule(p, v).rep;
      NilChars(s);
      assert s[|s| - 5 + 4] == '"';
    }
  }

  /**
   * Representations are texts, so a pattern that itself ends in <nil> misleads the pruning: for an
   * equality rule, no key of a dropped pattern exists in a satisfying store if and only if the
   * joined patterns do not end that way.
   */
  lemma EqualsPruningExact(patterns: seq<string>)
    requires patterns != []
    ensures var r := NewEqualsRule(patterns);
      (forall p, attrs, s :: Dropped(r, p) && S.Holds(Instantiate(r, attrs), s) ==> Format(p, attrs) !in s)
        <==> !HasSuffix(Join(patterns), NIL_SUFFIX)
  {
    hide Join, Format, HasSuffix;
    var r, rep := NewEqualsRule(patterns), Join(patterns);
    assert Reps(r) == {rep} && Essential(r, rep);
    if HasSuffix(rep, NIL_SUFFIX) {
      var attrs: Attrs := map[];
      var keys := Instantiate(r, attrs).keys;
      var s: S.Store := map k | k in keys :: "";
      assert keys[0] == Format(patterns[0], attrs) && keys[0] in s;
      assert S.Holds(Instantiate(r, attrs), s);
      assert patterns[0] in PatternsOf(r, rep);
      assert Dropped(r, patterns[0]);
    }
  }

  /** A leaf made with one of the two constructors, whatever its patterns. */
  ghost predicate Built(leaf: Rule) {
    match leaf
    case LiteralLeaf(p, _, _, _) => exists value :: leaf == NewEqualsLiteralRule(p, value)
    case EqualsLeaf(ps, _, _) => leaf == NewEqualsRule(ps)
    case _ => false
  }

  /** For such trees, the nil text means absence if and only if no equality leaf's joined patterns end in it. */
  lemma NilMeansAbsentExact(r: Rule)
    requires forall leaf :: HasLeaf(r, leaf) ==> Built(leaf)
    ensures NilMeansAbsent(r) <==>
      forall leaf :: HasLeaf(r, leaf) && leaf.EqualsLeaf? ==> !HasSuffix(Join(leaf.patterns), NIL_SUFFIX)
  {
    hide HasLeaf, HasSuffix, Join;
    forall leaf | HasLeaf(r, leaf) && leaf.LiteralLeaf? && HasSuffix(leaf.rep, NIL_SUFFIX)
      ensures forall v :: leaf.cmp(v) ==> v == None
    {
      var v: S.Value :| leaf == NewEqualsLiteralRule(leaf.pattern, v);
      QuotedSuffix(leaf.pattern, v);
    }
  }

  // ---------------------------------------------------------------------------
  // Representations that two leaves share

  /** "n is absent, or c = c although a and b differ", where c is the text of the two patterns with blanks. */
  ghost function Confused(a: string, b: string, n: string): Rule {
    Or([NewEqualsLiteralRule(n, None), And([NewEqualsRule([a + " = " + b]), Not(NewEqualsRule([a, b]))])])
  }

  lemma ConfusedReps(a: string, b: string, n: string)
    ensures NewEqualsRule([a + " = " + b]).rep == NewEqualsRule([a, b]).rep
    ensures Reps(Confused(a, b, n)) == {NewEqualsLiteralRule(n, None).rep, NewEqualsRule([a, b]).rep}
    ensures n in PatternsOf(Confused(a, b, n), NewEqualsLiteralRule(n, None).rep)
  {
    var r := Confused(a, b, n);
    var both := r.rules[1];
    assert Join([a, b]) == a + " = " + b by { assert [a, b][1..] == [b]; }
    assert Reps(both) == {both.rules[0].rep} by {
      assert both.rules[0].rep in Reps(both.rules[0]);
      assert Reps(both.rules[1]) == {both.rules[0].rep};
    }
    assert r.rules[0].rep in Reps(r.rules[0]) && both.rules[0].rep in Reps(both);
    assert n in PatternsOf(r.rules[0], r.rules[0].rep);
  }

  lemma ConfusedEvaluates(a: string, b: string, n: string, values: Assignment)
    ensures Evaluate(Confused(a, b, n), values) ==>
      var rep := NewEqualsLiteralRule(n, None).rep; rep in values && values[rep]
  {
    ConfusedReps(a, b, n);
    var x, y, z := NewEqualsLiteralRule(n, None), NewEqualsRule([a + " = " + b]), NewEqualsRule([a, b]);
    assert Confused(a, b, n) == Or([x, And([y, Not(z)])]);
    hide Join, ValueText, Confused;
    PairEvaluates(y, Not(z), values);
    PairEvaluates(x, And([y, Not(z)]), values);
  }

  lemma PairEvaluates(x: Rule, y: Rule, values: Assignment)
    ensures Evaluate(And([x, y]), values) <==> Evaluate(x, values) && Evaluate(y, values)
    ensures Evaluate(Or([x, y]), values) <==> Evaluate(x, values) || Evaluate(y, values)
  {
    var all, any := And([x, y]), Or([x, y]);
    assert all.rules[0] == any.rules[0] == x && all.rules[1] == any.rules[1] == y;
  }

  lemma PairHolds(x: Rule, y: Rule, attrs: Attrs, s: S.Store)
    ensures S.Holds(Instantiate(And([x, y]), attrs), s) <==>
      S.Holds(Instantiate(x, attrs), s) && S.Holds(Instantiate(y, attrs), s)
    ensures S.Holds(Instantiate(Or([x, y]), attrs), s) <==>
      S.Holds(Instantiate(x, attrs), s) || S.Holds(Instantiate(y, attrs), s)
  {
    var pair := [Instantiate(x, attrs), Instantiate(y, attrs)];
    PairInstance(x, y, attrs);
    hide Instantiate;
    Q.TwoTruths(pair[0], pair[1], s);
  }

  lemma PairInstance(x: Rule, y: Rule, attrs: Attrs)
    ensures Instantiate(And([x, y]), attrs) == S.And([Instantiate(x, attrs), Instantiate(y, attrs)])
    ensures Instantiate(Or([x, y]), attrs) == S.Or([Instantiate(x, attrs), Instantiate(y, attrs)])
  {
    assert Instantiate(And([x, y]), attrs).rules == [Instantiate(x, attrs), Instantiate(y, attrs)];
    assert Instantiate(Or([x, y]), attrs).rules == [Instantiate(x, attrs), Instantiate(y, attrs)];
  }

  /**
   * A pattern with blanks can share its representation with another leaf, and then pruning can lose
   * work: for patterns with different keys, the leaf on n is taken for essential and n is not crawled,
   * although the rule holds in a store where the key of n exists.
   */
  lemma SharedTextLosesWork(a: string, b: string, n: string, attrs: Attrs)
    requires Format(b, attrs) != Format(a, attrs) && Format(b, attrs) != Format(n, attrs)
    ensures var r, s := Confused(a, b, n), map[Format(a, attrs) := "", Format(n, attrs) := ""];
      Dropped(r, n) && S.Holds(Instantiate(r, attrs), s) && Format(n, attrs) in s
  {
    var r, rep := Confused(a, b, n), NewEqualsLiteralRule(n, None).rep;
    ConfusedReps(a, b, n);
    forall c: Assignment | c.Keys == Reps(r) && Evaluate(r, c) ensures rep in c && c[rep] {
      ConfusedEvaluates(a, b, n, c);
    }
    assert HasSuffix(rep, NIL_SUFFIX) by { assert rep == n + " = " + NIL_SUFFIX; }
    assert Dropped(r, n);
    ConfusedHolds(a, b, n, attrs);
  }

  lemma ConfusedHolds(a: string, b: string, n: string, attrs: Attrs)
    requires Format(b, attrs) != Format(a, attrs) && Format(b, attrs) != Format(n, attrs)
    ensures S.Holds(Instantiate(Confused(a, b, n), attrs), map[Format(a, attrs) := "", Format(n, attrs) := ""])
  {
    var s: S.Store := map[Format(a, attrs) := "", Format(n, attrs) := ""];
    var x, y, z := NewEqualsLiteralRule(n, None), NewEqualsRule([a + " = " + b]), NewEqualsRule([a, b]);
    AlwaysEqual(a + " = " + b, attrs, s);
    Differ(a, b, attrs, s);
    hide *;
    ConfusedIs(a, b, n);
    PairHolds(y, Not(z), attrs, s);
    PairHolds(x, And([y, Not(z)]), attrs, s);
  }

  lemma ConfusedIs(a: string, b: string, n: string)
    ensures Confused(a, b, n) ==
      Or([NewEqualsLiteralRule(n, None), And([NewEqualsRule([a + " = " + b]), Not(NewEqualsRule([a, b]))])])
  {
  }

  lemma AlwaysEqual(p: string, attrs: Attrs, s: S.Store)
    ensures S.Holds(Instantiate(NewEqualsRule([p]), attrs), s)
  {
    hide Format;
  }

  lemma Differ(a: string, b: string, attrs: Attrs, s: S.Store)
    requires Format(a, attrs) in s && Format(b, attrs) !in s
    ensures S.Holds(Instantiate(Not(NewEqualsRule([a, b])), attrs), s)
  {
    hide Format;
    var keys := Instantiate(NewEqualsRule([a, b]), attrs).keys;
    assert keys[0] == Format(a, attrs) && keys[1] == Format(b, attrs);
    assert S.Get(s, keys[0]) != S.Get(s, keys[1]);
  }
}
