/**
 * Key expansion (`Expand`, rules/dynamic_rule.go): replacing a rule by one copy per choice of
 * values for some of its parameters. Go iterates over maps in an unspecified order, so the
 * methods choose parameters arbitrarily and the results are stated for every order.
 */
module Expansion {
  import opened Paths
  import opened Matching
  import opened DynamicRules

  type ValueMap = map<string, seq<string>>

  /** Every parameter has at least one value, and values are plain segments. */
  predicate GoodValues(values: ValueMap) {
    forall n :: n in values ==> values[n] != [] && PlainAll(values[n])
  }

  // ---------------------------------------------------------------------------
  // Substitution, the meaning of one choice

  function FormatAll(patterns: seq<string>, values: Attrs): seq<string> {
    seq(|patterns|, i requires 0 <= i < |patterns| => Format(patterns[i], values))
  }

  /** All values written into the patterns at once; a leaf without such parameters is untouched. */
  ghost function Subst(r: Rule, values: Attrs): Rule {
    match r
    case And(rules) => And(seq(|rules|, i requires 0 <= i < |rules| => Subst(rules[i], values)))
    case Or(rules) => Or(seq(|rules|, i requires 0 <= i < |rules| => Subst(rules[i], values)))
    case Not(rule) => Not(Subst(rule, values))
    case _ => if Params(r) !! values.Keys then r else SubstLeaf(r, values)
  }

  ghost function SubstLeaf(r: Rule, values: Attrs): (q: Rule)
    requires r.IsLeaf()
    ensures q.IsLeaf()
  {
    var attrs := Restrict(values, Params(r)) + r.attrs;
    match r
    case LiteralLeaf(pattern, cmp, rep, _) => LiteralLeaf(Format(pattern, values), cmp, rep, attrs)
    case EqualsLeaf(patterns, rep, _) => EqualsLeaf(FormatAll(patterns, values), rep, attrs)
  }

  lemma FormatNames(pattern: string, values: Attrs)
    requires PlainAttrs(values)
    ensures Names(Segments(Format(pattern, values))) == Names(Segments(pattern)) - values.Keys
    ensures Segments(Format(pattern, values)) == Specialize(Segments(pattern), values)
  {
    SegmentsParsed(pattern);
    ParseOfFormat(Segments(pattern), values);
    SpecializeParsed(Segments(pattern), values);
  }

  lemma LeafParams(r: Rule, n: string)
    requires r.IsLeaf()
    ensures n in Params(r) <==> exists i :: 0 <= i < |LeafPatterns(r)| && n in Names(Segments(LeafPatterns(r)[i]))
  {
    if n in Params(r) {
      var p :| p in PatternSet(r) && n in Names(Segments(p));
    }
    if i :| 0 <= i < |LeafPatterns(r)| && n in Names(Segments(LeafPatterns(r)[i])) {
      assert LeafPatterns(r)[i] in PatternSet(r);
    }
  }

  lemma LeafPatternParams(r: Rule)
    requires r.IsLeaf()
    ensures forall p :: p in LeafPatterns(r) ==> Names(Segments(p)) <= Params(r)
  {
    forall p | p in LeafPatterns(r) ensures Names(Segments(p)) <= Params(r) {
      assert p in PatternSet(r);
    }
  }

  lemma SubstLeafParams(r: Rule, values: Attrs)
    requires r.IsLeaf() && PlainAttrs(values)
    ensures Params(SubstLeaf(r, values)) == Params(r) - values.Keys
  {
    var q := SubstLeaf(r, values);
    assert |LeafPatterns(q)| == |LeafPatterns(r)|;
    forall i | 0 <= i < |LeafPatterns(r)|
      ensures Names(Segments(LeafPatterns(q)[i])) == Names(Segments(LeafPatterns(r)[i])) - values.Keys
    {
      FormatNames(LeafPatterns(r)[i], values);
    }
    forall n ensures n in Params(q) <==> n in Params(r) - values.Keys {
      LeafParams(r, n);
      LeafParams(q, n);
    }
  }

  lemma CompoundParams(r: Rule, n: string)
    requires r.And? || r.Or?
    ensures n in Params(r) <==> exists i :: 0 <= i < |r.rules| && n in Params(r.rules[i])
  {
    if n in Params(r) {
      var p :| p in PatternSet(r) && n in Names(Segments(p));
      var i :| 0 <= i < |r.rules| && p in PatternSet(r.rules[i]);
      assert n in Params(r.rules[i]);
    }
    if i :| 0 <= i < |r.rules| && n in Params(r.rules[i]) { NestedParams(r, i); }
  }

  lemma {:induction false} SubstParams(r: Rule, values: Attrs)
    requires PlainAttrs(values)
    ensures Params(Subst(r, values)) == Params(r) - values.Keys
    decreases r
  {
    match r {
      case And(_) | Or(_) => CompoundSubstParams(r, values);
      case Not(rule) => SubstParams(rule, values);
      case _ => SubstLeafParams(r, values);
    }
  }

  lemma {:induction false} CompoundSubstParams(r: Rule, values: Attrs)
    requires (r.And? || r.Or?) && PlainAttrs(values)
    ensures Params(Subst(r, values)) == Params(r) - values.Keys
    decreases r, 0
  {
    var q := Subst(r, values);
    forall i | 0 <= i < |r.rules| ensures Params(q.rules[i]) == Params(r.rules[i]) - values.Keys {
      SubstParams(r.rules[i], values);
    }
    forall n ensures n in Params(q) <==> n in Params(r) - values.Keys {
      CompoundParams(r, n);
      CompoundParams(q, n);
    }
  }

  /** Only the rule's own parameters matter. */
  lemma {:induction false} SubstIgnoresOthers(r: Rule, a: Attrs, b: Attrs)
    requires forall n :: n in Params(r) ==> (n in a <==> n in b) && (n in a ==> a[n] == b[n])
    ensures Subst(r, a) == Subst(r, b)
    decreases r
  {
    hide Params, Format;
    match r {
      case And(_) | Or(_) =>
        forall i | 0 <= i < |r.rules| ensures Subst(r.rules[i], a) == Subst(r.rules[i], b) {
          NestedParams(r, i);
          SubstIgnoresOthers(r.rules[i], a, b);
        }
      case Not(rule) =>
        NestedParamsSmaller(r, rule);
        SubstIgnoresOthers(rule, a, b);
      case _ =>
        assert Restrict(a, Params(r)) == Restrict(b, Params(r));
        LeafPatternParams(r);
        forall p | p in LeafPatterns(r) ensures Format(p, a) == Format(p, b) {
          FormatIgnoresOthers(p, a, b, Params(r));
        }
    }
  }

  lemma {:induction false} SubstNothing(r: Rule, values: Attrs)
    requires Params(r) !! values.Keys
    ensures Subst(r, values) == r
    decreases r
  {
    match r {
      case And(_) | Or(_) =>
        forall i | 0 <= i < |r.rules| ensures Subst(r.rules[i], values) == r.rules[i] {
          NestedParams(r, i);
          SubstNothing(r.rules[i], values);
        }
      case Not(rule) => SubstNothing(rule, values);
      case _ =>
    }
  }

  /** Substituting one parameter and then others equals substituting all of them at once. */
  lemma {:induction false} SubstCompose(r: Rule, name: string, value: string, values: Attrs)
    requires Plain(value) && PlainAttrs(values) && name !in values
    ensures Subst(Subst(r, map[name := value]), values) == Subst(r, values[name := value])
    decreases r
  {
    var first, all := map[name := value], values[name := value];
    match r {
      case And(_) | Or(_) =>
        var q := Subst(r, first);
        forall i | 0 <= i < |r.rules| ensures Subst(q.rules[i], values) == Subst(r.rules[i], all) {
          SubstCompose(r.rules[i], name, value, values);
        }
      case Not(rule) => SubstCompose(rule, name, value, values);
      case _ =>
        if name !in Params(r) {
          SubstIgnoresOthers(r, values, all);
          assert Params(r) !! first.Keys;
        } else {
          LeafCompose(r, name, value, values);
        }
    }
  }

  lemma LeafCompose(r: Rule, name: string, value: string, values: Attrs)
    requires r.IsLeaf() && Plain(value) && PlainAttrs(values) && name !in values && name in Params(r)
    ensures Subst(SubstLeaf(r, map[name := value]), values) == SubstLeaf(r, values[name := value])
  {
    hide Params, Format, Segments, Names, SubstLeaf;
    var first, all := map[name := value], values[name := value];
    var q := SubstLeaf(r, first);
    SubstLeafParams(r, first);
    LeafPatternParams(r);
    if Params(q) !! values.Keys {
      forall p | p in LeafPatterns(r) ensures Format(p, first) == Format(p, all) {
        FormatIgnoresOthers(p, first, all, Params(r));
      }
      assert Restrict(first, Params(r)) == Restrict(all, Params(r));
      SameSubstLeaf(r, first, all);
    } else {
      forall p | p in LeafPatterns(r) ensures Format(Format(p, first), values) == Format(p, all) {
        FormatTwice(p, first, values);
        assert values + first == all;
      }
      assert Restrict(values, Params(q)) + (Restrict(first, Params(r)) + r.attrs) == Restrict(all, Params(r)) + r.attrs;
      SubstLeafTwice(r, first, values, all);
    }
  }

  lemma SameSubstLeaf(r: Rule, a: Attrs, b: Attrs)
    requires r.IsLeaf() && Restrict(a, Params(r)) == Restrict(b, Params(r))
    requires forall p :: p in LeafPatterns(r) ==> Format(p, a) == Format(p, b)
    ensures SubstLeaf(r, a) == SubstLeaf(r, b)
  {
    hide Params, Format;
  }

  lemma SubstLeafTwice(r: Rule, first: Attrs, values: Attrs, all: Attrs)
    requires r.IsLeaf() && forall p :: p in LeafPatterns(r) ==> Format(Format(p, first), values) == Format(p, all)
    requires Restrict(values, Params(SubstLeaf(r, first))) + (Restrict(first, Params(r)) + r.attrs)
          == Restrict(all, Params(r)) + r.attrs
    ensures SubstLeaf(SubstLeaf(r, first), values) == SubstLeaf(r, all)
  {
    hide Params, Format, Restrict;
  }

  lemma FormatTwice(p: string, first: Attrs, values: Attrs)
    requires PlainAttrs(first)
    ensures Format(Format(p, first), values) == Format(p, values + first)
  {
    FormatNames(p, first);
    RenderSpecialized(Segments(p), first, values);
  }

  lemma FormatIgnoresOthers(p: string, a: Attrs, b: Attrs, names: set<string>)
    requires Names(Segments(p)) <= names
    requires forall n :: n in names ==> (n in a <==> n in b) && (n in a ==> a[n] == b[n])
    ensures Format(p, a) == Format(p, b)
  {
    RenderIgnoresOthers(Segments(p), a, b);
  }

  // ---------------------------------------------------------------------------
  // Expansion

  /** A position in the value list of every parameter of the rule that has one. */
  type Choice = map<string, nat>

  ghost predicate ChoiceFor(r: Rule, values: ValueMap, c: Choice) {
    c.Keys == Params(r) * values.Keys && forall n :: n in c ==> c[n] < |values[n]|
  }

  ghost function Pick(values: ValueMap, c: Choice): (picked: Attrs)
    ensures GoodValues(values) ==> PlainAttrs(picked)
  {
    map n | n in c && n in values && c[n] < |values[n]| :: values[n][c[n]]
  }

  /** The output lists the substitutions of r, one per choice, each choice once. */
  ghost predicate ExpandedBy(r: Rule, values: ValueMap, out: seq<Rule>, choices: seq<Choice>) {
    && Substituted(r, values, out, choices)
    && (forall c :: ChoiceFor(r, values, c) ==> c in choices)
  }

  ghost predicate Substituted(r: Rule, values: ValueMap, out: seq<Rule>, choices: seq<Choice>) {
    && |out| == |choices|
    && (forall i :: 0 <= i < |out| ==> ChoiceFor(r, values, choices[i]) && out[i] == Subst(r, Pick(values, choices[i])))
    && (forall i, j :: 0 <= i < |choices| && 0 <= j < |choices| && choices[i] == choices[j] ==> i == j)
  }

  /**
   * `Expand` for leaves, AND, OR and NOT rules. It terminates because every round removes one
   * parameter that has values, and gives exactly one rule per choice, whatever the map order.
   */
  method Expand(r: Rule, values: ValueMap) returns (out: seq<Rule>, expanded: bool, ghost choices: seq<Choice>)
    requires GoodValues(values)
    ensures expanded <==> Params(r) * values.Keys != {}
    ensures ExpandedBy(r, values, out, choices) && out != []
    decreases |Params(r) * values.Keys|, 1, r
  {
    hide Params, ExpandedBy, Subst;
    if r.IsLeaf() {
      var candidates := Params(r) * values.Keys;
      if candidates != {} {
        var param :| param in candidates;
        var newRules := ExpandLeafOn(r, param, values[param]);
        out, choices := ExpandEach(r, values, param, newRules);
        return out, true, choices;
      }
    } else {
      var todo := values.Keys;
      while todo != {}
        invariant todo <= values.Keys
        invariant forall n :: n in values.Keys - todo ==> n !in Params(r)
        decreases todo
      {
        var key :| key in todo;
        todo := todo - {key};
        var newRules, keyExpansion := ExpandCompoundOn(r, key, values[key], values);
        if keyExpansion {
          assert key in Params(r) * values.Keys;
          out, choices := ExpandEach(r, values, key, newRules);
          return out, true, choices;
        }
      }
    }
    out, expanded, choices := [r], false, [map[]];
    ExpandNothing(r, values);
  }

  lemma ExpandNothing(r: Rule, values: ValueMap)
    requires Params(r) * values.Keys == {}
    ensures ExpandedBy(r, values, [r], [map[]])
  {
    SubstNothing(r, map[]);
    assert Pick(values, map[]) == map[];
    assert forall c :: ChoiceFor(r, values, c) ==> c == map[];
  }

  /** One new leaf per value, with the value written into every pattern. */
  method ExpandLeafOn(r: Rule, param: string, options: seq<string>) returns (newRules: seq<Rule>)
    requires r.IsLeaf() && param in Params(r)
    ensures |newRules| == |options|
    ensures forall j :: 0 <= j < |options| ==> newRules[j] == Subst(r, map[param := options[j]])
  {
    hide Params, Format, FormatAll, Subst;
    newRules := [];
    for j := 0 to |options|
      invariant |newRules| == j
      invariant forall k :: 0 <= k < j ==> newRules[k] == Subst(r, map[param := options[k]])
    {
      var attrs := map[param := options[j]];
      var newPatterns := FormatPatterns(LeafPatterns(r), attrs);
      NewLeafIsSubst(r, param, options[j]);
      newRules := newRules + [WithPatterns(r, newPatterns, attrs)];
    }
  }

  method FormatPatterns(patterns: seq<string>, attrs: Attrs) returns (out: seq<string>)
    ensures out == FormatAll(patterns, attrs)
  {
    hide Format;
    out := [];
    for i := 0 to |patterns|
      invariant |out| == i && forall k :: 0 <= k < i ==> out[k] == Format(patterns[k], attrs)
    {
      var formatted, _ := FormatPath(patterns[i], attrs);
      out := out + [formatted];
    }
  }

  /** The leaf over other patterns, with one more fixed attribute behind those it has. */
  function WithPatterns(r: Rule, patterns: seq<string>, attrs: Attrs): Rule
    requires r.IsLeaf() && |patterns| == |LeafPatterns(r)|
  {
    match r
    case LiteralLeaf(_, cmp, rep, fixed) => LiteralLeaf(patterns[0], cmp, rep, attrs + fixed)
    case EqualsLeaf(_, rep, fixed) => EqualsLeaf(patterns, rep, attrs + fixed)
  }

  lemma NewLeafIsSubst(r: Rule, param: string, value: string)
    requires r.IsLeaf() && param in Params(r)
    ensures |FormatAll(LeafPatterns(r), map[param := value])| == |LeafPatterns(r)|
    ensures var attrs := map[param := value];
      WithPatterns(r, FormatAll(LeafPatterns(r), attrs), attrs) == Subst(r, attrs)
  {
    hide Params, Format;
    assert Restrict(map[param := value], Params(r)) == map[param := value];
  }

  ghost predicate NestedIn(r: Rule, nested: seq<Rule>) {
    if r.Not? then nested == [r.rule] else !r.IsLeaf() && nested == r.rules
  }

  /** One new compound per value, each nested rule expanded with that single value. */
  method ExpandCompoundOn(r: Rule, key: string, options: seq<string>, ghost values: ValueMap)
    returns (newRules: seq<Rule>, keyExpansion: bool)
    requires !r.IsLeaf() && GoodValues(values) && key in values && options == values[key]
    ensures |newRules| == |options|
    ensures forall j :: 0 <= j < |options| ==> newRules[j] == Subst(r, map[key := options[j]])
    ensures keyExpansion <==> key in Params(r)
    decreases |Params(r) * values.Keys|, 1, r, 1
  {
    hide Params, Subst;
    newRules, keyExpansion := [], false;
    for j := 0 to |options|
      invariant |newRules| == j
      invariant forall k :: 0 <= k < j ==> newRules[k] == Subst(r, map[key := options[k]])
      invariant keyExpansion <==> j > 0 && key in Params(r)
    {
      var newRule, anyExpanded := ExpandOnValue(r, key, options[j], values);
      if anyExpanded { keyExpansion := true; }
      newRules := newRules + [newRule];
    }
  }

  method ExpandOnValue(r: Rule, key: string, value: string, ghost values: ValueMap)
    returns (newRule: Rule, anyExpanded: bool)
    requires !r.IsLeaf() && GoodValues(values) && key in values && Plain(value)
    ensures newRule == Subst(r, map[key := value])
    ensures anyExpanded <==> key in Params(r)
    decreases |Params(r) * values.Keys|, 1, r, 0, 2
  {
    hide Params, Subst;
    var newNested;
    newNested, anyExpanded := ExpandNestedOn(r, if r.Not? then [r.rule] else r.rules, key, value, values);
    RebuildIsSubst(r, newNested, map[key := value]);
    newRule := Rebuild(r, newNested);
  }

  /** The constructor that the compound passes to its own expansion. */
  function Rebuild(r: Rule, nested: seq<Rule>): Rule
    requires !r.IsLeaf() && (r.Not? ==> nested != [])
  {
    match r
    case And(_) => And(nested)
    case Or(_) => Or(nested)
    case Not(_) => Not(nested[0])
  }

  lemma RebuildIsSubst(r: Rule, newNested: seq<Rule>, values: Attrs)
    requires !r.IsLeaf()
    requires var nested := if r.Not? then [r.rule] else r.rules;
      |newNested| == |nested| && forall i :: 0 <= i < |nested| ==> newNested[i] == Subst(nested[i], values)
    ensures Rebuild(r, newNested) == Subst(r, values)
  {
    hide Params;
    if !r.Not? { assert newNested == Subst(r, values).rules; }
  }

  method ExpandNestedOn(ghost r: Rule, nested: seq<Rule>, key: string, value: string, ghost values: ValueMap)
    returns (newNested: seq<Rule>, anyExpanded: bool)
    requires NestedIn(r, nested) && GoodValues(values) && key in values && Plain(value)
    ensures |newNested| == |nested|
    ensures forall i :: 0 <= i < |nested| ==> newNested[i] == Subst(nested[i], map[key := value])
    ensures anyExpanded <==> key in Params(r)
    decreases |Params(r) * values.Keys|, 1, r, 0, 1
  {
    hide Params, Subst;
    newNested, anyExpanded := [], false;
    for i := 0 to |nested|
      invariant |newNested| == i && forall k :: 0 <= k < i ==> newNested[k] == Subst(nested[k], map[key := value])
      invariant anyExpanded <==> exists k :: 0 <= k < i && key in Params(nested[k])
    {
      var rule, gotExpanded := ExpandWithValue(r, nested[i], key, value, values);
      if gotExpanded { anyExpanded := true; }
      newNested := newNested + [rule];
    }
    AnyNestedParam(r, nested, key);
  }

  /** A nested rule expanded with one value for one parameter; its first result is its only one. */
  method ExpandWithValue(ghost r: Rule, nested: Rule, key: string, value: string, ghost values: ValueMap)
    returns (rule: Rule, gotExpanded: bool)
    requires if r.Not? then nested == r.rule else !r.IsLeaf() && nested in r.rules
    requires key in values && Plain(value)
    ensures rule == Subst(nested, map[key := value])
    ensures gotExpanded <==> key in Params(nested)
    decreases |Params(r) * values.Keys|, 1, r, 0, 0
  {
    hide Params, Subst, ExpandedBy;
    SmallerCandidates(r, nested, key, values);
    assert map[key := [value]].Keys == {key};
    var out, got, choices := Expand(nested, map[key := [value]]);
    SingleChoice(nested, key, value, out, choices);
    rule, gotExpanded := out[0], got;
  }

  lemma AnyNestedParam(r: Rule, nested: seq<Rule>, key: string)
    requires NestedIn(r, nested)
    ensures key in Params(r) <==> exists k :: 0 <= k < |nested| && key in Params(nested[k])
  {
    if r.Not? {
      assert Params(nested[0]) == Params(r);
    } else {
      CompoundParams(r, key);
    }
  }

  lemma SmallerCandidates(r: Rule, nested: Rule, key: string, values: ValueMap)
    requires key in values && (if r.Not? then nested == r.rule else !r.IsLeaf() && nested in r.rules)
    ensures |Params(nested) * {key}| <= |Params(r) * values.Keys|
  {
    hide Params;
    assert Params(nested) <= Params(r) by { NestedParamsSmaller(r, nested); }
    SubsetSize(Params(nested) * {key}, Params(r) * values.Keys);
  }

  lemma NestedParamsSmaller(r: Rule, nested: Rule)
    requires if r.Not? then nested == r.rule else !r.IsLeaf() && nested in r.rules
    ensures Params(nested) <= Params(r)
  {
    if !r.Not? {
      var i :| 0 <= i < |r.rules| && r.rules[i] == nested;
      NestedParams(r, i);
    }
  }

  lemma SubsetSize<T>(a: set<T>, b: set<T>)
    requires a <= b
    ensures |a| <= |b|
  {
    assert b == a + (b - a);
  }

  /** Expanding with a single value always gives exactly one rule, so taking the first is safe. */
  lemma SingleChoice(r: Rule, key: string, value: string, out: seq<Rule>, choices: seq<Choice>)
    requires Plain(value) && ExpandedBy(r, map[key := [value]], out, choices)
    ensures |out| == 1 && out[0] == Subst(r, map[key := value])
  {
    hide Params, Subst, ChoiceFor, Pick;
    var values := map[key := [value]];
    var c := OnlyChoice(r, key, value);
    assert ChoiceFor(r, values, c) && c in choices;
    assert forall i :: 0 <= i < |choices| ==> choices[i] == c;
    assert choices[|choices| - 1] == c && choices[0] == c;
    assert out[0] == Subst(r, Pick(values, c));
  }

  lemma OnlyChoice(r: Rule, key: string, value: string) returns (c: Choice)
    ensures forall d :: ChoiceFor(r, map[key := [value]], d) <==> d == c
    ensures Subst(r, Pick(map[key := [value]], c)) == Subst(r, map[key := value])
  {
    hide Params, Subst;
    var values := map[key := [value]];
    c := if key in Params(r) then map[key := 0] else map[];
    assert ChoiceFor(r, values, c);
    assert forall d :: ChoiceFor(r, values, d) ==> d == c;
    SubstIgnoresOthers(r, Pick(values, c), map[key := value]);
  }

  /** The rounds after one parameter has been given each of its values. */
  method ExpandEach(r: Rule, values: ValueMap, key: string, newRules: seq<Rule>)
    returns (out: seq<Rule>, ghost choices: seq<Choice>)
    requires GoodValues(values) && key in Params(r) && key in values
    requires |newRules| == |values[key]|
    requires forall j :: 0 <= j < |newRules| ==> newRules[j] == Subst(r, map[key := values[key][j]])
    ensures ExpandedBy(r, values, out, choices) && out != []
    decreases |Params(r) * values.Keys|, 0
  {
    out, choices := [], [];
    for j := 0 to |newRules|
      invariant ExpandedUpTo(r, values, key, j, out, choices)
      invariant j > 0 ==> out != []
    {
      FewerCandidates(r, values, key, values[key][j]);
      var expandedRules, _, c := Expand(newRules[j], values);
      ExtendChoices(r, values, key, j, expandedRules, c);
      AppendExpansions(r, values, key, j, out, choices, expandedRules, WithChoice(c, key, j));
      out := out + expandedRules;
      choices := choices + WithChoice(c, key, j);
    }
  }

  lemma FewerCandidates(r: Rule, values: ValueMap, key: string, value: string)
    requires key in Params(r) && key in values && Plain(value)
    ensures |Params(Subst(r, map[key := value])) * values.Keys| < |Params(r) * values.Keys|
  {
    hide *;
    SubstParams(r, map[key := value]);
    assert Params(Subst(r, map[key := value])) * values.Keys == Params(r) * values.Keys - {key};
  }

  ghost function Without(c: Choice, key: string): Choice { map n | n in c && n != key :: c[n] }

  ghost function WithChoice(choices: seq<Choice>, key: string, j: nat): seq<Choice> {
    seq(|choices|, i requires 0 <= i < |choices| => choices[i][key := j])
  }

  /** Everything whose choice for key is below j. */
  ghost predicate ExpandedUpTo(r: Rule, values: ValueMap, key: string, j: nat, out: seq<Rule>, choices: seq<Choice>) {
    && Substituted(r, values, out, choices)
    && (forall i :: 0 <= i < |choices| ==> key in choices[i] && choices[i][key] < j)
    && (forall c :: ChoiceFor(r, values, c) && key in c && c[key] < j ==> c in choices)
  }

  lemma ExtendChoices(r: Rule, values: ValueMap, key: string, j: nat, out: seq<Rule>, choices: seq<Choice>)
    requires GoodValues(values) && key in Params(r) && key in values && j < |values[key]|
    requires ExpandedBy(Subst(r, map[key := values[key][j]]), values, out, choices)
    ensures Substituted(r, values, out, WithChoice(choices, key, j))
    ensures forall c :: ChoiceFor(r, values, c) && c[key] == j ==> c in WithChoice(choices, key, j)
  {
    hide Params, Subst, ChoiceFor, Pick;
    var q := Subst(r, map[key := values[key][j]]);
    var ext := WithChoice(choices, key, j);
    forall i | 0 <= i < |out|
      ensures ChoiceFor(r, values, ext[i]) && out[i] == Subst(r, Pick(values, ext[i]))
      ensures Without(ext[i], key) == choices[i]
    {
      ExtendChoice(r, values, key, j, choices[i]);
    }
    forall c | ChoiceFor(r, values, c) && key in c && c[key] == j ensures c in ext {
      ShrinkChoice(r, values, key, j, c);
      var i :| 0 <= i < |choices| && choices[i] == Without(c, key);
      assert ext[i] == choices[i][key := j];
    }
    assert forall c :: ChoiceFor(r, values, c) ==> key in c by { ChoiceHasKey(r, values, key); }
  }

  lemma ChoiceHasKey(r: Rule, values: ValueMap, key: string)
    requires key in Params(r) && key in values
    ensures forall c :: ChoiceFor(r, values, c) ==> key in c
  {
    hide Params;
  }

  lemma ExtendChoice(r: Rule, values: ValueMap, key: string, j: nat, c: Choice)
    requires GoodValues(values) && key in Params(r) && key in values && j < |values[key]|
    requires ChoiceFor(Subst(r, map[key := values[key][j]]), values, c)
    ensures ChoiceFor(r, values, c[key := j]) && Without(c[key := j], key) == c
    ensures Subst(Subst(r, map[key := values[key][j]]), Pick(values, c)) == Subst(r, Pick(values, c[key := j]))
  {
    hide Params, Subst, ChoiceFor, Pick;
    var value := values[key][j];
    ExtendedFits(r, values, key, j, c);
    PickMore(values, key, j, c);
    SubstCompose(r, key, value, Pick(values, c));
  }

  lemma ExtendedFits(r: Rule, values: ValueMap, key: string, j: nat, c: Choice)
    requires GoodValues(values) && key in Params(r) && key in values && j < |values[key]|
    requires ChoiceFor(Subst(r, map[key := values[key][j]]), values, c)
    ensures ChoiceFor(r, values, c[key := j]) && Without(c[key := j], key) == c && key !in c
  {
    hide Params, Subst, Plain;
    var q := Subst(r, map[key := values[key][j]]);
    SubstParams(r, map[key := values[key][j]]);
    assert Params(r) * values.Keys == Params(q) * values.Keys + {key};
  }

  lemma PickMore(values: ValueMap, key: string, j: nat, c: Choice)
    requires key in values && j < |values[key]|
    ensures Pick(values, c[key := j]) == Pick(values, c)[key := values[key][j]]
    ensures key !in c ==> key !in Pick(values, c)
  {
  }

  lemma ShrinkChoice(r: Rule, values: ValueMap, key: string, j: nat, c: Choice)
    requires GoodValues(values) && key in values && j < |values[key]|
    requires ChoiceFor(r, values, c) && key in c && c[key] == j
    ensures ChoiceFor(Subst(r, map[key := values[key][j]]), values, Without(c, key))
    ensures Without(c, key)[key := j] == c
  {
    hide Params, Subst;
    SubstParams(r, map[key := values[key][j]]);
  }

  lemma AppendExpansions(r: Rule, values: ValueMap, key: string, j: nat, out: seq<Rule>, choices: seq<Choice>,
                         more: seq<Rule>, ext: seq<Choice>)
    requires ExpandedUpTo(r, values, key, j, out, choices)
    requires Substituted(r, values, more, ext) && forall i :: 0 <= i < |ext| ==> key in ext[i] && ext[i][key] == j
    requires forall c :: ChoiceFor(r, values, c) && key in c && c[key] == j ==> c in ext
    ensures ExpandedUpTo(r, values, key, j + 1, out + more, choices + ext)
  {
    hide ChoiceFor, Subst, Pick;
    var all, list := out + more, choices + ext;
    forall i | 0 <= i < |all|
      ensures ChoiceFor(r, values, list[i]) && all[i] == Subst(r, Pick(values, list[i])) && key in list[i]
      ensures list[i][key] < j + 1
    {
      if i >= |out| { assert list[i] == ext[i - |out|] && all[i] == more[i - |out|]; }
    }
    forall a, b | 0 <= a < |list| && 0 <= b < |list| && list[a] == list[b] ensures a == b {
      assert list[a][key] < j <==> a < |out|;
      assert list[b][key] < j <==> b < |out|;
    }
    forall c | ChoiceFor(r, values, c) && key in c && c[key] < j + 1 ensures c in list {
      if c[key] == j { assert c in ext; } else { assert c in choices; }
    }
  }
}
