/**
 * What expansion (rules/dynamic_rule.go) does to the meaning of a rule: when the expanded rule
 * builds, for a trigger key, the same instance as the rule it came from.
 */
module ExpansionMeaning {
  import opened Base
  import opened Paths
  import opened Matching
  import opened DynamicRules
  import opened Expansion
  import S = StaticRules
  import Q = QuadState

  ghost predicate Agrees(attrs: Attrs, values: Attrs, names: set<string>) {
    forall n :: n in names && n in values ==> n in attrs && attrs[n] == values[n]
  }

  lemma {:induction false} InstantiateSubst(r: Rule, values: Attrs, attrs: Attrs)
    requires PlainAttrs(values) && Agrees(attrs, values, Params(r))
    ensures Instantiate(Subst(r, values), attrs) == Instantiate(r, attrs)
    decreases r
  {
    match r {
      case And(_) | Or(_) =>
        forall i | 0 <= i < |r.rules|
          ensures Instantiate(Subst(r.rules[i], values), attrs) == Instantiate(r.rules[i], attrs)
        {
          NestedParams(r, i);
          InstantiateSubst(r.rules[i], values, attrs);
        }
      case Not(rule) => InstantiateSubst(rule, values, attrs);
      case _ => if !(Params(r) !! values.Keys) { InstantiateSubstLeaf(r, values, attrs); }
    }
  }

  lemma InstantiateSubstLeaf(r: Rule, values: Attrs, attrs: Attrs)
    requires r.IsLeaf() && PlainAttrs(values) && Agrees(attrs, values, Params(r))
    ensures Instantiate(SubstLeaf(r, values), attrs) == Instantiate(r, attrs)
  {
    hide Params, Format;
    LeafPatternParams(r);
    forall p | p in LeafPatterns(r) ensures Format(Format(p, values), attrs) == Format(p, attrs) {
      FormatTwice(p, values, attrs);
      FormatIgnoresOthers(p, attrs + values, attrs, Params(r));
    }
  }

  /**
   * A literal leaf and its substitution: the substituted leaf fires on a key exactly when the
   * leaf does and binds the parameters to those values, and the two instances are equal.
   */
  lemma LeafFires(r: Rule, values: Attrs, key: string)
    requires r.LiteralLeaf? && r.attrs == map[] && PlainAttrs(values)
    ensures Triggers(Subst(r, values), key) <==>
      Triggers(r, key) && Agrees(MakeStatic(r, key).value.attrs, values, Params(r))
    ensures Triggers(Subst(r, values), key) ==> MakeStatic(Subst(r, values), key) == MakeStatic(r, key)
  {
    hide *;
    var q := Subst(r, values);
    SubstitutedLeaf(r, values);
    LeafTriggers(r, key);
    LeafTriggers(q, key);
    SegmentsParsed(r.pattern);
    SpecializedFires(Segments(r.pattern), values, key);
    assert Triggers(q, key) <==> FiresWith(Segments(r.pattern), values, key);
    FiringAgrees(r, values, key);
    if Triggers(q, key) {
      assert MatchKey(Segments(q.pattern), key).value + q.attrs == MatchKey(Segments(r.pattern), key).value + r.attrs;
    }
  }

  lemma FiringAgrees(r: Rule, values: Attrs, key: string)
    requires r.LiteralLeaf? && r.attrs == map[]
    requires Triggers(r, key) <==> FormatsBack(Segments(r.pattern), key)
    requires Triggers(r, key) ==>
      MakeStatic(r, key) == Some(Instance(S.Literal(key, r.cmp), MatchKey(Segments(r.pattern), key).value + r.attrs))
    ensures FiresWith(Segments(r.pattern), values, key) <==>
      Triggers(r, key) && Agrees(MakeStatic(r, key).value.attrs, values, Params(r))
    ensures MatchKey(Segments(r.pattern), key).Some? ==>
      MatchKey(Segments(r.pattern), key).value + r.attrs == MatchKey(Segments(r.pattern), key).value
  {
    hide Triggers, MakeStatic, MatchKey;
    assert Params(r) == Names(Segments(r.pattern));
  }

  /** The shape of a substituted literal leaf, with or without a parameter that has a value. */
  lemma SubstitutedLeaf(r: Rule, values: Attrs)
    requires r.LiteralLeaf? && r.attrs == map[] && PlainAttrs(values)
    ensures var q := Subst(r, values);
      && q.LiteralLeaf? && q.cmp == r.cmp
      && Segments(q.pattern) == Specialize(Segments(r.pattern), values)
      && q.attrs == Restrict(values, Names(Segments(r.pattern)))
  {
    hide Segments, Names, Render;
    assert Params(r) == Names(Segments(r.pattern));
    if Params(r) !! values.Keys {
      SpecializeNothing(Segments(r.pattern), values);
      assert Restrict(values, Names(Segments(r.pattern))) == map[];
    } else {
      FormatNames(r.pattern, values);
    }
  }

  lemma {:induction false} SpecializeNothing(segs: seq<Segment>, values: Attrs)
    requires Names(segs) !! values.Keys
    ensures Specialize(segs, values) == segs
  {
    if segs != [] {
      SpecializeNothing(segs[1..], values);
      assert Specialize(segs, values) == [segs[0]] + Specialize(segs[1..], values);
    }
  }

  /** Expanded attributes stay plain and stay out of the patterns. */
  lemma {:induction false} SubstSound(r: Rule, values: Attrs)
    requires Sound(r) && PlainAttrs(values)
    ensures Sound(Subst(r, values))
    decreases r
  {
    hide Params;
    match r {
      case And(_) | Or(_) =>
        var q := Subst(r, values);
        forall i | 0 <= i < |r.rules| ensures Sound(q.rules[i]) { SubstSound(r.rules[i], values); }
      case Not(rule) => SubstSound(rule, values);
      case _ => SubstLeafParams(r, values);
    }
  }

  // ---------------------------------------------------------------------------
  // Equality leaves

  /** The first pattern that still matches the key once the values are written in. */
  ghost function FirstMatchUnder(patterns: seq<string>, values: Attrs, key: string): Option<Attrs> {
    if patterns == [] then None
    else
      var m := MatchKey(Specialize(Segments(patterns[0]), values), key);
      if m.Some? then m else FirstMatchUnder(patterns[1..], values, key)
  }

  lemma FormatAllCons(patterns: seq<string>, values: Attrs)
    requires patterns != []
    ensures var all := FormatAll(patterns, values);
      all != [] && all[0] == Format(patterns[0], values) && all[1..] == FormatAll(patterns[1..], values)
  {
    hide Format;
  }

  lemma FirstMatchUnfold(patterns: seq<string>, key: string)
    requires patterns != []
    ensures var m := MatchKey(Segments(patterns[0]), key);
      FirstMatch(patterns, key) == if m.Some? then m else FirstMatch(patterns[1..], key)
  {
    hide Segments, MatchKey;
  }

  lemma FirstMatchUnderUnfold(patterns: seq<string>, values: Attrs, key: string)
    requires patterns != []
    ensures var m := MatchKey(Specialize(Segments(patterns[0]), values), key);
      FirstMatchUnder(patterns, values, key) == if m.Some? then m else FirstMatchUnder(patterns[1..], values, key)
  {
    hide Segments, MatchKey, Specialize;
  }

  lemma {:induction false} FirstMatchOfFormats(patterns: seq<string>, values: Attrs, key: string)
    requires PlainAttrs(values)
    ensures FirstMatch(FormatAll(patterns, values), key) == FirstMatchUnder(patterns, values, key)
  {
    if patterns != [] {
      FormatAllCons(patterns, values);
      hide *;
      FormatNames(patterns[0], values);
      FirstMatchOfFormats(patterns[1..], values, key);
      FirstMatchUnfold(FormatAll(patterns, values), key);
      FirstMatchUnderUnfold(patterns, values, key);
    }
  }

  /** The match of an equality leaf survives the substitution of values that it binds. */
  lemma {:induction false} FirstMatchKept(patterns: seq<string>, values: Attrs, key: string, names: set<string>)
    requires PlainAttrs(values) && FirstMatch(patterns, key).Some?
    requires Agrees(FirstMatch(patterns, key).value, values, names)
    requires forall p :: p in patterns ==> Distinct(Segments(p)) && Names(Segments(p)) <= names
    ensures FirstMatchUnder(patterns, values, key).Some?
    ensures FirstMatch(patterns, key).value == FirstMatchUnder(patterns, values, key).value + Restrict(values, names)
  {
    hide Segments, MatchKey, Specialize, Distinct, Names;
    var segs := Segments(patterns[0]);
    SegmentsParsed(patterns[0]);
    SpecializedMatches(segs, values, key);
    if MatchKey(segs, key).Some? {
      assert MatchesWith(segs, values, key) by { assert patterns[0] in patterns; }
      MatchBinds(segs, key);
      assert Restrict(values, Names(segs)) == Restrict(values, names);
    } else {
      FirstMatchKept(patterns[1..], values, key, names);
    }
  }

  /** A substituted equality leaf, with or without a parameter that has a value. */
  lemma SubstitutedEquals(r: Rule, values: Attrs, key: string)
    requires r.EqualsLeaf? && r.attrs == map[] && PlainAttrs(values)
    ensures var q := Subst(r, values);
      && q.EqualsLeaf? && q.attrs == Restrict(values, Params(r))
      && FirstMatch(q.patterns, key) == FirstMatchUnder(r.patterns, values, key)
  {
    hide Params, Format, Segments;
    if Params(r) !! values.Keys {
      assert Restrict(values, Params(r)) == map[];
      LeafPatternParams(r);
      FirstMatchUntouched(r.patterns, values, key);
    } else {
      FirstMatchOfFormats(r.patterns, values, key);
    }
  }

  lemma {:induction false} FirstMatchUntouched(patterns: seq<string>, values: Attrs, key: string)
    requires forall p :: p in patterns ==> Names(Segments(p)) !! values.Keys
    ensures FirstMatch(patterns, key) == FirstMatchUnder(patterns, values, key)
  {
    if patterns != [] {
      hide Segments, Names, MatchKey, Specialize;
      assert patterns[0] in patterns;
      SpecializeNothing(Segments(patterns[0]), values);
      FirstMatchUntouched(patterns[1..], values, key);
    }
  }

  /** The instance of a substituted equality leaf, in terms of the original. */
  lemma EqualsUnder(r: Rule, values: Attrs, key: string)
    requires r.EqualsLeaf? && r.attrs == map[] && PlainAttrs(values)
    ensures var m, q := FirstMatchUnder(r.patterns, values, key), MakeStatic(Subst(r, values), key);
      if m.None? then q.None?
      else var attrs := m.value + Restrict(values, Params(r)); q == Some(Instance(Instantiate(r, attrs), attrs))
  {
    hide Params, Instantiate, FirstMatch, FirstMatchUnder, Sound;
    SubstitutedEquals(r, values, key);
    var q := Subst(r, values);
    if FirstMatchUnder(r.patterns, values, key).Some? {
      var attrs := FirstMatchUnder(r.patterns, values, key).value + Restrict(values, Params(r));
      UnexpandedIsSound(r);
      SubstSound(r, values);
      InstanceIsInstantiation(q, key);
      InstantiateSubst(r, values, attrs);
    }
  }

  /**
   * An equality leaf and its substitution: a key that the leaf matches with the chosen values
   * gives the same instance, although the patterns compete for unanchored matches.
   */
  lemma EqualsLeafKept(r: Rule, values: Attrs, key: string)
    requires r.EqualsLeaf? && r.attrs == map[] && PlainAttrs(values)
    requires forall p :: p in r.patterns ==> Distinct(Segments(p))
    requires MakeStatic(r, key).Some? && Agrees(MakeStatic(r, key).value.attrs, values, Params(r))
    ensures MakeStatic(Subst(r, values), key) == MakeStatic(r, key)
  {
    hide Params, Instantiate, FirstMatch, FirstMatchUnder, Distinct, Segments;
    var m := FirstMatch(r.patterns, key).value;
    assert m + r.attrs == m;
    LeafPatternParams(r);
    FirstMatchKept(r.patterns, values, key, Params(r));
    EqualsUnder(r, values, key);
  }

  // ---------------------------------------------------------------------------
  // Compounds

  /** All leaves of the rule have the same parameters. */
  ghost predicate SameParams(r: Rule) {
    forall p :: p in PatternSet(r) ==> Names(Segments(p)) == Params(r)
  }

  /** Below the topmost AND or OR, every nested rule has the same parameters in all its leaves. */
  ghost predicate NestedSameParams(r: Rule) {
    match r
    case And(_) | Or(_) => forall i :: 0 <= i < |r.rules| ==> SameParams(r.rules[i])
    case Not(rule) => NestedSameParams(rule)
    case _ => true
  }

  lemma NestedSame(r: Rule, i: nat)
    requires (r.And? || r.Or?) && i < |r.rules| && SameParams(r)
    ensures SameParams(r.rules[i])
  {
    NestedParams(r, i);
    forall p | p in PatternSet(r.rules[i]) ensures Names(Segments(p)) == Params(r.rules[i]) {
      assert Names(Segments(p)) <= Params(r.rules[i]);
    }
  }

  lemma NestedSameNot(r: Rule)
    requires r.Not? && SameParams(r)
    ensures SameParams(r.rule)
  {
  }

  lemma {:induction false} SameIsNestedSame(r: Rule)
    requires SameParams(r)
    ensures NestedSameParams(r)
    decreases r
  {
    match r {
      case And(_) | Or(_) => forall i | 0 <= i < |r.rules| ensures SameParams(r.rules[i]) { NestedSame(r, i); }
      case Not(rule) => SameIsNestedSame(rule);
      case _ =>
    }
  }

  /** With the same parameters everywhere, a compound triggers as soon as one nested rule does. */
  lemma CompoundTriggers(r: Rule, key: string, j: nat)
    requires (r.And? || r.Or?) && PlainLiteralTree(r) && SameParams(r)
    requires j < |r.rules| && Triggers(r.rules[j], key)
    ensures Triggers(r, key)
  {
    SomeTrigger(r.rules, key, j);
    var i := FirstTriggerIndex(r.rules, key);
    var p := InstanceBindsAll(r.rules[i], key);
    NestedParams(r, i);
    assert MakeStatic(r, key).Some?;
    PlainTreeUnexpanded(r.rules[i]);
    UnexpandedIsSound(r.rules[i]);
    InstanceIsInstantiation(r.rules[i], key);
    assert S.Satisfiable(MakeStatic(r, key).value.rule.rules[i], key);
  }

  lemma {:induction false} SomeTrigger(rules: seq<Rule>, key: string, j: nat)
    requires j < |rules| && Triggers(rules[j], key)
    ensures FirstTrigger(rules, key).Some?
  {
    if j > 0 && !Triggers(rules[0], key) { SomeTrigger(rules[1..], key, j - 1); }
  }

  /** Where parameters are the same everywhere, substitution cannot make a rule fire on new keys. */
  lemma {:induction false} SubstFiresLess(r: Rule, values: Attrs, key: string)
    requires PlainLiteralTree(r) && SameParams(r) && PlainAttrs(values)
    requires Triggers(Subst(r, values), key)
    ensures Triggers(r, key)
    decreases r
  {
    match r {
      case And(_) | Or(_) =>
        var j := FirstTriggerIndex(Subst(r, values).rules, key);
        NestedSame(r, j);
        SubstFiresLess(r.rules[j], values, key);
        CompoundTriggers(r, key, j);
      case Not(rule) =>
        NotTriggers(Subst(r, values), key);
        SubstFiresLess(rule, values, key);
        NotTriggers(r, key);
      case LiteralLeaf(_, _, _, _) => LeafFires(r, values, key);
    }
  }

  lemma NotTriggers(r: Rule, key: string)
    requires r.Not?
    ensures Triggers(r, key) <==> Triggers(r.rule, key)
  {
    if MakeStatic(r.rule, key).Some? { S.SatisfiableIsKeyMatch(MakeStatic(r.rule, key).value.rule, key); }
  }

  /**
   * What keeps an instance through expansion: equality leaves with distinct parameters in each
   * pattern, and in every AND and OR, before the last nested rule, only literal leaves with the
   * same parameters throughout each nested rule.
   */
  ghost predicate Expandable(r: Rule) {
    match r
    case LiteralLeaf(_, _, _, attrs) => attrs == map[]
    case EqualsLeaf(patterns, _, attrs) => attrs == map[] && forall p :: p in patterns ==> Distinct(Segments(p))
    case And(_) | Or(_) =>
      && (forall i :: 0 <= i < |r.rules| ==> Expandable(r.rules[i]))
      && (forall i :: 0 <= i < |r.rules| - 1 ==> PlainLiteralTree(r.rules[i]) && SameParams(r.rules[i]))
    case Not(rule) => Expandable(rule)
  }

  lemma {:induction false} ExpandableUnexpanded(r: Rule)
    requires Expandable(r)
    ensures Unexpanded(r)
    decreases r
  {
    match r {
      case And(_) | Or(_) =>
        forall i | 0 <= i < |r.rules| ensures Unexpanded(r.rules[i]) { ExpandableUnexpanded(r.rules[i]); }
      case Not(rule) => ExpandableUnexpanded(rule);
      case _ =>
    }
  }

  /** Literal leaves are enough when every nested rule has the same parameters throughout. */
  lemma {:induction false} SameParamsExpandable(r: Rule)
    requires PlainLiteralTree(r) && NestedSameParams(r)
    ensures Expandable(r)
    decreases r
  {
    hide SameParams;
    match r {
      case And(_) | Or(_) =>
        forall i | 0 <= i < |r.rules| ensures Expandable(r.rules[i]) {
          SameIsNestedSame(r.rules[i]);
          SameParamsExpandable(r.rules[i]);
        }
      case Not(rule) => SameParamsExpandable(rule);
      case _ =>
    }
  }

  /**
   * Substitution preserves meaning: a key that triggers the original with attributes in the
   * chosen values gives, from the substituted rule, the very same instance.
   */
  lemma {:induction false} SubstPreserves(r: Rule, values: Attrs, key: string)
    requires Expandable(r) && PlainAttrs(values)
    requires Triggers(r, key) && Agrees(MakeStatic(r, key).value.attrs, values, Params(r))
    ensures MakeStatic(Subst(r, values), key) == MakeStatic(r, key)
    decreases r
  {
    hide Params, Instantiate, Segments, Matching.Distinct;
    match r {
      case And(_) | Or(_) => CompoundPreserves(r, values, key);
      case Not(rule) =>
        NotTriggers(r, key);
        NestedParamsSmaller(r, rule);
        SubstPreserves(rule, values, key);
      case LiteralLeaf(_, _, _, _) => LeafFires(r, values, key);
      case EqualsLeaf(_, _, _) => EqualsLeafKept(r, values, key);
    }
  }

  lemma {:induction false} CompoundPreserves(r: Rule, values: Attrs, key: string)
    requires (r.And? || r.Or?) && Expandable(r) && PlainAttrs(values)
    requires MakeStatic(r, key).Some? && Agrees(MakeStatic(r, key).value.attrs, values, Params(r))
    ensures MakeStatic(Subst(r, values), key) == MakeStatic(r, key)
    decreases r, 0
  {
    hide Params, SameParams, PlainLiteralTree, Instantiate;
    var q := Subst(r, values);
    var inst := MakeStatic(r, key).value;
    var j := FirstTriggerIndex(r.rules, key);
    NestedParams(r, j);
    SubstPreserves(r.rules[j], values, key);
    forall i | 0 <= i < j ensures !Triggers(q.rules[i], key) {
      if Triggers(q.rules[i], key) { SubstFiresLess(r.rules[i], values, key); }
    }
    FirstTriggerIs(q.rules, key, j);
    SubstParams(r, values);
    InstantiateSubst(r, values, inst.attrs);
  }

  ghost function IndexOf(s: seq<string>, x: string): (i: nat)
    requires x in s
    ensures i < |s| && s[i] == x
  {
    if s[0] == x then 0 else 1 + IndexOf(s[1..], x)
  }

  /** For a literal leaf with duplicate-free value lists, exactly one expanded rule fires. */
  lemma ExpandedLeafFiresOnce(r: Rule, values: ValueMap, out: seq<Rule>, choices: seq<Choice>, key: string, i: nat,
                              j: nat)
    requires r.LiteralLeaf? && r.attrs == map[] && GoodValues(values) && ExpandedBy(r, values, out, choices)
    requires forall n, a, b :: n in values && 0 <= a < b < |values[n]| ==> values[n][a] != values[n][b]
    requires i < |out| && j < |out| && Triggers(out[i], key) && Triggers(out[j], key)
    ensures i == j && Triggers(r, key) && MakeStatic(out[i], key) == MakeStatic(r, key)
  {
    hide Params, Subst, MakeStatic;
    var a, b := Pick(values, choices[i]), Pick(values, choices[j]);
    LeafFires(r, a, key);
    LeafFires(r, b, key);
    forall n | n in choices[i] ensures choices[i][n] == choices[j][n] {
      assert a[n] == MakeStatic(r, key).value.attrs[n] == b[n];
    }
    assert choices[i] == choices[j];
  }

  // ---------------------------------------------------------------------------
  // The exact condition

  /**
   * The search for a firing leaf, on the original rule, when the parameters in values can take no
   * other value: a literal leaf must fire with those values, the patterns of an equality leaf are
   * tried with the values written in, and a compound takes the first nested result if that
   * and the values bind all its parameters.
   */
  ghost function FirstUnder(r: Rule, values: Attrs, key: string): Option<Attrs>
    decreases r
  {
    match r
    case And(_) | Or(_) =>
      var attrs := FirstNestedUnder(r.rules, values, key);
      if attrs.Some? && Params(r) <= attrs.value.Keys + values.Keys then attrs else None
    case Not(rule) => FirstUnder(rule, values, key)
    case LiteralLeaf(_, _, _, _) =>
      if Triggers(r, key) && Agrees(MakeStatic(r, key).value.attrs, values, Params(r))
      then Some(MakeStatic(r, key).value.attrs)
      else None
    case EqualsLeaf(patterns, _, _) =>
      var m := FirstMatchUnder(patterns, values, key);
      if m.Some? && key in FormatAll(patterns, m.value + values)
      then Some(m.value + Restrict(values, Params(r)))
      else None
  }

  ghost function FirstNestedUnder(rules: seq<Rule>, values: Attrs, key: string): Option<Attrs>
    decreases rules
  {
    if rules == [] then None
    else if FirstUnder(rules[0], values, key).Some? then FirstUnder(rules[0], values, key)
    else FirstNestedUnder(rules[1..], values, key)
  }

  /** The attributes with which a rule fires. */
  ghost function FiringAttrs(r: Rule, key: string): Option<Attrs> {
    if Triggers(r, key) then Some(MakeStatic(r, key).value.attrs) else None
  }

  /** That search finds what the substituted rule fires with. */
  lemma {:induction false} UnderIsSubst(r: Rule, values: Attrs, key: string)
    requires Unexpanded(r) && PlainAttrs(values)
    ensures FirstUnder(r, values, key) == FiringAttrs(Subst(r, values), key)
    decreases r
  {
    match r {
      case And(_) | Or(_) =>
        NestedUnderIsSubst(r.rules, Subst(r, values).rules, values, key);
        CompoundUnder(r, values, key);
      case Not(rule) =>
        NotTriggers(Subst(r, values), key);
        UnderIsSubst(rule, values, key);
      case LiteralLeaf(_, _, _, _) => LeafFires(r, values, key);
      case EqualsLeaf(_, _, _) => EqualsFires(r, values, key);
    }
  }

  lemma {:induction false} NestedUnderIsSubst(rules: seq<Rule>, substituted: seq<Rule>, values: Attrs, key: string)
    requires PlainAttrs(values) && |substituted| == |rules|
    requires forall i :: 0 <= i < |rules| ==> Unexpanded(rules[i]) && substituted[i] == Subst(rules[i], values)
    ensures FirstNestedUnder(rules, values, key) == FirstTrigger(substituted, key)
    decreases rules
  {
    if rules != [] {
      UnderIsSubst(rules[0], values, key);
      NestedUnderIsSubst(rules[1..], substituted[1..], values, key);
    }
  }

  lemma CompoundUnder(r: Rule, values: Attrs, key: string)
    requires (r.And? || r.Or?) && Unexpanded(r) && PlainAttrs(values)
    requires FirstNestedUnder(r.rules, values, key) == FirstTrigger(Subst(r, values).rules, key)
    ensures FirstUnder(r, values, key) == FiringAttrs(Subst(r, values), key)
  {
    var q := Subst(r, values);
    assert q.And? || q.Or?;
    hide Params, Instantiate, Sound, Subst, Unexpanded;
    SubstParams(r, values);
    UnexpandedIsSound(r);
    SubstSound(r, values);
    if MakeStatic(q, key).Some? { CompoundFires(q, key); }
  }

  /** A compound that can be built for a key always has the key among its keys. */
  lemma CompoundFires(r: Rule, key: string)
    requires (r.And? || r.Or?) && Sound(r) && MakeStatic(r, key).Some?
    ensures Triggers(r, key)
  {
    CompoundTriggerIsRead(r, key);
    Q.ReadImpliesMatch(MakeStatic(r, key).value.rule, key);
    S.SatisfiableIsKeyMatch(MakeStatic(r, key).value.rule, key);
  }

  lemma EqualsFires(r: Rule, values: Attrs, key: string)
    requires r.EqualsLeaf? && r.attrs == map[] && PlainAttrs(values)
    ensures FirstUnder(r, values, key) == FiringAttrs(Subst(r, values), key)
  {
    hide Params, FirstMatchUnder, MakeStatic, Instantiate, FormatAll;
    EqualsUnder(r, values, key);
    var m := FirstMatchUnder(r.patterns, values, key);
    if m.Some? {
      EqualsKeys(r, values, m.value);
      NoPatternNoMatch(values, key);
    }
  }

  lemma EqualsKeys(r: Rule, values: Attrs, m: Attrs)
    requires r.EqualsLeaf?
    ensures Instantiate(r, m + Restrict(values, Params(r))) == S.Equals(FormatAll(r.patterns, m + values))
    ensures |FormatAll(r.patterns, m + values)| == |r.patterns|
  {
    hide Params, Format;
    var attrs := m + Restrict(values, Params(r));
    LeafPatternParams(r);
    forall p | p in r.patterns ensures Format(p, attrs) == Format(p, m + values) {
      FormatIgnoresOthers(p, attrs, m + values, Params(r));
    }
  }

  lemma NoPatternNoMatch(values: Attrs, key: string)
    ensures FirstMatchUnder([], values, key).None?
  {
  }

  /** A substituted leaf fires with its values, and with its match for the other parameters. */
  lemma SubstLeafAttrs(r: Rule, values: Attrs, key: string)
    requires r.IsLeaf() && r.attrs == map[] && PlainAttrs(values) && MakeStatic(Subst(r, values), key).Some?
    ensures var attrs := MakeStatic(Subst(r, values), key).value.attrs;
      && (forall n :: n in attrs && n in values ==> attrs[n] == values[n])
      && Params(r) * values.Keys <= attrs.Keys <= Params(r)
  {
    hide Params, Instantiate, Segments;
    var q := Subst(r, values);
    SubstLeafParams(r, values);
    var i := FirstMatchBinds(LeafPatterns(q), key);
    LeafPatternParams(q);
    assert FirstMatch(LeafPatterns(q), key).value.Keys <= Params(q);
  }

  /** Whatever a substituted rule fires with agrees with the values. */
  lemma {:induction false} SubstInstanceValues(r: Rule, values: Attrs, key: string)
    requires Unexpanded(r) && PlainAttrs(values) && MakeStatic(Subst(r, values), key).Some?
    ensures var attrs := MakeStatic(Subst(r, values), key).value.attrs;
      (forall n :: n in attrs && n in values ==> attrs[n] == values[n]) && attrs.Keys <= Params(r)
    decreases r
  {
    hide Params, Instantiate;
    match r {
      case And(_) | Or(_) =>
        var j := FirstTriggerIndex(Subst(r, values).rules, key);
        NestedParams(r, j);
        SubstInstanceValues(r.rules[j], values, key);
      case Not(rule) =>
        NestedParamsSmaller(r, rule);
        SubstInstanceValues(rule, values, key);
      case _ => SubstLeafAttrs(r, values, key);
    }
  }

  /** An instance shared with the substituted rule binds every parameter that has a value. */
  lemma {:induction false} SharedInstanceBinds(r: Rule, values: Attrs, key: string)
    requires Unexpanded(r) && PlainAttrs(values) && MakeStatic(r, key).Some? && MakeStatic(Subst(r, values), key).Some?
    requires MakeStatic(Subst(r, values), key).value.attrs == MakeStatic(r, key).value.attrs
    ensures Params(r) * values.Keys <= MakeStatic(r, key).value.attrs.Keys
    decreases r
  {
    match r {
      case And(_) | Or(_) =>
      case Not(rule) => SharedInstanceBinds(rule, values, key);
      case _ => SubstLeafAttrs(r, values, key);
    }
  }

  /**
   * For every rule tree and every key that triggers it, expansion keeps the instance if and only if
   * the search above, which looks at the original rule alone, ends with the attributes of that
   * instance.
   */
  lemma ExpansionExact(r: Rule, values: Attrs, key: string)
    requires Unexpanded(r) && PlainAttrs(values) && Triggers(r, key)
    ensures MakeStatic(Subst(r, values), key) == MakeStatic(r, key)
       <==> FirstUnder(r, values, key) == Some(MakeStatic(r, key).value.attrs)
  {
    hide Params, Subst, MakeStatic, Instantiate, FirstUnder, Sound, Unexpanded;
    var q, attrs := Subst(r, values), MakeStatic(r, key).value.attrs;
    UnderIsSubst(r, values, key);
    if FirstUnder(r, values, key) == Some(attrs) {
      SubstInstanceValues(r, values, key);
      SharedInstanceBinds(r, values, key);
      assert Agrees(attrs, values, Params(r));
      UnexpandedIsSound(r);
      SubstSound(r, values);
      InstanceIsInstantiation(r, key);
      InstanceIsInstantiation(q, key);
      InstantiateSubst(r, values, attrs);
    }
  }

  // ---------------------------------------------------------------------------
  // The output of Expand

  /** The attributes are among the expansion values. */
  ghost predicate Within(r: Rule, values: ValueMap, attrs: Attrs) {
    forall n :: n in Params(r) * values.Keys ==> n in attrs && attrs[n] in values[n]
  }

  /** The choice of values that the attributes make. */
  ghost function Chosen(r: Rule, values: ValueMap, attrs: Attrs): Attrs {
    Restrict(attrs, Params(r) * values.Keys)
  }

  lemma PickIsChosen(r: Rule, values: ValueMap, c: Choice, attrs: Attrs)
    requires ChoiceFor(r, values, c) && Params(r) * values.Keys <= attrs.Keys
    requires forall n :: n in attrs && n in Pick(values, c) ==> attrs[n] == Pick(values, c)[n]
    ensures Pick(values, c) == Chosen(r, values, attrs)
  {
    hide Params;
    assert Pick(values, c).Keys == Params(r) * values.Keys;
  }

  /**
   * For every rule tree and every trigger within the expansion values, some rule that Expand returns
   * has the same instance if and only if the search over the original rule, with the values that the
   * trigger itself has chosen, ends with the attributes of that instance.
   */
  lemma ExpandExact(r: Rule, values: ValueMap, out: seq<Rule>, choices: seq<Choice>, key: string)
    requires Unexpanded(r) && GoodValues(values) && ExpandedBy(r, values, out, choices)
    requires Triggers(r, key) && Within(r, values, MakeStatic(r, key).value.attrs)
    ensures var attrs := MakeStatic(r, key).value.attrs;
      (exists i :: 0 <= i < |out| && MakeStatic(out[i], key) == MakeStatic(r, key))
        <==> FirstUnder(r, Chosen(r, values, attrs), key) == Some(attrs)
  {
    var attrs := MakeStatic(r, key).value.attrs;
    hide MakeStatic, Params, Subst, FirstUnder, Pick, Chosen, ChoiceFor, Unexpanded;
    if i :| 0 <= i < |out| && MakeStatic(out[i], key) == MakeStatic(r, key) {
      KeptIsChosen(r, values, choices[i], key);
      ExpansionExact(r, Pick(values, choices[i]), key);
    }
    if FirstUnder(r, Chosen(r, values, attrs), key) == Some(attrs) {
      var c := ChoiceOf(r, values, attrs);
      var i :| 0 <= i < |choices| && choices[i] == c;
      ExpansionExact(r, Pick(values, c), key);
      assert MakeStatic(out[i], key) == MakeStatic(r, key);
    }
  }

  /** A choice that keeps the instance is the one that its attributes make. */
  lemma KeptIsChosen(r: Rule, values: ValueMap, c: Choice, key: string)
    requires Unexpanded(r) && GoodValues(values) && ChoiceFor(r, values, c) && MakeStatic(r, key).Some?
    requires Within(r, values, MakeStatic(r, key).value.attrs)
    requires MakeStatic(Subst(r, Pick(values, c)), key) == MakeStatic(r, key)
    ensures Pick(values, c) == Chosen(r, values, MakeStatic(r, key).value.attrs)
  {
    hide MakeStatic, Params, Subst, Pick, Chosen, ChoiceFor, Unexpanded;
    SubstInstanceValues(r, Pick(values, c), key);
    PickIsChosen(r, values, c, MakeStatic(r, key).value.attrs);
  }

  lemma ChoiceOf(r: Rule, values: ValueMap, attrs: Attrs) returns (c: Choice)
    requires Within(r, values, attrs)
    ensures ChoiceFor(r, values, c) && Pick(values, c) == Chosen(r, values, attrs)
  {
    hide Params;
    c := map n | n in Params(r) * values.Keys :: IndexOf(values[n], attrs[n]);
  }

  /** On rules of that shape the search always ends so. */
  lemma ExpandableUnder(r: Rule, values: Attrs, key: string)
    requires Expandable(r) && PlainAttrs(values) && Triggers(r, key)
    requires Agrees(MakeStatic(r, key).value.attrs, values, Params(r))
    ensures FirstUnder(r, values, key) == Some(MakeStatic(r, key).value.attrs)
  {
    hide *;
    ExpandableUnexpanded(r);
    SubstPreserves(r, values, key);
    ExpansionExact(r, values, key);
  }

  /** And so it does on every rule when no value is to be written in. */
  lemma NothingUnder(r: Rule, key: string)
    requires Unexpanded(r) && Triggers(r, key)
    ensures FirstUnder(r, map[], key) == Some(MakeStatic(r, key).value.attrs)
  {
    hide MakeStatic, Params, FirstUnder, Unexpanded, Triggers;
    SubstNothing(r, map[]);
    ExpansionExact(r, map[], key);
  }

  /** When no parameter of the rule is expanded, the trigger chooses nothing. */
  lemma NothingChosen(r: Rule, values: ValueMap, attrs: Attrs)
    requires Params(r) !! values.Keys
    ensures Chosen(r, values, attrs) == map[] && Within(r, values, attrs)
  {
    hide Params;
  }

  /**
   * So on rules of that shape some expanded rule gives the same instance for every trigger within the
   * expansion values: it reads the same keys and is satisfied in the same stores.
   */
  lemma ExpandPreserves(r: Rule, values: ValueMap, out: seq<Rule>, choices: seq<Choice>, key: string)
    requires Expandable(r) && GoodValues(values) && ExpandedBy(r, values, out, choices)
    requires Triggers(r, key) && Within(r, values, MakeStatic(r, key).value.attrs)
    ensures exists i :: 0 <= i < |out| && MakeStatic(out[i], key) == MakeStatic(r, key)
  {
    var attrs := MakeStatic(r, key).value.attrs;
    hide *;
    ExpandableUnexpanded(r);
    ChosenUnder(r, values, key);
    ExpandExact(r, values, out, choices, key);
  }

  lemma ChosenUnder(r: Rule, values: ValueMap, key: string)
    requires Expandable(r) && GoodValues(values) && Triggers(r, key)
    requires Within(r, values, MakeStatic(r, key).value.attrs)
    ensures var attrs := MakeStatic(r, key).value.attrs; FirstUnder(r, Chosen(r, values, attrs), key) == Some(attrs)
  {
    var attrs := MakeStatic(r, key).value.attrs;
    hide MakeStatic, Params, FirstUnder, Expandable, Triggers;
    var c := ChoiceOf(r, values, attrs);
    assert PlainAttrs(Pick(values, c));
    ExpandableUnder(r, Chosen(r, values, attrs), key);
  }

  // ---------------------------------------------------------------------------
  // Lock keys of expanded rules

  /**
   * Expanded attributes are attached leaf by leaf, so two triggers of one instance may differ in
   * them. Their lock keys are equal if and only if both bind the same expanded parameters of the
   * lock pattern.
   */
  lemma ExpandedLockKeys(r: Rule, values: Attrs, key1: string, key2: string, lockPattern: string)
    requires Unexpanded(r) && PlainAttrs(values)
    requires MakeStatic(Subst(r, values), key1).Some? && MakeStatic(Subst(r, values), key2).Some?
    requires S.Keys(MakeStatic(Subst(r, values), key1).value.rule)
          == S.Keys(MakeStatic(Subst(r, values), key2).value.rule)
    ensures var a, b := MakeStatic(Subst(r, values), key1).value, MakeStatic(Subst(r, values), key2).value;
      && a.rule == b.rule
      && (Format(lockPattern, a.attrs) == Format(lockPattern, b.attrs) <==>
            forall n :: n in Names(Segments(lockPattern)) && n in values ==> (n in a.attrs <==> n in b.attrs))
  {
    hide Params, Subst, MakeStatic, Sound, Unexpanded, Names, Segments, Format;
    UnexpandedIsSound(r);
    SubstSound(r, values);
    SubstParams(r, values);
    LockKeysAgreeExactly(Subst(r, values), key1, key2, lockPattern);
    SubstInstanceValues(r, values, key1);
    SubstInstanceValues(r, values, key2);
  }

  ghost predicate InEveryLeaf(r: Rule, n: string) {
    match r
    case And(_) | Or(_) => forall i :: 0 <= i < |r.rules| ==> InEveryLeaf(r.rules[i], n)
    case Not(rule) => InEveryLeaf(rule, n)
    case _ => n in Params(r)
  }

  lemma {:induction false} EveryLeafBinds(r: Rule, values: Attrs, key: string, n: string)
    requires Unexpanded(r) && PlainAttrs(values) && InEveryLeaf(r, n) && n in values
    requires MakeStatic(Subst(r, values), key).Some?
    ensures n in MakeStatic(Subst(r, values), key).value.attrs
    decreases r
  {
    hide Params, Instantiate;
    match r {
      case And(_) | Or(_) =>
        var j := FirstTriggerIndex(Subst(r, values).rules, key);
        EveryLeafBinds(r.rules[j], values, key, n);
      case Not(rule) => EveryLeafBinds(rule, values, key, n);
      case _ => SubstLeafAttrs(r, values, key);
    }
  }

  /** A condition on the rule alone: every expanded parameter of the lock pattern is in every leaf. */
  lemma ExpandedLockKeyAgreement(r: Rule, values: Attrs, key1: string, key2: string, lockPattern: string)
    requires Unexpanded(r) && PlainAttrs(values)
    requires MakeStatic(Subst(r, values), key1).Some? && MakeStatic(Subst(r, values), key2).Some?
    requires S.Keys(MakeStatic(Subst(r, values), key1).value.rule)
          == S.Keys(MakeStatic(Subst(r, values), key2).value.rule)
    requires forall n :: n in Names(Segments(lockPattern)) && n in values ==> InEveryLeaf(r, n)
    ensures var a, b := MakeStatic(Subst(r, values), key1).value, MakeStatic(Subst(r, values), key2).value;
      a.rule == b.rule && Format(lockPattern, a.attrs) == Format(lockPattern, b.attrs)
  {
    hide *;
    ExpandedLockKeys(r, values, key1, key2, lockPattern);
    forall n | n in Names(Segments(lockPattern)) && n in values
      ensures n in MakeStatic(Subst(r, values), key1).value.attrs && n in MakeStatic(Subst(r, values), key2).value.attrs
    {
      EveryLeafBinds(r, values, key1, n);
      EveryLeafBinds(r, values, key2, n);
    }
  }
}
