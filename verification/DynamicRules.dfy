/**
 * Dynamic rules (rules/dynamic_rule.go): rule trees over key patterns, and how a trigger key
 * turns one into a static rule.
 */
module DynamicRules {
  import opened Base
  import opened Paths
  import opened Matching
  import S = StaticRules

  /**
   * A leaf carries the attributes that expansion has already fixed. The source keeps them in a
   * list searched from the front; here they are a map in which the first binding wins.
   */
  datatype Rule =
    | LiteralLeaf(pattern: string, cmp: S.Value -> bool, rep: string, attrs: Attrs)
    | EqualsLeaf(patterns: seq<string>, rep: string, attrs: Attrs)
    | And(rules: seq<Rule>)
    | Or(rules: seq<Rule>)
    | Not(rule: Rule)
  {
    predicate IsLeaf() { LiteralLeaf? || EqualsLeaf? }
  }

  /** The static rule built for a trigger key, and the attributes it was built from. */
  datatype Instance = Instance(rule: S.Rule, attrs: Attrs)

  // ---------------------------------------------------------------------------
  // Patterns and parameters

  function LeafPatterns(r: Rule): seq<string>
    requires r.IsLeaf()
  {
    if r.LiteralLeaf? then [r.pattern] else r.patterns
  }

  function PatternSet(r: Rule): set<string> {
    match r
    case And(_) | Or(_) => set i, p | 0 <= i < |r.rules| && p in PatternSet(r.rules[i]) :: p
    case Not(rule) => PatternSet(rule)
    case _ => set p | p in LeafPatterns(r)
  }

  function ParamsOf(patterns: set<string>): set<string> {
    set p, n | p in patterns && n in Names(Segments(p)) :: n
  }

  function Params(r: Rule): set<string> {
    ParamsOf(PatternSet(r))
  }

  lemma NestedParams(r: Rule, i: nat)
    requires (r.And? || r.Or?) && i < |r.rules|
    ensures PatternSet(r.rules[i]) <= PatternSet(r) && Params(r.rules[i]) <= Params(r)
  {
    assert forall p :: p in PatternSet(r.rules[i]) ==> p in PatternSet(r);
  }

  lemma AllNestedParams(r: Rule, names: set<string>)
    requires (r.And? || r.Or?) && forall i :: 0 <= i < |r.rules| ==> Params(r.rules[i]) <= names
    ensures Params(r) <= names
  {
    forall n | n in Params(r) ensures n in names {
      var p :| p in PatternSet(r) && n in Names(Segments(p));
      var i :| 0 <= i < |r.rules| && p in PatternSet(r.rules[i]);
      assert n in Params(r.rules[i]);
    }
  }

  // ---------------------------------------------------------------------------
  // Instances

  /** The static rule over the formatted patterns; unbound parameters stay as they are written. */
  function Instantiate(r: Rule, attrs: Attrs): S.Rule {
    match r
    case LiteralLeaf(pattern, cmp, _, _) => S.Literal(Format(pattern, attrs), cmp)
    case EqualsLeaf(patterns, _, _) =>
      S.Equals(seq(|patterns|, i requires 0 <= i < |patterns| => Format(patterns[i], attrs)))
    case And(rules) => S.And(seq(|rules|, i requires 0 <= i < |rules| => Instantiate(rules[i], attrs)))
    case Or(rules) => S.Or(seq(|rules|, i requires 0 <= i < |rules| => Instantiate(rules[i], attrs)))
    case Not(rule) => S.Not(Instantiate(rule, attrs))
  }

  /** `staticRuleFromAttributes`: fails as soon as one parameter of one pattern is unbound. */
  method StaticRuleFromAttributes(r: Rule, attrs: Attrs) returns (out: Option<S.Rule>)
    ensures out == if Params(r) <= attrs.Keys then Some(Instantiate(r, attrs)) else None
    decreases r
  {
    match r {
      case LiteralLeaf(pattern, cmp, _, _) =>
        var key, ok := FormatPath(pattern, attrs);
        assert Names(Segments(pattern)) == Params(r);
        out := if ok then Some(S.Literal(key, cmp)) else None;
      case EqualsLeaf(patterns, _, _) =>
        var keys := FormatKeys(patterns, attrs);
        EqualsParams(r, attrs.Keys);
        out := if keys.Some? then Some(S.Equals(keys.value)) else None;
      case And(rules) =>
        var nested := AllFromAttributes(r, attrs);
        out := if nested.Some? then Some(S.And(nested.value)) else None;
      case Or(rules) =>
        var nested := AllFromAttributes(r, attrs);
        out := if nested.Some? then Some(S.Or(nested.value)) else None;
      case Not(rule) =>
        var nested := StaticRuleFromAttributes(rule, attrs);
        out := if nested.Some? then Some(S.Not(nested.value)) else None;
    }
  }

  lemma EqualsParams(r: Rule, names: set<string>)
    requires r.EqualsLeaf?
    ensures Params(r) <= names <==> forall i :: 0 <= i < |r.patterns| ==> Names(Segments(r.patterns[i])) <= names
  {
    hide Names, Segments;
    assert forall i :: 0 <= i < |r.patterns| ==> r.patterns[i] in PatternSet(r);
    assert Params(r) <= names <==> forall p :: p in PatternSet(r) ==> Names(Segments(p)) <= names;
  }

  method FormatKeys(patterns: seq<string>, attrs: Attrs) returns (out: Option<seq<string>>)
    ensures out.Some? <==> forall i :: 0 <= i < |patterns| ==> Names(Segments(patterns[i])) <= attrs.Keys
    ensures out.Some? ==> out.value == seq(|patterns|, i requires 0 <= i < |patterns| => Format(patterns[i], attrs))
  {
    hide Names, Segments, Format;
    var keys := [];
    for j := 0 to |patterns|
      invariant |keys| == j && forall i :: 0 <= i < j ==> keys[i] == Format(patterns[i], attrs)
      invariant forall i :: 0 <= i < j ==> Names(Segments(patterns[i])) <= attrs.Keys
    {
      var key, ok := FormatPath(patterns[j], attrs);
      if !ok { return None; }
      keys := keys + [key];
    }
    out := Some(keys);
  }

  method AllFromAttributes(r: Rule, attrs: Attrs) returns (out: Option<seq<S.Rule>>)
    requires r.And? || r.Or?
    ensures out.Some? <==> Params(r) <= attrs.Keys
    ensures out.Some? ==> (if r.And? then S.And(out.value) else S.Or(out.value)) == Instantiate(r, attrs)
    decreases r, 0
  {
    hide Params, Instantiate;
    var nested := [];
    for j := 0 to |r.rules|
      invariant |nested| == j && forall i :: 0 <= i < j ==> nested[i] == Instantiate(r.rules[i], attrs)
      invariant forall i :: 0 <= i < j ==> Params(r.rules[i]) <= attrs.Keys
    {
      var rule := StaticRuleFromAttributes(r.rules[j], attrs);
      if rule.None? {
        NestedParams(r, j);
        return None;
      }
      nested := nested + [rule.value];
    }
    AllNestedParams(r, attrs.Keys);
    InstantiateCompound(r, attrs, nested);
    out := Some(nested);
  }

  lemma InstantiateCompound(r: Rule, attrs: Attrs, nested: seq<S.Rule>)
    requires (r.And? || r.Or?) && |nested| == |r.rules|
    requires forall i :: 0 <= i < |nested| ==> nested[i] == Instantiate(r.rules[i], attrs)
    ensures (if r.And? then S.And(nested) else S.Or(nested)) == Instantiate(r, attrs)
  {
    assert Instantiate(r, attrs).rules == nested;
  }

  /** The attributes of the first of the patterns that matches the key. */
  function FirstMatch(patterns: seq<string>, key: string): Option<Attrs> {
    if patterns == [] then None
    else
      var m := MatchKey(Segments(patterns[0]), key);
      if m.Some? then m else FirstMatch(patterns[1..], key)
  }

  function MakeStatic(r: Rule, key: string): Option<Instance>
    decreases r, 0
  {
    match r
    case And(_) | Or(_) => MakeCompound(r, FirstTrigger(r.rules, key))
    case Not(rule) =>
      var nested := MakeStatic(rule, key);
      if nested.Some? then Some(Instance(S.Not(nested.value.rule), nested.value.attrs)) else None
    case _ =>
      // The keys are formatted with the match alone; the attributes add the expanded ones.
      var m := FirstMatch(LeafPatterns(r), key);
      if m.Some? then Some(Instance(Instantiate(r, m.value), m.value + r.attrs)) else None
  }

  function MakeCompound(r: Rule, attrs: Option<Attrs>): Option<Instance> {
    if attrs.Some? && Params(r) <= attrs.value.Keys
    then Some(Instance(Instantiate(r, attrs.value), attrs.value))
    else None
  }

  /** r yields an instance that has the key among its own keys. */
  predicate Triggers(r: Rule, key: string)
    decreases r, 1
  {
    MakeStatic(r, key).Some? && S.Satisfiable(MakeStatic(r, key).value.rule, key)
  }

  /** The attributes of the first nested rule that the key triggers. */
  function FirstTrigger(rules: seq<Rule>, key: string): Option<Attrs>
    decreases rules
  {
    if rules == [] then None
    else if Triggers(rules[0], key) then Some(MakeStatic(rules[0], key).value.attrs)
    else FirstTrigger(rules[1..], key)
  }

  /** `makeStaticRule`, with its search loops. */
  method MakeStaticRule(r: Rule, key: string) returns (out: Option<Instance>)
    ensures out == MakeStatic(r, key)
    decreases r
  {
    match r {
      case And(_) | Or(_) => out := MakeCompoundRule(r, key);
      case Not(rule) =>
        var nested := MakeStaticRule(rule, key);
        out := if nested.Some? then Some(Instance(S.Not(nested.value.rule), nested.value.attrs)) else None;
      case _ =>
        var patterns := LeafPatterns(r);
        var m: Option<Attrs> := None;
        var i := 0;
        while i < |patterns| && m.None?
          invariant 0 <= i <= |patterns|
          invariant m.None? ==> FirstMatch(patterns, key) == FirstMatch(patterns[i..], key)
          invariant m.Some? ==> FirstMatch(patterns, key) == m
        {
          m := MatchKey(Segments(patterns[i]), key);
          i := i + 1;
        }
        if m.None? { return None; }
        out := Some(Instance(Instantiate(r, m.value), m.value + r.attrs));
    }
  }

  method MakeCompoundRule(r: Rule, key: string) returns (out: Option<Instance>)
    requires r.And? || r.Or?
    ensures out == MakeStatic(r, key)
    decreases r, 0
  {
    var valid: Option<Attrs> := None;
    var i := 0;
    while i < |r.rules| && valid.None?
      invariant 0 <= i <= |r.rules|
      invariant valid.None? ==> FirstTrigger(r.rules, key) == FirstTrigger(r.rules[i..], key)
      invariant valid.Some? ==> FirstTrigger(r.rules, key) == valid
    {
      var nested := MakeStaticRule(r.rules[i], key);
      if nested.Some? && S.Satisfiable(nested.value.rule, key) { valid := Some(nested.value.attrs); }
      i := i + 1;
    }
    if valid.None? { return None; }
    var rule := StaticRuleFromAttributes(r, valid.value);
    if rule.None? { return None; }
    out := Some(Instance(rule.value, valid.value));
  }

  // ---------------------------------------------------------------------------
  // What instances read

  lemma {:induction false} ReadsAreFormats(r: Rule, attrs: Attrs, key: string)
    ensures S.Reads(Instantiate(r, attrs), key) <==> exists p :: p in PatternSet(r) && key == Format(p, attrs)
    decreases r
  {
    var sr := Instantiate(r, attrs);
    match r {
      case LiteralLeaf(pattern, _, _, _) => assert pattern in PatternSet(r);
      case EqualsLeaf(patterns, _, _) =>
        if p :| p in PatternSet(r) && key == Format(p, attrs) {
          var i :| 0 <= i < |patterns| && patterns[i] == p;
          assert sr.keys[i] == key;
        }
        if S.Reads(sr, key) {
          var i :| 0 <= i < |sr.keys| && sr.keys[i] == key;
          assert patterns[i] in PatternSet(r);
        }
      case And(_) | Or(_) => CompoundReads(r, attrs, key);
      case Not(rule) => ReadsAreFormats(rule, attrs, key);
    }
  }

  lemma {:induction false} CompoundReads(r: Rule, attrs: Attrs, key: string)
    requires r.And? || r.Or?
    ensures S.Reads(Instantiate(r, attrs), key) <==> exists p :: p in PatternSet(r) && key == Format(p, attrs)
    decreases r, 0
  {
    hide Format, Params;
    var sr := Instantiate(r, attrs);
    assert |sr.rules| == |r.rules| && forall i :: 0 <= i < |sr.rules| ==> sr.rules[i] == Instantiate(r.rules[i], attrs);
    assert S.Reads(sr, key) <==> exists i :: 0 <= i < |sr.rules| && S.Reads(sr.rules[i], key);
    hide Instantiate, S.Reads;
    if i :| 0 <= i < |sr.rules| && S.Reads(sr.rules[i], key) {
      ReadsAreFormats(r.rules[i], attrs, key);
      NestedParams(r, i);
    }
    if p :| p in PatternSet(r) && key == Format(p, attrs) {
      var i :| 0 <= i < |r.rules| && p in PatternSet(r.rules[i]);
      ReadsAreFormats(r.rules[i], attrs, key);
      assert S.Reads(sr.rules[i], key);
    }
  }

  // ---------------------------------------------------------------------------
  // Instances are instantiations

  /** Expanded attributes are plain, and their parameters are gone from the leaf's patterns. */
  ghost predicate Sound(r: Rule) {
    match r
    case And(_) | Or(_) => forall i :: 0 <= i < |r.rules| ==> Sound(r.rules[i])
    case Not(rule) => Sound(rule)
    case _ => PlainAttrs(r.attrs) && r.attrs.Keys !! Params(r)
  }

  lemma {:induction false} InstantiateIgnoresOthers(r: Rule, a: Attrs, b: Attrs)
    requires forall n :: n in Params(r) ==> (n in a <==> n in b) && (n in a ==> a[n] == b[n])
    ensures Instantiate(r, a) == Instantiate(r, b)
    decreases r
  {
    match r {
      case LiteralLeaf(pattern, _, _, _) => RenderIgnoresOthers(Segments(pattern), a, b);
      case EqualsLeaf(patterns, _, _) =>
        forall i | 0 <= i < |patterns| ensures Format(patterns[i], a) == Format(patterns[i], b) {
          RenderIgnoresOthers(Segments(patterns[i]), a, b);
        }
      case And(_) | Or(_) =>
        forall i | 0 <= i < |r.rules| ensures Instantiate(r.rules[i], a) == Instantiate(r.rules[i], b) {
          NestedParams(r, i);
          InstantiateIgnoresOthers(r.rules[i], a, b);
        }
      case Not(rule) => InstantiateIgnoresOthers(rule, a, b);
    }
  }

  lemma {:induction false} FirstMatchBinds(patterns: seq<string>, key: string) returns (i: nat)
    requires FirstMatch(patterns, key).Some?
    ensures i < |patterns| && FirstMatch(patterns, key) == MatchKey(Segments(patterns[i]), key)
    ensures PlainAttrs(FirstMatch(patterns, key).value)
    ensures FirstMatch(patterns, key).value.Keys == Names(Segments(patterns[i]))
  {
    hide MatchKey, Segments, Names, PlainAttrs;
    if MatchKey(Segments(patterns[0]), key).Some? {
      i := 0;
      MatchBinds(Segments(patterns[0]), key);
    } else {
      i := FirstMatchBinds(patterns[1..], key);
      i := i + 1;
    }
  }

  lemma {:induction false} FirstTriggerIndex(rules: seq<Rule>, key: string) returns (j: nat)
    requires FirstTrigger(rules, key).Some?
    ensures j < |rules| && Triggers(rules[j], key)
    ensures FirstTrigger(rules, key).value == MakeStatic(rules[j], key).value.attrs
    ensures forall i :: 0 <= i < j ==> !Triggers(rules[i], key)
  {
    if Triggers(rules[0], key) {
      j := 0;
    } else {
      j := FirstTriggerIndex(rules[1..], key);
      j := j + 1;
    }
  }

  lemma {:induction false} FirstTriggerIs(rules: seq<Rule>, key: string, j: nat)
    requires j < |rules| && Triggers(rules[j], key) && forall i :: 0 <= i < j ==> !Triggers(rules[i], key)
    ensures FirstTrigger(rules, key) == Some(MakeStatic(rules[j], key).value.attrs)
  {
    if j > 0 { FirstTriggerIs(rules[1..], key, j - 1); }
  }

  /** Every instance is the rule instantiated with the instance's attributes, which are plain. */
  lemma {:induction false} InstanceIsInstantiation(r: Rule, key: string)
    requires Sound(r) && MakeStatic(r, key).Some?
    ensures MakeStatic(r, key).value.rule == Instantiate(r, MakeStatic(r, key).value.attrs)
    ensures PlainAttrs(MakeStatic(r, key).value.attrs)
    decreases r
  {
    match r {
      case And(_) | Or(_) =>
        var j := FirstTriggerIndex(r.rules, key);
        InstanceIsInstantiation(r.rules[j], key);
      case Not(rule) => InstanceIsInstantiation(rule, key);
      case _ =>
        var _ := FirstMatchBinds(LeafPatterns(r), key);
        var m := FirstMatch(LeafPatterns(r), key).value;
        InstantiateIgnoresOthers(r, m, m + r.attrs);
    }
  }

  /**
   * A key that an instance matches is one of the keys the instance reads, although an equality
   * rule without keys matches everything.
   */
  lemma {:induction false} TriggerIsRead(r: Rule, key: string)
    requires Sound(r) && MakeStatic(r, key).Some?
    requires S.KeyMatch(MakeStatic(r, key).value.rule, key)
    ensures S.Reads(MakeStatic(r, key).value.rule, key)
    decreases r
  {
    match r {
      case And(_) | Or(_) => CompoundTriggerIsRead(r, key);
      case Not(rule) => TriggerIsRead(rule, key);
      case _ =>
    }
  }

  lemma {:induction false} CompoundTriggerIsRead(r: Rule, key: string)
    requires (r.And? || r.Or?) && Sound(r) && MakeStatic(r, key).Some?
    ensures S.Reads(MakeStatic(r, key).value.rule, key)
    decreases r, 0
  {
    var inst := MakeStatic(r, key).value;
    var j := FirstTriggerIndex(r.rules, key);
    S.SatisfiableIsKeyMatch(MakeStatic(r.rules[j], key).value.rule, key);
    TriggerIsRead(r.rules[j], key);
    InstanceIsInstantiation(r.rules[j], key);
    assert S.Reads(inst.rule.rules[j], key);
  }

  /** A literal leaf fires on a key exactly when formatting its match gives the key back. */
  lemma LeafTriggers(r: Rule, key: string)
    requires r.LiteralLeaf?
    ensures Triggers(r, key) <==> FormatsBack(Segments(r.pattern), key)
    ensures Triggers(r, key) ==> MatchKey(Segments(r.pattern), key).Some?
    ensures Triggers(r, key) ==>
      MakeStatic(r, key) == Some(Instance(S.Literal(key, r.cmp), MatchKey(Segments(r.pattern), key).value + r.attrs))
  {
    assert LeafPatterns(r) == [r.pattern];
    assert FirstMatch([r.pattern], key) == MatchKey(Segments(r.pattern), key);
  }

  // ---------------------------------------------------------------------------
  // Lock keys

  /** Literal leaves only, none of them expanded. */
  ghost predicate PlainLiteralTree(r: Rule) {
    match r
    case LiteralLeaf(_, _, _, attrs) => attrs == map[]
    case EqualsLeaf(_, _, _) => false
    case And(_) | Or(_) => forall i :: 0 <= i < |r.rules| ==> PlainLiteralTree(r.rules[i])
    case Not(rule) => PlainLiteralTree(rule)
  }

  /** No leaf has been expanded. */
  ghost predicate Unexpanded(r: Rule) {
    match r
    case And(_) | Or(_) => forall i :: 0 <= i < |r.rules| ==> Unexpanded(r.rules[i])
    case Not(rule) => Unexpanded(rule)
    case _ => r.attrs == map[]
  }

  lemma {:induction false} PlainTreeUnexpanded(r: Rule)
    requires PlainLiteralTree(r)
    ensures Unexpanded(r)
    decreases r
  {
    match r {
      case And(_) | Or(_) =>
        forall i | 0 <= i < |r.rules| ensures Unexpanded(r.rules[i]) { PlainTreeUnexpanded(r.rules[i]); }
      case Not(rule) => PlainTreeUnexpanded(rule);
      case _ =>
    }
  }

  lemma {:induction false} UnexpandedIsSound(r: Rule)
    requires Unexpanded(r)
    ensures Sound(r)
    decreases r
  {
    match r {
      case And(_) | Or(_) => forall i | 0 <= i < |r.rules| ensures Sound(r.rules[i]) { UnexpandedIsSound(r.rules[i]); }
      case Not(rule) => UnexpandedIsSound(rule);
      case _ =>
    }
  }

  /** The leaf that fires binds the rule's full parameter set: one pattern holds all parameters. */
  lemma {:induction false} InstanceBindsAll(r: Rule, key: string) returns (pattern: string)
    requires PlainLiteralTree(r) && MakeStatic(r, key).Some?
    ensures MakeStatic(r, key).value.attrs.Keys == Params(r) == Names(Segments(pattern))
    ensures pattern in PatternSet(r)
    decreases r
  {
    hide Names, Segments, Instantiate;
    match r {
      case And(_) | Or(_) =>
        var j := FirstTriggerIndex(r.rules, key);
        NestedParams(r, j);
        hide Params, PatternSet;
        pattern := InstanceBindsAll(r.rules[j], key);
      case Not(rule) => pattern := InstanceBindsAll(rule, key);
      case LiteralLeaf(p, _, _, _) =>
        pattern := p;
        var _ := FirstMatchBinds(LeafPatterns(r), key);
        assert PatternSet(r) == {p};
    }
  }

  /** The two attribute maps bind the same of these names, to the same values. */
  ghost predicate SameOn(a: Attrs, b: Attrs, names: set<string>) {
    forall n :: n in names ==> (n in a <==> n in b) && (n in a ==> a[n] == b[n])
  }

  /**
   * Instances of one rule that have the same keys agree on the rule's parameters, whatever keys
   * triggered them. So their lock keys are equal if and only if they agree on the parameters of
   * the lock pattern that expansion has removed from the rule.
   */
  lemma LockKeysAgreeExactly(r: Rule, key1: string, key2: string, lockPattern: string)
    requires Sound(r) && MakeStatic(r, key1).Some? && MakeStatic(r, key2).Some?
    requires S.Keys(MakeStatic(r, key1).value.rule) == S.Keys(MakeStatic(r, key2).value.rule)
    ensures var a, b := MakeStatic(r, key1).value, MakeStatic(r, key2).value;
      && SameOn(a.attrs, b.attrs, Params(r)) && a.rule == b.rule
      && (Format(lockPattern, a.attrs) == Format(lockPattern, b.attrs) <==>
            SameOn(a.attrs, b.attrs, Names(Segments(lockPattern)) - Params(r)))
  {
    hide Params, Instantiate, Format, Names, Segments, MakeStatic, Sound;
    var a, b := MakeStatic(r, key1).value.attrs, MakeStatic(r, key2).value.attrs;
    InstanceIsInstantiation(r, key1);
    InstanceIsInstantiation(r, key2);
    SameKeysSameParams(r, a, b);
    InstantiateIgnoresOthers(r, a, b);
    FormatExact(lockPattern, a, b);
  }

  lemma FormatExact(p: string, a: Attrs, b: Attrs)
    requires PlainAttrs(a) && PlainAttrs(b)
    ensures Format(p, a) == Format(p, b) <==> SameOn(a, b, Names(Segments(p)))
  {
    hide Segments, Names, Render;
    SegmentsParsed(p);
    FormatInjective(Segments(p), a, b);
    var names := Names(Segments(p));
    if Restrict(a, names) == Restrict(b, names) {
      forall n | n in names ensures (n in a <==> n in b) && (n in a ==> a[n] == b[n]) {
        assert n in Restrict(a, names) <==> n in Restrict(b, names);
        assert n in a ==> Restrict(a, names)[n] == Restrict(b, names)[n];
      }
    }
  }

  lemma SameKeysSameParams(r: Rule, a: Attrs, b: Attrs)
    requires PlainAttrs(a) && PlainAttrs(b) && S.Keys(Instantiate(r, a)) == S.Keys(Instantiate(r, b))
    ensures SameOn(a, b, Params(r))
  {
    hide Instantiate, Format, Names, Segments;
    forall n | n in Params(r) ensures (n in a <==> n in b) && (n in a ==> a[n] == b[n]) {
      var p :| p in PatternSet(r) && n in Names(Segments(p));
      SameKeysSameFormats(r, a, b, p);
      FormatExact(p, a, b);
    }
  }

  /** The number of keys of an instance does not depend on the attributes. */
  lemma {:induction false} KeyCount(r: Rule, a: Attrs, b: Attrs)
    ensures |S.Keys(Instantiate(r, a))| == |S.Keys(Instantiate(r, b))|
    decreases r
  {
    match r {
      case And(_) | Or(_) => AllKeyCount(Instantiate(r, a).rules, Instantiate(r, b).rules, r.rules, a, b);
      case Not(rule) => KeyCount(rule, a, b);
      case _ =>
    }
  }

  lemma {:induction false} AllKeyCount(x: seq<S.Rule>, y: seq<S.Rule>, rules: seq<Rule>, a: Attrs, b: Attrs)
    requires |x| == |y| == |rules|
    requires forall i :: 0 <= i < |rules| ==> x[i] == Instantiate(rules[i], a) && y[i] == Instantiate(rules[i], b)
    ensures |S.AllKeys(x)| == |S.AllKeys(y)|
    decreases rules
  {
    if rules != [] {
      var n := |rules| - 1;
      AllKeyCount(x[..n], y[..n], rules[..n], a, b);
      KeyCount(rules[n], a, b);
    }
  }

  /** Equal key lists are equal pattern by pattern. */
  lemma {:induction false} SameKeysSameFormats(r: Rule, a: Attrs, b: Attrs, p: string)
    requires S.Keys(Instantiate(r, a)) == S.Keys(Instantiate(r, b)) && p in PatternSet(r)
    ensures Format(p, a) == Format(p, b)
    decreases r
  {
    var sa, sb := Instantiate(r, a), Instantiate(r, b);
    match r {
      case LiteralLeaf(_, _, _, _) => assert sa.key == S.Keys(sa)[0] == S.Keys(sb)[0] == sb.key;
      case EqualsLeaf(patterns, _, _) =>
        var i :| 0 <= i < |patterns| && patterns[i] == p;
        assert sa.keys[i] == sb.keys[i];
      case And(_) | Or(_) =>
        var i :| 0 <= i < |r.rules| && p in PatternSet(r.rules[i]);
        NestedSameKeys(sa.rules, sb.rules, r.rules, a, b, i);
        SameKeysSameFormats(r.rules[i], a, b, p);
      case Not(rule) => SameKeysSameFormats(rule, a, b, p);
    }
  }

  lemma {:induction false} NestedSameKeys(x: seq<S.Rule>, y: seq<S.Rule>, rules: seq<Rule>, a: Attrs, b: Attrs, i: nat)
    requires |x| == |y| == |rules|
    requires forall k :: 0 <= k < |rules| ==> x[k] == Instantiate(rules[k], a) && y[k] == Instantiate(rules[k], b)
    requires S.AllKeys(x) == S.AllKeys(y) && i < |rules|
    ensures S.Keys(Instantiate(rules[i], a)) == S.Keys(Instantiate(rules[i], b))
    decreases rules
  {
    hide Instantiate, S.Keys;
    var n := |rules| - 1;
    AllKeyCount(x[..n], y[..n], rules[..n], a, b);
    SplitEqual(S.AllKeys(x[..n]), S.Keys(x[n]), S.AllKeys(y[..n]), S.Keys(y[n]));
    if i < n { NestedSameKeys(x[..n], y[..n], rules[..n], a, b, i); }
  }

  lemma SplitEqual(a: seq<string>, b: seq<string>, c: seq<string>, d: seq<string>)
    requires a + b == c + d && |a| == |c|
    ensures a == c && b == d
  {
    assert a == (a + b)[..|a|] && b == (a + b)[|a|..];
    assert c == (c + d)[..|c|] && d == (c + d)[|c|..];
  }

  /** Before expansion, an instance binds no more than the rule's parameters. */
  lemma {:induction false} InstanceBindsOnly(r: Rule, key: string)
    requires Unexpanded(r) && MakeStatic(r, key).Some?
    ensures MakeStatic(r, key).value.attrs.Keys <= Params(r)
    decreases r
  {
    match r {
      case And(_) | Or(_) =>
        var j := FirstTriggerIndex(r.rules, key);
        NestedParams(r, j);
        InstanceBindsOnly(r.rules[j], key);
      case Not(rule) => InstanceBindsOnly(rule, key);
      case _ =>
        var i := FirstMatchBinds(LeafPatterns(r), key);
        assert LeafPatterns(r)[i] in PatternSet(r);
    }
  }

  /**
   * Before expansion, instances with the same keys have the same attributes, hence one lock key
   * for every lock pattern: two workers holding the same instance contend for the same lock.
   */
  lemma LockKeyAgreement(r: Rule, key1: string, key2: string, lockPattern: string)
    requires Unexpanded(r) && MakeStatic(r, key1).Some? && MakeStatic(r, key2).Some?
    requires S.Keys(MakeStatic(r, key1).value.rule) == S.Keys(MakeStatic(r, key2).value.rule)
    ensures MakeStatic(r, key1) == MakeStatic(r, key2)
    ensures Format(lockPattern, MakeStatic(r, key1).value.attrs) == Format(lockPattern, MakeStatic(r, key2).value.attrs)
  {
    hide Params, Format, Names, Segments, MakeStatic, Sound, Unexpanded;
    UnexpandedIsSound(r);
    LockKeysAgreeExactly(r, key1, key2, lockPattern);
    InstanceBindsOnly(r, key1);
    InstanceBindsOnly(r, key2);
    assert MakeStatic(r, key1).value.attrs == MakeStatic(r, key2).value.attrs;
  }
}
