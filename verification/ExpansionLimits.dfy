/**
 * Where expansion (rules/dynamic_rule.go) changes the meaning of a rule: concrete rules, values
 * and keys outside the fragment of ExpansionMeaning.
 */
module ExpansionLimits {
  import opened Base
  import opened Paths
  import opened Matching
  import opened DynamicRules
  import opened Expansion
  import opened ExpansionMeaning
  import S = StaticRules

  // ---------------------------------------------------------------------------
  // Leaves with different parameters

  ghost function Mixed(l1: Rule, l2: Rule, l3: Rule): Rule { Or([And([l1, l2]), l3]) }

  lemma MixedParams(l1: Rule, l2: Rule, l3: Rule)
    ensures Params(And([l1, l2])) == Params(l1) + Params(l2)
    ensures Params(Mixed(l1, l2, l3)) == Params(l1) + Params(l2) + Params(l3)
  {
    hide Params;
    var both, r := And([l1, l2]), Mixed(l1, l2, l3);
    forall n ensures n in Params(both) <==> n in Params(l1) + Params(l2) { TwoParams(both, n); }
    forall n ensures n in Params(r) <==> n in Params(l1) + Params(l2) + Params(l3) { TwoParams(r, n); }
  }

  lemma TwoParams(r: Rule, n: string)
    requires (r.And? || r.Or?) && |r.rules| == 2
    ensures n in Params(r) <==> n in Params(r.rules[0]) || n in Params(r.rules[1])
  {
    hide Params;
    CompoundParams(r, n);
  }

  /** l1 fires first in the AND and leaves a parameter of l2 unbound, so l3 decides. */
  lemma MixedBefore(l1: Rule, l2: Rule, l3: Rule, key: string)
    requires MakeStatic(l1, key).Some? && MakeStatic(l3, key).Some? && Triggers(l1, key) && Triggers(l3, key)
    requires !(Params(l2) <= MakeStatic(l1, key).value.attrs.Keys)
    requires Params(l1) + Params(l2) + Params(l3) <= MakeStatic(l3, key).value.attrs.Keys
    ensures var a := MakeStatic(l3, key).value.attrs;
      MakeStatic(Mixed(l1, l2, l3), key) == Some(Instance(Instantiate(Mixed(l1, l2, l3), a), a))
  {
    hide Params, FirstTrigger, Instantiate;
    MixedParams(l1, l2, l3);
    var both, r := And([l1, l2]), Mixed(l1, l2, l3);
    FirstTriggerIs(both.rules, key, 0);
    assert MakeStatic(both, key).None?;
    FirstTriggerIs(r.rules, key, 1);
  }

  /** Once that parameter has a value, the AND can be built and comes first. */
  lemma MixedAfter(l1: Rule, l2: Rule, l3: Rule, key: string)
    requires MakeStatic(l1, key).Some? && Triggers(l1, key)
    requires S.Satisfiable(Instantiate(l1, MakeStatic(l1, key).value.attrs), key)
    requires Params(l1) + Params(l2) + Params(l3) <= MakeStatic(l1, key).value.attrs.Keys
    ensures var a := MakeStatic(l1, key).value.attrs;
      MakeStatic(Mixed(l1, l2, l3), key) == Some(Instance(Instantiate(Mixed(l1, l2, l3), a), a))
  {
    hide Params, FirstTrigger;
    MixedParams(l1, l2, l3);
    var a := MakeStatic(l1, key).value.attrs;
    var both, r := And([l1, l2]), Mixed(l1, l2, l3);
    FirstTriggerIs(both.rules, key, 0);
    assert S.Satisfiable(Instantiate(both, a).rules[0], key);
    assert Triggers(both, key);
    FirstTriggerIs(r.rules, key, 0);
  }

  ghost function LeafFor(segs: seq<Segment>): Rule {
    LiteralLeaf(Render(segs, map[]), (v: S.Value) => true, "", map[])
  }

  lemma LeafForPattern(segs: seq<Segment>)
    requires Parsed(segs)
    ensures LeafFor(segs).LiteralLeaf? && Segments(LeafFor(segs).pattern) == segs
    ensures Params(LeafFor(segs)) == Names(segs)
  {
    hide Render, Segments, Names;
    ParseOfFormat(segs, map[]);
    assert Specialize(segs, map[]) == segs;
    assert PatternSet(LeafFor(segs)) == {LeafFor(segs).pattern};
  }

  lemma LeafForFires(segs: seq<Segment>, attrs: Attrs, key: string)
    requires Parsed(segs) && PlainAttrs(attrs) && attrs.Keys == Names(segs) && Render(segs, attrs) == key
    ensures Triggers(LeafFor(segs), key) && MakeStatic(LeafFor(segs), key).Some?
    ensures MakeStatic(LeafFor(segs), key).value.attrs == attrs
    ensures Instantiate(LeafFor(segs), attrs) == S.Literal(key, LeafFor(segs).cmp)
  {
    hide *;
    LeafForPattern(segs);
    MatchUndoesFormat(segs, attrs);
    RestrictAll(attrs);
    FiresBack(segs, attrs, key);
    LeafTriggers(LeafFor(segs), key);
    LeafForKey(segs, attrs);
    assert attrs + map[] == attrs;
  }

  lemma RestrictAll(attrs: Attrs)
    ensures Restrict(attrs, attrs.Keys) == attrs
  {
  }

  lemma LeafForKey(segs: seq<Segment>, attrs: Attrs)
    requires LeafFor(segs).LiteralLeaf? && Segments(LeafFor(segs).pattern) == segs
    ensures Instantiate(LeafFor(segs), attrs) == S.Literal(Render(segs, attrs), LeafFor(segs).cmp)
    ensures LeafFor(segs).LiteralLeaf? && LeafFor(segs).attrs == map[]
  {
  }

  lemma FiresBack(segs: seq<Segment>, attrs: Attrs, key: string)
    requires MatchKey(segs, key) == Some(attrs) && Render(segs, attrs) == key
    ensures FormatsBack(segs, key)
  {
  }

  lemma PairOf(a: Segment, b: Segment, attrs: Attrs)
    ensures Names([a, b]) == Names([a]) + Names([b])
    ensures Render([a, b], attrs) == "/" + Text(a, attrs) + "/" + Text(b, attrs)
  {
    var pair := [a, b];
    assert pair[1..] == [b] && pair[0] == a;
    assert [b][1..] == [] && [a][1..] == [];
    assert Render([b], attrs) == "/" + Text(b, attrs) + "";
    assert Names([]) == {};
  }

  lemma NameOf(name: string, text: string)
    ensures Names([Param(name)]) == {name} && Names([Lit(text)]) == {}
  {
  }

  /**
   * Nested rules whose leaves differ in parameters break the law. Or(And("/:a/y", "/:b"), "/:b/:a")
   * on the key "/x/y", with b expanded to "x": before expansion the AND cannot be built, because
   * its first firing leaf leaves b unbound; once b is written in it can, it comes first, and the
   * whole rule is built with another value of a, so it reads other keys.
   */
  lemma ExpansionCanChangeMeaning()
    ensures var l1, l2, l3 := LeafFor([Param("a"), Lit("y")]), LeafFor([Param("b")]), LeafFor([Param("b"), Param("a")]);
      var r, values: Attrs := Mixed(l1, l2, l3), map["b" := "x"];
      && PlainLiteralTree(r) && MakeStatic(r, "/x/y").Some?
      && Agrees(MakeStatic(r, "/x/y").value.attrs, values, Params(r))
      && MakeStatic(Subst(r, values), "/x/y").Some?
      && MakeStatic(Subst(r, values), "/x/y").value.rule != MakeStatic(r, "/x/y").value.rule
  {
    hide Triggers, Params, Subst, LeafFor, MakeStatic, Names, Segments, PlainLiteralTree;
    var key := "/x/y";
    var l1, l2, l3 := LeafFor([Param("a"), Lit("y")]), LeafFor([Param("b")]), LeafFor([Param("b"), Param("a")]);
    var a, ba, values: Attrs := map["a" := "x"], map["b" := "x", "a" := "y"], map["b" := "x"];
    FirstLeaf();
    LastLeaf();
    NameOf("b", "y");
    LeafForPattern([Param("b")]);
    MixedBefore(l1, l2, l3, key);
    MixedSubst(l1, l2, l3, values);
    assert Instantiate(l1, a) == S.Literal(key, l1.cmp);
    MixedAfter(l1, Subst(l2, values), Subst(l3, values), key);
    var before := MakeStatic(Mixed(l1, l2, l3), key).value;
    var after := MakeStatic(Subst(Mixed(l1, l2, l3), values), key).value;
    assert before.rule.rules[0].rules[0] == Instantiate(l1, ba);
    assert after.rule.rules[0].rules[0] == Instantiate(l1, a);
    assert "/x/y"[1] != "/y/y"[1];
    MixedPlain([Param("a"), Lit("y")], [Param("b")], [Param("b"), Param("a")]);
  }

  lemma MixedPlain(s1: seq<Segment>, s2: seq<Segment>, s3: seq<Segment>)
    ensures PlainLiteralTree(Mixed(LeafFor(s1), LeafFor(s2), LeafFor(s3)))
  {
    hide Render;
    var r := Mixed(LeafFor(s1), LeafFor(s2), LeafFor(s3));
    assert PlainLiteralTree(r.rules[0]);
  }

  lemma MixedSubst(l1: Rule, l2: Rule, l3: Rule, values: Attrs)
    requires l1.LiteralLeaf? && Params(l1) !! values.Keys && PlainAttrs(values)
    ensures Subst(Mixed(l1, l2, l3), values) == Mixed(l1, Subst(l2, values), Subst(l3, values))
    ensures Params(Subst(l2, values)) == Params(l2) - values.Keys
    ensures Params(Subst(l3, values)) == Params(l3) - values.Keys
    ensures Params(Mixed(l1, l2, l3)) == Params(l1) + Params(l2) + Params(l3)
  {
    hide Params, SubstLeaf;
    SubstParams(l2, values);
    SubstParams(l3, values);
    MixedParams(l1, l2, l3);
    var both := And([l1, l2]);
    assert Subst(both, values).rules == [l1, Subst(l2, values)];
    assert Subst(Mixed(l1, l2, l3), values).rules == [Subst(both, values), Subst(l3, values)];
  }

  lemma FirstLeaf()
    ensures var l1 := LeafFor([Param("a"), Lit("y")]);
      && Params(l1) == {"a"} && Triggers(l1, "/x/y")
      && MakeStatic(l1, "/x/y").Some? && MakeStatic(l1, "/x/y").value.attrs == map["a" := "x"]
      && Instantiate(l1, map["a" := "x"]) == S.Literal("/x/y", l1.cmp)
      && Instantiate(l1, map["b" := "x", "a" := "y"]) == S.Literal("/y/y", l1.cmp)
  {
    hide MakeStatic, Triggers, Params, Segments, Names, Render, LeafFor, Instantiate;
    var segs := [Param("a"), Lit("y")];
    var a, ba: Attrs := map["a" := "x"], map["b" := "x", "a" := "y"];
    NameOf("a", "y");
    PairOf(Param("a"), Lit("y"), a);
    PairOf(Param("a"), Lit("y"), ba);
    LeafForPattern(segs);
    LeafForFires(segs, a, "/x/y");
    LeafForKey(segs, ba);
  }

  lemma LastLeaf()
    ensures var l3 := LeafFor([Param("b"), Param("a")]);
      && Params(l3) == {"a", "b"} && Triggers(l3, "/x/y")
      && MakeStatic(l3, "/x/y").Some? && MakeStatic(l3, "/x/y").value.attrs == map["b" := "x", "a" := "y"]
  {
    hide MakeStatic, Triggers, Params, Segments, Names, Render, LeafFor, Instantiate;
    var segs := [Param("b"), Param("a")];
    var ba: Attrs := map["b" := "x", "a" := "y"];
    NameOf("a", "y");
    NameOf("b", "y");
    PairOf(Param("b"), Param("a"), ba);
    LeafForPattern(segs);
    LeafForFires(segs, ba, "/x/y");
  }
  // ---------------------------------------------------------------------------
  // Equality leaves in front of other rules

  ghost function EqualsFor(s1: seq<Segment>, s2: seq<Segment>): Rule {
    EqualsLeaf([Render(s1, map[]), Render(s2, map[])], "", map[])
  }

  lemma EqualsForPatterns(s1: seq<Segment>, s2: seq<Segment>)
    requires Parsed(s1) && Parsed(s2)
    ensures var p := EqualsFor(s1, s2).patterns; Segments(p[0]) == s1 && Segments(p[1]) == s2
    ensures Params(EqualsFor(s1, s2)) == Names(s1) + Names(s2)
  {
    hide Render, Segments, Names;
    ParseOfFormat(s1, map[]);
    ParseOfFormat(s2, map[]);
    assert Specialize(s1, map[]) == s1 && Specialize(s2, map[]) == s2;
    var eq := EqualsFor(s1, s2);
    assert PatternSet(eq) == {eq.patterns[0], eq.patterns[1]};
  }

  /** The first pattern matches, but the key is not among the keys it leads to. */
  lemma EqualsForShadowed(s1: seq<Segment>, s2: seq<Segment>, attrs: Attrs, key: string)
    requires Parsed(s1) && Parsed(s2) && MatchKey(s1, key) == Some(attrs) && Render(s1, attrs) != key
    requires Render(s2, attrs) != key
    ensures !Triggers(EqualsFor(s1, s2), key)
  {
    hide Render, Segments, MatchKey;
    EqualsForPatterns(s1, s2);
    var eq := EqualsFor(s1, s2);
    assert FirstMatch(eq.patterns, key) == Some(attrs);
    assert Instantiate(eq, attrs).keys == [Render(s1, attrs), Render(s2, attrs)];
  }

  /** With the values written in, the first pattern no longer matches and the second one does. */
  lemma EqualsForUnder(s1: seq<Segment>, s2: seq<Segment>, values: Attrs, m: Attrs, key: string)
    requires Parsed(s1) && Parsed(s2) && MatchKey(Specialize(s1, values), key).None?
    requires MatchKey(Specialize(s2, values), key) == Some(m)
    requires Render(s2, m + values) == key && Names(s1) == Names(s2)
    ensures FirstUnder(EqualsFor(s1, s2), values, key) == Some(m + Restrict(values, Names(s1)))
  {
    hide Render, Segments, Names, MatchKey, Specialize, Params;
    EqualsForPatterns(s1, s2);
    var p := EqualsFor(s1, s2).patterns;
    assert Names(s1) + Names(s2) == Names(s1);
    assert p[1..] == [p[1]];
    assert FirstMatchUnder([p[1]], values, key) == Some(m);
    assert FirstMatchUnder(p, values, key) == Some(m);
    assert FormatAll(p, m + values)[1] == key;
  }

  lemma TripleOf(a: Segment, b: Segment, c: Segment, attrs: Attrs)
    ensures Names([a, b, c]) == Names([a]) + Names([b]) + Names([c])
    ensures Render([a, b, c], attrs) == "/" + Text(a, attrs) + "/" + Text(b, attrs) + "/" + Text(c, attrs)
  {
    hide Text;
    PairOf(b, c, attrs);
    var triple := [a, b, c];
    assert triple[1..] == [b, c] && triple[0] == a && [a][1..] == [];
    assert Names([]) == {};
  }

  /** Facts about the AND of two rules. */
  lemma PairFacts(first: Rule, second: Rule)
    ensures Params(And([first, second])) == Params(first) + Params(second)
    ensures SameParams(first) && SameParams(second) ==> NestedSameParams(And([first, second]))
    ensures Unexpanded(first) && Unexpanded(second) ==> Unexpanded(And([first, second]))
  {
    hide Params, SameParams;
    MixedParams(first, second, second);
  }

  lemma PairUnder(first: Rule, second: Rule, values: Attrs, key: string, attrs: Attrs)
    requires FirstUnder(first, values, key) == Some(attrs) && Params(first) <= attrs.Keys
    requires Params(second) <= attrs.Keys
    ensures FirstUnder(And([first, second]), values, key) == Some(attrs)
  {
    hide Params;
    PairFacts(first, second);
    var r := And([first, second]);
    assert FirstNestedUnder(r.rules, values, key) == Some(attrs);
  }

  lemma PairSecond(first: Rule, second: Rule, key: string)
    requires !Triggers(first, key) && Triggers(second, key)
    requires Params(first) + Params(second) <= MakeStatic(second, key).value.attrs.Keys
    ensures MakeStatic(And([first, second]), key).Some?
    ensures MakeStatic(And([first, second]), key).value.attrs == MakeStatic(second, key).value.attrs
  {
    hide Params, Instantiate, Triggers;
    PairFacts(first, second);
    var r := And([first, second]);
    FirstTriggerIs(r.rules, key, 1);
  }

  lemma EqualsForSame(s1: seq<Segment>, s2: seq<Segment>)
    requires Parsed(s1) && Parsed(s2) && Names(s1) == Names(s2)
    ensures SameParams(EqualsFor(s1, s2))
  {
    hide Params, Names, Render;
    EqualsForPatterns(s1, s2);
  }

  lemma LeafForSame(segs: seq<Segment>)
    requires Parsed(segs)
    ensures SameParams(LeafFor(segs))
  {
    hide Params, Names, Render;
    LeafForPattern(segs);
  }

  // The patterns "/:x/:y", "/:y/u/:x" and "/k/:y/:x" of the counterexample, on the key "/k/u/v".

  ghost function Shadowing(): seq<Segment> { [Param("x"), Param("y")] }

  ghost function Shadowed(): seq<Segment> { [Param("y"), Lit("u"), Param("x")] }

  ghost function Behind(): seq<Segment> { [Lit("k"), Param("y"), Param("x")] }

  lemma ExampleNames()
    ensures Parsed(Shadowing()) && Parsed(Shadowed()) && Parsed(Behind())
    ensures Names(Shadowing()) == Names(Shadowed()) == Names(Behind()) == {"x", "y"}
  {
    hide Names, Render;
    NameOf("x", "u");
    NameOf("y", "k");
    PairOf(Param("x"), Param("y"), map[]);
    TripleOf(Param("y"), Lit("u"), Param("x"), map[]);
    TripleOf(Lit("k"), Param("y"), Param("x"), map[]);
  }

  /** The first pattern matches the front of the key, and neither of the two spells the key with that match. */
  lemma FrontMatches()
    ensures MatchKey(Shadowing(), "/k/u/v") == Some(map["x" := "k", "y" := "u"])
  {
    var segs, rest, key := Shadowing(), [Param("y")], "/k/u/v";
    assert RunEnd(key, 2) == 2 && RunEnd(key, 4) == 4;
    assert RunEnd(key, 1) == 2 && RunEnd(key, 3) == 4;
    assert key[3..4] == "u" && key[1..2] == "k";
    assert segs[1..] == rest && rest[1..] == [];
    assert Captured(rest, ["u"]) == map["y" := "u"];
    assert ["k", "u"][1..] == ["u"] && Captured(segs, ["k", "u"]) == map["x" := "k", "y" := "u"];
    hide MatchAt;
    MatchNothing(key, 4);
    MatchAtUnfold(rest, key, 2, 4);
    MatchAtUnfold(segs, key, 0, 2);
    assert ["k"] + ["u"] == ["k", "u"] && ["u"] + [] == ["u"];
    assert MatchAt(segs, key, 0) == Some(Match(["k", "u"], 4));
  }

  lemma FrontSpellsOthers()
    ensures Render(Shadowing(), map["x" := "k", "y" := "u"]) != "/k/u/v"
    ensures Render(Shadowed(), map["x" := "k", "y" := "u"]) != "/k/u/v"
  {
    hide Render, Names;
    var key: string, front: Attrs := "/k/u/v", map["x" := "k", "y" := "u"];
    PairOf(Param("x"), Param("y"), front);
    TripleOf(Param("y"), Lit("u"), Param("x"), front);
    assert |Render(Shadowing(), front)| == 4 && Render(Shadowed(), front)[1] == 'u' && key[1] == 'k';
  }

  /** With x written in, the first pattern matches nowhere. */
  lemma NothingMatches()
    ensures MatchKey(Specialize(Shadowing(), map["x" := "v"]), "/k/u/v").None?
  {
    var segs, key := [Lit("v"), Param("y")], "/k/u/v";
    assert Specialize(Shadowing(), map["x" := "v"]) == segs;
    assert segs[1..] == [Param("y")];
    assert MatchAt([Param("y")], key, 6).None?;
    forall j | 0 <= j <= |key| ensures MatchAt(segs, key, j).None? {
      if j == 0 { assert key[1..2] == "k"; }
      if j == 2 { assert key[3..4] == "u"; }
      if j == 4 { assert key[5..6] == "v"; }
    }
  }

  /** With x written in, the second pattern matches all of the key. */
  lemma WholeMatches()
    ensures MatchKey(Specialize(Shadowed(), map["x" := "v"]), "/k/u/v") == Some(map["y" := "k"])
    ensures Render(Shadowed(), map["y" := "k"] + map["x" := "v"]) == "/k/u/v"
  {
    var s, m: Attrs, key := [Param("y"), Lit("u"), Lit("v")], map["y" := "k"], "/k/u/v";
    assert Specialize(Shadowed(), map["x" := "v"]) == s;
    hide MatchKey, Render, Names, Specialize;
    TripleOf(s[0], s[1], s[2], m);
    TripleOf(Param("y"), Lit("u"), Param("x"), m + map["x" := "v"]);
    NameOf("y", "u");
    NameOf("y", "v");
    assert Names(s) == m.Keys;
    assert Render(s, m) == key;
    MatchUndoesFormat(s, m);
    RestrictAll(m);
  }

  lemma BehindSpells()
    ensures Render(Behind(), map["x" := "v", "y" := "u"]) == "/k/u/v"
  {
    hide Render, Names;
    TripleOf(Lit("k"), Param("y"), Param("x"), map["x" := "v", "y" := "u"]);
  }

  ghost function EqualityFirst(): Rule { And([EqualsFor(Shadowing(), Shadowed()), LeafFor(Behind())]) }

  lemma EqualityFirstParts()
    ensures Params(EqualsFor(Shadowing(), Shadowed())) == Params(LeafFor(Behind())) == {"x", "y"}
    ensures Unexpanded(EqualityFirst()) && NestedSameParams(EqualityFirst())
  {
    hide Params, SameParams, Names, Render, Shadowing, Shadowed, Behind, Parsed;
    ExampleNames();
    EqualsForPatterns(Shadowing(), Shadowed());
    LeafForPattern(Behind());
    EqualsForSame(Shadowing(), Shadowed());
    LeafForSame(Behind());
    PairFacts(EqualsFor(Shadowing(), Shadowed()), LeafFor(Behind()));
  }

  /**
   * An equality leaf in front of another rule breaks the law even where all parameters are the
   * same. And(Equals("/:x/:y", "/:y/u/:x"), "/k/:y/:x") on the key "/k/u/v", with x expanded to
   * "v": before expansion the first pattern shadows the second and the last leaf binds y to "u";
   * once x is written in, the second pattern matches and binds y to "k".
   */
  lemma EqualityCanChangeMeaning()
    ensures var r, key, values: Attrs := EqualityFirst(), "/k/u/v", map["x" := "v"];
      && Unexpanded(r) && NestedSameParams(r)
      && MakeStatic(r, key).Some? && MakeStatic(r, key).value.attrs == map["x" := "v", "y" := "u"]
      && MakeStatic(Subst(r, values), key).Some?
      && MakeStatic(Subst(r, values), key).value.attrs == map["x" := "v", "y" := "k"]
  {
    hide *;
    EqualityFirstParts();
    EqualityBefore();
    EqualityExpanded();
  }

  lemma EqualityExpanded()
    ensures var q := Subst(EqualityFirst(), map["x" := "v"]);
      MakeStatic(q, "/k/u/v").Some? && MakeStatic(q, "/k/u/v").value.attrs == map["x" := "v", "y" := "k"]
  {
    var r, values: Attrs := EqualityFirst(), map["x" := "v"];
    assert PlainAttrs(values);
    hide *;
    EqualityFirstParts();
    EqualityAfter();
    UnderIsSubst(r, values, "/k/u/v");
    FiringIs(Subst(r, values), "/k/u/v");
  }

  lemma FiringIs(r: Rule, key: string)
    ensures FiringAttrs(r, key).Some? ==>
      MakeStatic(r, key).Some? && MakeStatic(r, key).value.attrs == FiringAttrs(r, key).value
  {
    hide MakeStatic;
  }

  lemma EqualityBefore()
    ensures MakeStatic(EqualityFirst(), "/k/u/v").Some?
    ensures MakeStatic(EqualityFirst(), "/k/u/v").value.attrs == map["x" := "v", "y" := "u"]
  {
    var key: string, front: Attrs, all: Attrs := "/k/u/v", map["x" := "k", "y" := "u"], map["x" := "v", "y" := "u"];
    assert PlainAttrs(all);
    var eq, leaf := EqualsFor(Shadowing(), Shadowed()), LeafFor(Behind());
    assert EqualityFirst() == And([eq, leaf]);
    hide *;
    ExampleNames();
    FrontMatches();
    FrontSpellsOthers();
    EqualsForShadowed(Shadowing(), Shadowed(), front, key);
    BehindSpells();
    LeafForFires(Behind(), all, key);
    EqualityFirstParts();
    PairSecond(eq, leaf, key);
  }

  lemma EqualityAfter()
    ensures FirstUnder(EqualityFirst(), map["x" := "v"], "/k/u/v") == Some(map["x" := "v", "y" := "k"])
  {
    var key: string, values: Attrs, m: Attrs := "/k/u/v", map["x" := "v"], map["y" := "k"];
    var attrs: Attrs := map["x" := "v", "y" := "k"];
    assert m + Restrict(values, {"x", "y"}) == attrs;
    var eq, leaf := EqualsFor(Shadowing(), Shadowed()), LeafFor(Behind());
    assert EqualityFirst() == And([eq, leaf]);
    hide *;
    ExampleNames();
    NothingMatches();
    WholeMatches();
    EqualsForUnder(Shadowing(), Shadowed(), values, m, key);
    EqualityFirstParts();
    PairUnder(eq, leaf, values, key, attrs);
  }

  // ---------------------------------------------------------------------------
  // Expanded parameters in lock patterns

  ghost function Wide(): seq<Segment> { [Param("a"), Param("b")] }

  ghost function Narrow(): seq<Segment> { [Param("b")] }

  ghost function OneWithout(): Rule { And([LeafFor(Wide()), LeafFor(Narrow())]) }

  lemma WideNames()
    ensures Parsed(Wide()) && Parsed(Narrow()) && Names(Wide()) == {"a", "b"} && Names(Narrow()) == {"b"}
    ensures Render(Wide(), map["a" := "1", "b" := "x"]) == "/1/x" && Render(Narrow(), map["b" := "x"]) == "/x"
  {
    hide Names;
    NameOf("a", "x");
    NameOf("b", "x");
    PairOf(Param("a"), Param("b"), map["a" := "1", "b" := "x"]);
    var one := [Param("b")];
    assert one[1..] == [];
  }

  lemma OneSlashPerSegment(segs: seq<Segment>, key: string)
    requires Parsed(segs) && FormatsBack(segs, key)
    ensures Slashes(key) == |segs|
  {
    MatchBinds(segs, key);
    FormattedSlashes(segs, MatchKey(segs, key).value);
  }

  /** The first leaf has two segments, so it does not fire on a key with one. */
  lemma WideStaysOff()
    ensures !Triggers(LeafFor(Wide()), "/x")
  {
    assert |Wide()| == 2 && Slashes("x") == 0 && Slashes("/x") == 1;
    hide *;
    WideNames();
    LeafForPattern(Wide());
    LeafTriggers(LeafFor(Wide()), "/x");
    if FormatsBack(Wide(), "/x") { OneSlashPerSegment(Wide(), "/x"); }
  }

  lemma LeafUnder(segs: seq<Segment>, attrs: Attrs, values: Attrs, key: string)
    requires Parsed(segs) && PlainAttrs(attrs) && attrs.Keys == Names(segs) && Render(segs, attrs) == key
    requires Agrees(attrs, values, Names(segs))
    ensures FirstUnder(LeafFor(segs), values, key) == Some(attrs)
  {
    hide MakeStatic, Triggers, Params, Names, Render;
    LeafForPattern(segs);
    LeafForFires(segs, attrs, key);
  }

  lemma OnWideKey()
    ensures FirstUnder(OneWithout(), map["a" := "1"], "/1/x") == Some(map["a" := "1", "b" := "x"])
  {
    var both: Attrs, values: Attrs := map["a" := "1", "b" := "x"], map["a" := "1"];
    var l1, l2 := LeafFor(Wide()), LeafFor(Narrow());
    assert OneWithout() == And([l1, l2]) && PlainAttrs(both) && Agrees(both, values, {"a", "b"});
    hide *;
    WideNames();
    LeafForPattern(Wide());
    LeafForPattern(Narrow());
    LeafUnder(Wide(), both, values, "/1/x");
    PairUnder(l1, l2, values, "/1/x", both);
  }

  lemma NarrowFacts()
    ensures var one: Attrs, values: Attrs := map["b" := "x"], map["a" := "1"];
      && PlainAttrs(one) && one.Keys == {"b"} && Agrees(one, values, {"b"}) && {"a", "b"} <= one.Keys + values.Keys
  {
  }

  lemma OffIsNone(segs: seq<Segment>, values: Attrs, key: string)
    requires !Triggers(LeafFor(segs), key)
    ensures FirstUnder(LeafFor(segs), values, key).None?
  {
    hide Triggers, Params;
  }

  lemma OnNarrowKey()
    ensures FirstUnder(OneWithout(), map["a" := "1"], "/x") == Some(map["b" := "x"])
  {
    var one: Attrs, values: Attrs := map["b" := "x"], map["a" := "1"];
    var l1, l2 := LeafFor(Wide()), LeafFor(Narrow());
    assert OneWithout() == And([l1, l2]);
    hide *;
    NarrowFacts();
    WideNames();
    LeafForPattern(Wide());
    LeafForPattern(Narrow());
    LeafUnder(Narrow(), one, values, "/x");
    WideStaysOff();
    OffIsNone(Wide(), values, "/x");
    PairUnderSecond(l1, l2, values, "/x", one);
  }

  lemma OneWithoutParams()
    ensures Unexpanded(OneWithout()) && Params(OneWithout()) == {"a", "b"}
  {
    hide Params, Names, Render, Wide, Narrow, Parsed;
    WideNames();
    LeafForPattern(Wide());
    LeafForPattern(Narrow());
    PairFacts(LeafFor(Wide()), LeafFor(Narrow()));
    assert {"a", "b"} + {"b"} == {"a", "b"};
  }

  lemma PairUnderSecond(first: Rule, second: Rule, values: Attrs, key: string, attrs: Attrs)
    requires FirstUnder(first, values, key).None? && FirstUnder(second, values, key) == Some(attrs)
    requires Params(first) <= attrs.Keys + values.Keys && Params(second) <= attrs.Keys + values.Keys
    ensures FirstUnder(And([first, second]), values, key) == Some(attrs)
  {
    hide Params;
    PairFacts(first, second);
    var r := And([first, second]);
    assert FirstNestedUnder([second], values, key) == Some(attrs);
    assert r.rules[1..] == [second];
    assert FirstNestedUnder(r.rules, values, key) == Some(attrs);
  }

  /**
   * A lock pattern with an expanded parameter that some leaf lacks. And("/:a/:b", "/:b") with a
   * expanded to "1": the keys "/1/x" and "/x" trigger the same instance, and the lock pattern
   * "/:a/:b" gives them different lock keys.
   */
  lemma LockKeysCanDiffer()
    ensures var q, lockPattern := Subst(OneWithout(), map["a" := "1"]), Render(Wide(), map[]);
      && MakeStatic(q, "/1/x").Some? && MakeStatic(q, "/x").Some?
      && MakeStatic(q, "/1/x").value.rule == MakeStatic(q, "/x").value.rule
      && Format(lockPattern, MakeStatic(q, "/1/x").value.attrs) != Format(lockPattern, MakeStatic(q, "/x").value.attrs)
  {
    var values: Attrs, lockPattern := map["a" := "1"], Render(Wide(), map[]);
    var r, q := OneWithout(), Subst(OneWithout(), map["a" := "1"]);
    assert PlainAttrs(values);
    assert lockPattern == LeafFor(Wide()).pattern;
    hide *;
    WideNames();
    OnWideKey();
    OnNarrowKey();
    OneWithoutParams();
    UnderIsSubst(r, values, "/1/x");
    UnderIsSubst(r, values, "/x");
    FiringIs(q, "/1/x");
    FiringIs(q, "/x");
    UnexpandedIsSound(r);
    SubstSound(r, values);
    SubstParams(r, values);
    InstanceIsInstantiation(q, "/1/x");
    InstanceIsInstantiation(q, "/x");
    InstantiateIgnoresOthers(q, MakeStatic(q, "/1/x").value.attrs, MakeStatic(q, "/x").value.attrs);
    LeafForPattern(Wide());
    ExpandedLockKeys(r, values, "/1/x", "/x", lockPattern);
  }
}
