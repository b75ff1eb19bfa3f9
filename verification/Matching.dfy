/**
 * Matching and formatting undo each other (rules/matcher.go). The matcher is unanchored, so the
 * interesting question is when formatting a match gives back the whole key; that is what makes a
 * literal leaf fire on a key (rules/dynamic_rule.go).
 */
module Matching {
  import opened Base
  import opened Paths

  // ---------------------------------------------------------------------------
  // The matcher against the regular expression it stands for

  /**
   * The language of the generated expression: a slash before each segment, and any non-empty
   * string of `[^/:]` for a group.
   */
  ghost predicate Parses(segs: seq<Segment>, s: string, i: nat, captures: seq<string>, end: nat)
    decreases segs
  {
    if segs == [] then captures == [] && end == i <= |s|
    else
      && i < |s| && s[i] == '/'
      && match segs[0]
         case Lit(text) =>
           var next := i + 1 + |text|;
           next <= |s| && s[i + 1..next] == text && Parses(segs[1..], s, next, captures, end)
         case Param(_) =>
           && captures != [] && Plain(captures[0])
           && var next := i + 1 + |captures[0]|;
              next <= |s| && s[i + 1..next] == captures[0] && Parses(segs[1..], s, next, captures[1..], end)
  }

  /**
   * MatchAt finds a parse whenever one exists, and no parse captures more in any group: it is
   * the greedy match.
   */
  lemma {:induction false} MatchAtIsGreedy(segs: seq<Segment>, s: string, i: nat, captures: seq<string>, end: nat)
    requires i <= |s| && Parses(segs, s, i, captures, end)
    ensures MatchAt(segs, s, i).Some? && end <= MatchAt(segs, s, i).value.end
    ensures NoLonger(captures, MatchAt(segs, s, i).value.captures)
  {
    if segs == [] {
      MatchNothing(s, i);
    } else {
      hide *;
      var head, rest := ParseHead(segs, s, i, captures, end);
      var next := i + 1 + |head|;
      HeadIsTaken(segs[0], s, i, head);
      var taken := SegmentEnd(segs[0], s, i).value;
      if taken == next {
        MatchAtIsGreedy(segs[1..], s, next, rest, end);
      } else {
        MatchNothing(s, taken);
      }
      MatchAtUnfold(segs, s, i, taken);
      NoLongerCons(head, rest, s[i + 1..taken], MatchAt(segs[1..], s, taken).value.captures);
    }
  }

  /** What a parse gives the first segment, and the parse of the rest. */
  lemma ParseHead(segs: seq<Segment>, s: string, i: nat, captures: seq<string>, end: nat)
    returns (head: string, rest: seq<string>)
    requires segs != [] && Parses(segs, s, i, captures, end)
    ensures if segs[0].Lit? then segs[0].text == head else Plain(head)
    ensures captures == if segs[0].Param? then [head] + rest else rest
    ensures var next := i + 1 + |head|;
      && next <= |s| && s[i] == '/' && s[i + 1..next] == head && Parses(segs[1..], s, next, rest, end)
      && (segs[1..] == [] ==> rest == [] && end == next)
      && (segs[1..] != [] ==> next < |s| && s[next] == '/')
  {
    head := if segs[0].Lit? then segs[0].text else captures[0];
    rest := if segs[0].Lit? then captures else captures[1..];
  }

  lemma MatchAtUnfold(segs: seq<Segment>, s: string, i: nat, end: nat)
    requires segs != [] && i < end <= |s| && SegmentEnd(segs[0], s, i) == Some(end)
    ensures MatchAt(segs, s, i).Some? <==> MatchAt(segs[1..], s, end).Some?
    ensures MatchAt(segs, s, i).Some? ==>
      var rest := MatchAt(segs[1..], s, end).value;
      var captures := if segs[0].Param? then [s[i + 1..end]] + rest.captures else rest.captures;
      MatchAt(segs, s, i).value == Match(captures, rest.end)
  {
    hide SegmentEnd;
  }

  ghost predicate NoLonger(a: seq<string>, b: seq<string>) {
    |a| == |b| && forall k :: 0 <= k < |a| ==> a[k] <= b[k]
  }

  lemma NoLongerCons(x: string, a: seq<string>, y: string, b: seq<string>)
    ensures NoLonger(a, b) && x <= y ==> NoLonger([x] + a, [y] + b)
  {
  }

  /** A segment takes at least the text of a parse, and more only where no slash follows that text. */
  lemma HeadIsTaken(seg: Segment, s: string, i: nat, head: string)
    requires if seg.Lit? then seg.text == head else Plain(head)
    requires i + 1 + |head| <= |s| && s[i] == '/' && s[i + 1..i + 1 + |head|] == head
    ensures SegmentEnd(seg, s, i).Some?
    ensures var end, next := SegmentEnd(seg, s, i).value, i + 1 + |head|;
      next <= end && head <= s[i + 1..end] && (next < end ==> seg.Param? && s[next] != '/')
  {
    var next := i + 1 + |head|;
    assert forall j :: i + 1 <= j < next ==> s[j] == head[j - i - 1];
  }

  lemma {:induction false} MatchAtParses(segs: seq<Segment>, s: string, i: nat)
    requires i <= |s| && MatchAt(segs, s, i).Some?
    ensures Parses(segs, s, i, MatchAt(segs, s, i).value.captures, MatchAt(segs, s, i).value.end)
  {
    if segs != [] {
      var next := SegmentEnd(segs[0], s, i).value;
      MatchAtParses(segs[1..], s, next);
      var rest := MatchAt(segs[1..], s, next).value.captures;
      assert ([s[i + 1..next]] + rest)[1..] == rest;
    }
  }

  // ---------------------------------------------------------------------------
  // Round trips

  /** The values that attrs gives the parameters, in order. */
  function Values(segs: seq<Segment>, attrs: Attrs): (values: seq<string>)
    requires Names(segs) <= attrs.Keys
    ensures |values| == Arity(segs)
    ensures PlainAttrs(attrs) ==> PlainAll(values)
  {
    if segs == [] then []
    else if segs[0].Param? then [attrs[segs[0].name]] + Values(segs[1..], attrs)
    else Values(segs[1..], attrs)
  }

  lemma {:induction false} RenderIsCaptures(segs: seq<Segment>, attrs: Attrs)
    requires Names(segs) <= attrs.Keys
    ensures Render(segs, attrs) == RenderCaptures(segs, Values(segs, attrs))
  {
    if segs != [] {
      RenderIsCaptures(segs[1..], attrs);
      if segs[0].Param? { assert Values(segs, attrs)[1..] == Values(segs[1..], attrs); }
    }
  }

  /** Plain captures, written out, are matched back to themselves. */
  lemma {:induction false} CapturesMatch(segs: seq<Segment>, captures: seq<string>, s: string, i: nat)
    requires Parsed(segs) && |captures| == Arity(segs) && PlainAll(captures)
    requires i <= |s| && s[i..] == RenderCaptures(segs, captures)
    ensures MatchAt(segs, s, i) == Some(Match(captures, |s|))
  {
    if segs == [] {
      MatchNothing(s, i);
    } else {
      var head, rest := CapturesHead(segs, captures);
      hide *;
      var next := i + 1 + |head|;
      SegmentTakesHead(segs[0], s, i, head, RenderCaptures(segs[1..], rest));
      CapturesMatch(segs[1..], rest, s, next);
      MatchAtUnfold(segs, s, i, next);
    }
  }

  lemma CapturesHead(segs: seq<Segment>, captures: seq<string>) returns (head: string, rest: seq<string>)
    requires segs != [] && Parsed(segs) && |captures| == Arity(segs) && PlainAll(captures)
    ensures if segs[0].Lit? then segs[0].text == head else Plain(head)
    ensures captures == if segs[0].Param? then [head] + rest else rest
    ensures Parsed(segs[1..]) && |rest| == Arity(segs[1..]) && PlainAll(rest)
    ensures RenderCaptures(segs, captures) == "/" + head + RenderCaptures(segs[1..], rest)
    ensures var tail := RenderCaptures(segs[1..], rest); tail == "" || tail[0] == '/'
  {
    head := if segs[0].Lit? then segs[0].text else captures[0];
    rest := if segs[0].Lit? then captures else captures[1..];
  }

  lemma MatchNothing(s: string, i: nat)
    requires i <= |s|
    ensures MatchAt([], s, i) == Some(Match([], i)) && NoLonger([], [])
  {
  }

  lemma SegmentTakesHead(seg: Segment, s: string, i: nat, head: string, tail: string)
    requires if seg.Lit? then seg.text == head else Plain(head)
    requires tail == "" || tail[0] == '/'
    requires i <= |s| && s[i..] == "/" + head + tail
    ensures var end := i + 1 + |head|;
      end <= |s| && SegmentEnd(seg, s, i) == Some(end) && s[i + 1..end] == head && s[end..] == tail
  {
    var end := i + 1 + |head|;
    assert forall j :: i <= j < |s| ==> s[j] == s[i..][j - i];
    assert s[i + 1..end] == head;
    if seg.Param? {
      assert forall j :: i + 1 <= j < end ==> s[j] == head[j - i - 1] && s[j] != '/' && s[j] != ':';
      assert tail != "" ==> s[end] == tail[0];
    }
  }

  ghost function Restrict(attrs: Attrs, names: set<string>): Attrs {
    map n | n in attrs && n in names :: attrs[n]
  }

  lemma {:induction false} CapturedValues(segs: seq<Segment>, attrs: Attrs)
    requires Names(segs) <= attrs.Keys
    ensures Captured(segs, Values(segs, attrs)) == Restrict(attrs, Names(segs))
  {
    if segs != [] {
      CapturedValues(segs[1..], attrs);
      if segs[0].Param? { assert Values(segs, attrs)[1..] == Values(segs[1..], attrs); }
    }
  }

  /** Matching a formatted path returns the attributes it was formatted with. */
  lemma MatchUndoesFormat(segs: seq<Segment>, attrs: Attrs)
    requires Parsed(segs) && PlainAttrs(attrs) && Names(segs) <= attrs.Keys
    ensures MatchKey(segs, Render(segs, attrs)) == Some(Restrict(attrs, Names(segs)))
    ensures FindFrom(segs, Render(segs, attrs), 0) == Some(Found(0, Match(Values(segs, attrs), |Render(segs, attrs)|)))
  {
    RenderIsCaptures(segs, attrs);
    var s := Render(segs, attrs);
    assert s[0..] == s;
    CapturesMatch(segs, Values(segs, attrs), s, 0);
    CapturedValues(segs, attrs);
  }

  /** The captures of every repeated parameter agree. */
  ghost predicate Consistent(segs: seq<Segment>, captures: seq<string>)
    requires |captures| == Arity(segs)
  {
    CapturedNames(segs, captures);
    Values(segs, Captured(segs, captures)) == captures
  }

  /** Formatting a match gives back the matched text exactly when repeated parameters agree. */
  lemma FormatUndoesMatch(segs: seq<Segment>, s: string, i: nat)
    requires Parsed(segs) && i <= |s| && MatchAt(segs, s, i).Some?
    ensures var m := MatchAt(segs, s, i).value;
      && i <= m.end <= |s| && |m.captures| == Arity(segs)
      && (Render(segs, Captured(segs, m.captures)) == s[i..m.end] <==> Consistent(segs, m.captures))
  {
    MatchIsText(segs, s, i);
    var m := MatchAt(segs, s, i).value;
    var attrs := Captured(segs, m.captures);
    CapturedNames(segs, m.captures);
    RenderIsCaptures(segs, attrs);
    if Render(segs, attrs) == s[i..m.end] {
      var text := s[i..m.end];
      assert text[0..] == text;
      CapturesMatch(segs, Values(segs, attrs), text, 0);
      CapturesMatch(segs, m.captures, text, 0);
    }
  }

  ghost predicate Distinct(segs: seq<Segment>) {
    segs == [] || ((segs[0].Param? ==> segs[0].name !in Names(segs[1..])) && Distinct(segs[1..]))
  }

  lemma {:induction false} ValuesIgnoreOthers(segs: seq<Segment>, a: Attrs, b: Attrs)
    requires Names(segs) <= a.Keys && Names(segs) <= b.Keys
    requires forall n :: n in Names(segs) ==> a[n] == b[n]
    ensures Values(segs, a) == Values(segs, b)
  {
    if segs != [] { ValuesIgnoreOthers(segs[1..], a, b); }
  }

  lemma {:induction false} DistinctIsConsistent(segs: seq<Segment>, captures: seq<string>)
    requires Distinct(segs) && |captures| == Arity(segs)
    ensures Consistent(segs, captures)
  {
    CapturedNames(segs, captures);
    if segs != [] {
      var rest := if segs[0].Param? then captures[1..] else captures;
      CapturedNames(segs[1..], rest);
      DistinctIsConsistent(segs[1..], rest);
      ValuesIgnoreOthers(segs[1..], Captured(segs, captures), Captured(segs[1..], rest));
    }
  }

  /** Some plain values make the pattern spell this very key. */
  ghost predicate Spells(segs: seq<Segment>, key: string) {
    exists attrs: Attrs :: PlainAttrs(attrs) && Names(segs) <= attrs.Keys && Render(segs, attrs) == key
  }

  /** What a literal leaf asks of a key: formatting its match gives the key back. */
  ghost predicate FormatsBack(segs: seq<Segment>, key: string) {
    MatchKey(segs, key).Some? && Render(segs, MatchKey(segs, key).value) == key
  }

  /**
   * Although the expression is unanchored, formatting the match back gives the key exactly when
   * the leftmost match is the whole key with agreeing captures, and exactly when the pattern
   * spells the key.
   */
  lemma WholeKey(segs: seq<Segment>, key: string)
    requires Parsed(segs)
    ensures FormatsBack(segs, key) <==> Spells(segs, key)
    ensures FormatsBack(segs, key) <==>
      var f := FindFrom(segs, key, 0);
      && f.Some? && f.value.start == 0 && f.value.m.end == |key|
      && |f.value.m.captures| == Arity(segs) && Consistent(segs, f.value.m.captures)
  {
    var f := FindFrom(segs, key, 0);
    if f.Some? {
      MatchIsText(segs, key, f.value.start);
      FormatUndoesMatch(segs, key, f.value.start);
      var attrs := Captured(segs, f.value.m.captures);
      CapturedNames(segs, f.value.m.captures);
      assert MatchKey(segs, key) == Some(attrs);
      assert key[0..|key|] == key;
      if Render(segs, attrs) == key {
        assert PlainAttrs(attrs) && Names(segs) <= attrs.Keys;
        MatchUndoesFormat(segs, attrs);
      }
    }
    if attrs: Attrs :| PlainAttrs(attrs) && Names(segs) <= attrs.Keys && Render(segs, attrs) == key {
      MatchUndoesFormat(segs, attrs);
      RenderIgnoresOthers(segs, attrs, Restrict(attrs, Names(segs)));
    }
  }

  lemma {:induction false} RenderIgnoresOthers(segs: seq<Segment>, a: Attrs, b: Attrs)
    requires forall n :: n in Names(segs) ==> (n in a <==> n in b) && (n in a ==> a[n] == b[n])
    ensures Render(segs, a) == Render(segs, b)
  {
    if segs != [] { RenderIgnoresOthers(segs[1..], a, b); }
  }

  /** A match binds exactly the pattern's parameters, to plain values. */
  lemma MatchBinds(segs: seq<Segment>, key: string)
    requires MatchKey(segs, key).Some?
    ensures MatchKey(segs, key).value.Keys == Names(segs)
    ensures PlainAttrs(MatchKey(segs, key).value)
  {
    var f := FindFrom(segs, key, 0).value;
    MatchIsText(segs, key, f.start);
    CapturedNames(segs, f.m.captures);
  }

  // ---------------------------------------------------------------------------
  // Specialisation: giving values to some parameters

  function Specialize(segs: seq<Segment>, values: Attrs): seq<Segment> {
    seq(|segs|, i requires 0 <= i < |segs| =>
      if segs[i].Param? && segs[i].name in values then Lit(values[segs[i].name]) else segs[i])
  }

  lemma {:induction false} SplitHead(part: string, rest: string)
    requires NoSlash(part) && (rest == "" || rest[0] == '/')
    ensures Split(part + rest) == [part] + Split(rest)[1..]
  {
    if part == "" {
      assert part + rest == rest;
      assert Split(rest)[0] == "";
    } else {
      assert (part + rest)[1..] == part[1..] + rest;
      SplitHead(part[1..], rest);
      assert [part[0]] + part[1..] == part;
    }
  }

  lemma SegmentsCons(part: string, rest: string)
    requires NoSlash(part) && part != "" && (rest == "" || rest[0] == '/')
    ensures var s := "/" + part + rest; var tail := ToSegments(Split(rest)[1..]);
      && ToSegments(Split(s)[1..]) == [ParseSegment(part)] + tail
      && Segments(s) == [ParseSegment(part)] + tail
  {
    hide Split, ToSegments;
    var parts := [part] + Split(rest)[1..];
    assert "/" + part + rest == "/" + (part + rest);
    SplitSlash(part + rest);
    SplitHead(part, rest);
    assert ([""] + parts)[1..] == parts;
    ToSegmentsCons(part, Split(rest)[1..]);
  }

  lemma SplitSlash(t: string)
    ensures Split("/" + t) == [""] + Split(t)
  {
    assert ("/" + t)[1..] == t;
  }

  lemma ToSegmentsCons(part: string, parts: seq<string>)
    requires part != ""
    ensures ToSegments([part] + parts) == [ParseSegment(part)] + ToSegments(parts)
    ensures ToSegments([""] + ([part] + parts)) == ToSegments([part] + parts)
  {
    assert ([part] + parts)[1..] == parts;
    assert ([""] + ([part] + parts))[1..] == [part] + parts;
  }

  /** Formatting with some of the values and parsing again specialises the segments. */
  lemma {:induction false} ParseOfFormat(segs: seq<Segment>, values: Attrs)
    requires Parsed(segs) && PlainAttrs(values)
    ensures Segments(Render(segs, values)) == Specialize(segs, values)
    ensures ToSegments(Split(Render(segs, values))[1..]) == Specialize(segs, values)
  {
    if segs == [] {
      assert Split("") == [""];
    } else {
      var text, rest := Text(segs[0], values), Render(segs[1..], values);
      ParseOfFormat(segs[1..], values);
      SegmentsCons(text, rest);
      SpecializeCons(segs, values);
    }
  }

  /**
   * Two formatted paths are equal exactly when the attributes agree on the pattern's parameters:
   * the same ones are bound, to the same values. An unbound parameter is never mistaken for a value.
   */
  lemma FormatInjective(segs: seq<Segment>, a: Attrs, b: Attrs)
    requires Parsed(segs) && PlainAttrs(a) && PlainAttrs(b)
    ensures Render(segs, a) == Render(segs, b) <==> Restrict(a, Names(segs)) == Restrict(b, Names(segs))
  {
    if Restrict(a, Names(segs)) == Restrict(b, Names(segs)) {
      forall n | n in Names(segs) ensures (n in a <==> n in b) && (n in a ==> a[n] == b[n]) {
        assert n in Restrict(a, Names(segs)) <==> n in Restrict(b, Names(segs));
        assert n in a ==> Restrict(a, Names(segs))[n] == Restrict(b, Names(segs))[n];
      }
      RenderIgnoresOthers(segs, a, b);
    }
    if Render(segs, a) == Render(segs, b) {
      ParseOfFormat(segs, a);
      ParseOfFormat(segs, b);
      forall n | n in Names(segs) ensures (n in a <==> n in b) && (n in a ==> a[n] == b[n]) {
        var i := NameAt(segs, n);
        assert Specialize(segs, a)[i] == Specialize(segs, b)[i];
      }
    }
  }

  lemma {:induction false} NameAt(segs: seq<Segment>, n: string) returns (i: nat)
    requires n in Names(segs)
    ensures i < |segs| && segs[i] == Param(n)
  {
    if segs[0] == Param(n) {
      i := 0;
    } else {
      i := NameAt(segs[1..], n);
      i := i + 1;
    }
  }

  lemma SpecializeCons(segs: seq<Segment>, values: Attrs)
    requires segs != [] && ParsedSegment(segs[0]) && PlainAttrs(values)
    ensures Text(segs[0], values) != "" && NoSlash(Text(segs[0], values))
    ensures Specialize(segs, values) == [ParseSegment(Text(segs[0], values))] + Specialize(segs[1..], values)
  {
  }

  lemma {:induction false} SpecializeParsed(segs: seq<Segment>, values: Attrs)
    requires Parsed(segs) && PlainAttrs(values)
    ensures Parsed(Specialize(segs, values))
    ensures Names(Specialize(segs, values)) == Names(segs) - values.Keys
  {
    if segs != [] {
      SpecializeParsed(segs[1..], values);
      assert Specialize(segs, values)[1..] == Specialize(segs[1..], values);
    }
  }

  /** Formatting a specialised pattern is formatting the original with both sets of values. */
  lemma {:induction false} RenderSpecialized(segs: seq<Segment>, values: Attrs, attrs: Attrs)
    ensures Render(Specialize(segs, values), attrs) == Render(segs, attrs + values)
  {
    if segs != [] {
      RenderSpecialized(segs[1..], values, attrs);
      assert Specialize(segs, values)[1..] == Specialize(segs[1..], values);
    }
  }

  /** The original matches the key and binds the specialised parameters to those values. */
  ghost predicate MatchesWith(segs: seq<Segment>, values: Attrs, key: string) {
    && MatchKey(segs, key).Some?
    && var m := MatchKey(segs, key).value;
       forall n :: n in Names(segs) && n in values ==> n in m && m[n] == values[n]
  }

  ghost predicate FiresWith(segs: seq<Segment>, values: Attrs, key: string) {
    FormatsBack(segs, key) && MatchesWith(segs, values, key)
  }

  lemma SpecializedImpliesOriginal(segs: seq<Segment>, values: Attrs, key: string)
    requires Parsed(segs) && PlainAttrs(values) && FormatsBack(Specialize(segs, values), key)
    ensures FiresWith(segs, values, key)
    ensures MatchKey(segs, key).value == MatchKey(Specialize(segs, values), key).value + Restrict(values, Names(segs))
  {
    var special := Specialize(segs, values);
    var m := MatchKey(special, key).value;
    SpecializeParsed(segs, values);
    MatchBinds(special, key);
    var all := m + Restrict(values, Names(segs));
    RenderSpecialized(segs, values, m);
    RenderIgnoresOthers(segs, m + values, all);
    MatchUndoesFormat(segs, all);
    assert Restrict(all, Names(segs)) == all;
  }

  lemma OriginalImpliesSpecialized(segs: seq<Segment>, values: Attrs, key: string)
    requires Parsed(segs) && PlainAttrs(values) && FiresWith(segs, values, key)
    ensures FormatsBack(Specialize(segs, values), key)
  {
    var m := MatchKey(segs, key).value;
    MatchBinds(segs, key);
    SpecializeParsed(segs, values);
    RenderSpecialized(segs, values, m);
    RenderIgnoresOthers(segs, m + values, m);
    assert Spells(Specialize(segs, values), key);
    WholeKey(Specialize(segs, values), key);
  }

  /**
   * A specialised pattern fires on a key if and only if the original does and binds the
   * specialised parameters to those values; the remaining attributes are then the same.
   */
  lemma SpecializedFires(segs: seq<Segment>, values: Attrs, key: string)
    requires Parsed(segs) && PlainAttrs(values)
    ensures FormatsBack(Specialize(segs, values), key) <==> FiresWith(segs, values, key)
    ensures FormatsBack(Specialize(segs, values), key) ==>
      MatchKey(segs, key).value == MatchKey(Specialize(segs, values), key).value + Restrict(values, Names(segs))
  {
    if FormatsBack(Specialize(segs, values), key) {
      SpecializedImpliesOriginal(segs, values, key);
    } else if FiresWith(segs, values, key) {
      OriginalImpliesSpecialized(segs, values, key);
    }
  }

  // ---------------------------------------------------------------------------
  // Specialisation of unanchored matches

  /** The captures of the specialised parameters are the given values. */
  ghost predicate AgreeAt(segs: seq<Segment>, captures: seq<string>, values: Attrs)
    requires |captures| == Arity(segs)
  {
    if segs == [] then true
    else if segs[0].Lit? then AgreeAt(segs[1..], captures, values)
    else (segs[0].name in values ==> captures[0] == values[segs[0].name]) && AgreeAt(segs[1..], captures[1..], values)
  }

  lemma {:induction false} ValuesAgree(segs: seq<Segment>, attrs: Attrs, values: Attrs)
    requires Names(segs) <= attrs.Keys && forall n :: n in Names(segs) && n in values ==> attrs[n] == values[n]
    ensures AgreeAt(segs, Values(segs, attrs), values)
  {
    if segs != [] {
      ValuesAgree(segs[1..], attrs, values);
      if segs[0].Param? { assert Values(segs, attrs)[1..] == Values(segs[1..], attrs); }
    }
  }

  /** A parse of the specialised expression is a parse of the original. */
  lemma {:induction false} ParsesUnspecialized(segs: seq<Segment>, values: Attrs, s: string, i: nat,
      captures: seq<string>, end: nat) returns (all: seq<string>)
    requires PlainAttrs(values) && Parses(Specialize(segs, values), s, i, captures, end)
    ensures Parses(segs, s, i, all, end)
  {
    if segs == [] {
      all := captures;
    } else {
      var text, left := ParseHead(Specialize(segs, values), s, i, captures, end);
      SpecializeTail(segs, values);
      hide *;
      var rest := ParsesUnspecialized(segs[1..], values, s, i + 1 + |text|, left, end);
      all := if segs[0].Param? then [text] + rest else rest;
      ParsesCons(segs, s, i, text, rest, end);
    }
  }

  lemma SpecializeTail(segs: seq<Segment>, values: Attrs)
    requires segs != [] && PlainAttrs(values)
    ensures Specialize(segs, values) != [] && Specialize(segs, values)[1..] == Specialize(segs[1..], values)
    ensures var head := Specialize(segs, values)[0];
      if segs[0].Lit? then head == segs[0] else head == segs[0] || (head.Lit? && Plain(head.text))
  {
  }

  lemma ParsesCons(segs: seq<Segment>, s: string, i: nat, text: string, rest: seq<string>, end: nat)
    requires segs != [] && (if segs[0].Lit? then segs[0].text == text else Plain(text))
    requires var next := i + 1 + |text|;
      next <= |s| && s[i] == '/' && s[i + 1..next] == text && Parses(segs[1..], s, next, rest, end)
    ensures Parses(segs, s, i, if segs[0].Param? then [text] + rest else rest, end)
  {
    assert ([text] + rest)[1..] == rest;
  }

  /** So a specialised pattern matches at no position where the original does not. */
  lemma NoNewMatch(segs: seq<Segment>, values: Attrs, s: string, i: nat)
    requires PlainAttrs(values) && i <= |s| && MatchAt(Specialize(segs, values), s, i).Some?
    ensures MatchAt(segs, s, i).Some?
  {
    var special := Specialize(segs, values);
    MatchAtParses(special, s, i);
    var m := MatchAt(special, s, i).value;
    var all := ParsesUnspecialized(segs, values, s, i, m.captures, m.end);
    MatchAtIsGreedy(segs, s, i, all, m.end);
  }

  /** What one segment adds to the attributes of the rest, specialised or not. */
  lemma CapturedAfter(name: string, text: string, values: Attrs, names: set<string>, rest: Attrs)
    requires name in values ==> text == values[name] && name !in rest
    ensures map[name := text] + (rest + Restrict(values, names)) ==
      (if name in values then rest else map[name := text] + rest) + Restrict(values, {name} + names)
  {
  }

  /** Where the captures agree with the values, the specialised pattern matches the same text. */
  lemma {:induction false} MatchSpecialized(segs: seq<Segment>, values: Attrs, s: string, i: nat)
    requires Parsed(segs) && PlainAttrs(values) && i <= |s| && MatchAt(segs, s, i).Some?
    requires var m := MatchAt(segs, s, i).value; |m.captures| == Arity(segs) && AgreeAt(segs, m.captures, values)
    ensures var m, n := MatchAt(segs, s, i).value, MatchAt(Specialize(segs, values), s, i);
      && n.Some? && |n.value.captures| == Arity(Specialize(segs, values))
      && Captured(segs, m.captures)
         == Captured(Specialize(segs, values), n.value.captures) + Restrict(values, Names(segs))
  {
    var special := Specialize(segs, values);
    if segs != [] {
      hide SegmentEnd, Captured, Names, Restrict;
      assert special[1..] == Specialize(segs[1..], values);
      var end := SegmentEnd(segs[0], s, i).value;
      HeadSpecialized(segs[0], values, s, i);
      MatchIsText(segs[1..], s, end);
      var rest := MatchAt(segs[1..], s, end).value.captures;
      assert segs[0].Param? ==> ([s[i + 1..end]] + rest)[1..] == rest;
      MatchSpecialized(segs[1..], values, s, end);
      MatchIsText(special[1..], s, end);
      CapturedSpecialized(segs, values, s[i + 1..end], rest, MatchAt(special[1..], s, end).value.captures);
    } else {
      assert Restrict(values, Names(segs)) == map[];
    }
  }

  lemma HeadSpecialized(seg: Segment, values: Attrs, s: string, i: nat)
    requires i <= |s| && SegmentEnd(seg, s, i).Some?
    requires seg.Param? && seg.name in values ==> s[i + 1..SegmentEnd(seg, s, i).value] == values[seg.name]
    ensures seg.Param? && seg.name in values ==> SegmentEnd(Lit(values[seg.name]), s, i) == SegmentEnd(seg, s, i)
  {
  }

  lemma CapturedSpecialized(segs: seq<Segment>, values: Attrs, text: string, rest: seq<string>, some: seq<string>)
    requires segs != [] && Parsed(segs) && PlainAttrs(values) && |rest| == Arity(segs[1..])
    requires |some| == Arity(Specialize(segs[1..], values))
    requires segs[0].Param? && segs[0].name in values ==> text == values[segs[0].name]
    requires Captured(segs[1..], rest)
          == Captured(Specialize(segs[1..], values), some) + Restrict(values, Names(segs[1..]))
    ensures var special := Specialize(segs, values);
      var all := if segs[0].Param? then [text] + rest else rest;
      var left := if special[0].Param? then [text] + some else some;
      && |all| == Arity(segs) && |left| == Arity(special)
      && Captured(segs, all) == Captured(special, left) + Restrict(values, Names(segs))
  {
    var special := Specialize(segs, values);
    assert special[1..] == Specialize(segs[1..], values);
    if segs[0].Param? {
      assert ([text] + rest)[1..] == rest && ([text] + some)[1..] == some;
      SpecializeParsed(segs[1..], values);
      CapturedNames(special[1..], some);
      CapturedAfter(segs[0].name, text, values, Names(segs[1..]), Captured(special[1..], some));
    }
  }

  /**
   * The unanchored match and specialisation: a pattern that does not match the key still does not,
   * and one with distinct parameters that matches with those values matches with the same attributes.
   */
  lemma SpecializedMatches(segs: seq<Segment>, values: Attrs, key: string)
    requires Parsed(segs) && PlainAttrs(values)
    ensures MatchKey(segs, key).None? ==> MatchKey(Specialize(segs, values), key).None?
    ensures MatchesWith(segs, values, key) && Distinct(segs) ==> MatchKey(Specialize(segs, values), key).Some?
    ensures MatchesWith(segs, values, key) && Distinct(segs) ==>
      MatchKey(segs, key).value == MatchKey(Specialize(segs, values), key).value + Restrict(values, Names(segs))
  {
    hide MatchAt, Specialize, Captured, Names, Values, Distinct, Parsed;
    var special := Specialize(segs, values);
    var f, g := FindFrom(segs, key, 0), FindFrom(special, key, 0);
    if g.Some? { NoNewMatch(segs, values, key, g.value.start); }
    if MatchesWith(segs, values, key) && Distinct(segs) {
      var start, captures := f.value.start, f.value.m.captures;
      MatchIsText(segs, key, start);
      CapturedNames(segs, captures);
      DistinctIsConsistent(segs, captures);
      ValuesAgree(segs, Captured(segs, captures), values);
      MatchSpecialized(segs, values, key, start);
      assert g.Some? && g.value.start == start;
    }
  }
}
