/**
 * Key patterns (rules/matcher.go): a pattern is a slash-separated path whose segments are
 * literal text or `:name` parameters. Parsing turns it into the segment list that the generated
 * regular expression spells out; formatting writes the segments back with attribute values.
 */
module Paths {
  import opened Base

  datatype Segment = Lit(text: string) | Param(name: string)

  type Attrs = map<string, string>

  // ---------------------------------------------------------------------------
  // Parsing

  /** strings.Split(s, "/") */
  function Split(s: string): (parts: seq<string>)
    ensures |parts| >= 1
  {
    if s == "" then [""]
    else
      var rest := Split(s[1..]);
      if s[0] == '/' then [""] + rest else [[s[0]] + rest[0]] + rest[1..]
  }

  function ParseSegment(part: string): Segment
    requires part != ""
  {
    if part[0] == ':' then Param(part[1..]) else Lit(part)
  }

  function ToSegments(parts: seq<string>): seq<Segment> {
    if parts == [] then []
    else (if parts[0] == "" then [] else [ParseSegment(parts[0])]) + ToSegments(parts[1..])
  }

  /** What `parsePath` compiles: one slash and one segment at a time, empty segments skipped. */
  function Segments(pattern: string): seq<Segment> {
    ToSegments(Split(pattern))
  }

  /** The capture group of each parameter; a repeated name keeps its last group. */
  function Fields(segs: seq<Segment>, group: nat): map<string, nat> {
    if segs == [] then map[]
    else match segs[0]
      case Lit(_) => Fields(segs[1..], group)
      case Param(name) => map[name := group] + Fields(segs[1..], group + 1)
  }

  function Arity(segs: seq<Segment>): nat {
    if segs == [] then 0 else (if segs[0].Param? then 1 else 0) + Arity(segs[1..])
  }

  function Names(segs: seq<Segment>): set<string> {
    if segs == [] then {} else (if segs[0].Param? then {segs[0].name} else {}) + Names(segs[1..])
  }

  method ParsePath(pattern: string) returns (fields: map<string, nat>, regex: seq<Segment>)
    ensures regex == Segments(pattern)
    ensures fields == Fields(regex, 1) && fields.Keys == Names(regex)
  {
    var paths := Split(pattern);
    fields, regex := map[], [];
    var fieldIndex := 1;
    for j := 0 to |paths|
      invariant regex + ToSegments(paths[j..]) == Segments(pattern)
      invariant fields + Fields(ToSegments(paths[j..]), fieldIndex) == Fields(Segments(pattern), 1)
    {
      var path := paths[j];
      ParseStep(paths, j, fieldIndex);
      ghost var rest := ToSegments(paths[j + 1..]);
      if |path| != 0 {
        assert regex + ([ParseSegment(path)] + rest) == regex + [ParseSegment(path)] + rest;
        regex := regex + [ParseSegment(path)];
        if path[0] == ':' {
          LaterFieldWins(fields, path[1..], fieldIndex, Fields(rest, fieldIndex + 1));
          fields := fields[path[1..] := fieldIndex];
          fieldIndex := fieldIndex + 1;
        }
      }
    }
    FieldsKeys(regex, 1);
  }

  lemma LaterFieldWins(fields: map<string, nat>, name: string, group: nat, later: map<string, nat>)
    ensures fields[name := group] + later == fields + (map[name := group] + later)
  {
  }

  lemma ParseStep(parts: seq<string>, j: nat, group: nat)
    requires j < |parts|
    ensures var rest := ToSegments(parts[j + 1..]);
      if parts[j] == "" then ToSegments(parts[j..]) == rest
      else
        && ToSegments(parts[j..]) == [ParseSegment(parts[j])] + rest
        && Fields(ToSegments(parts[j..]), group) ==
           if parts[j][0] == ':' then map[parts[j][1..] := group] + Fields(rest, group + 1) else Fields(rest, group)
  {
    assert parts[j..][1..] == parts[j + 1..];
    var segs := ToSegments(parts[j..]);
    if parts[j] != "" {
      assert segs == [ParseSegment(parts[j])] + ToSegments(parts[j + 1..]);
      assert segs[1..] == ToSegments(parts[j + 1..]);
    }
  }

  lemma {:induction false} FieldsKeys(segs: seq<Segment>, group: nat)
    ensures Fields(segs, group).Keys == Names(segs)
  {
    if segs != [] { FieldsKeys(segs[1..], if segs[0].Param? then group + 1 else group); }
  }

  // ---------------------------------------------------------------------------
  // Formatting

  function Text(seg: Segment, attrs: Attrs): string {
    match seg
    case Lit(text) => text
    case Param(name) => if name in attrs then attrs[name] else ":" + name
  }

  function Render(segs: seq<Segment>, attrs: Attrs): string {
    if segs == [] then "" else "/" + Text(segs[0], attrs) + Render(segs[1..], attrs)
  }

  function Format(pattern: string, attrs: Attrs): string {
    Render(Segments(pattern), attrs)
  }

  /** strings.Cut(s, "/") */
  function Cut(s: string): (r: (string, string, bool))
    ensures r.2 ==> |r.1| < |s|
    ensures Split(s) == if r.2 then [r.0] + Split(r.1) else [r.0]
  {
    if s == "" then ("", "", false)
    else if s[0] == '/' then ("", s[1..], true)
    else var r := Cut(s[1..]); ([s[0]] + r.0, r.1, r.2)
  }

  /** `formatPath`: the formatted path, and whether every parameter had a value. */
  method FormatPath(pattern: string, attrs: Attrs) returns (out: string, allFound: bool)
    ensures out == Format(pattern, attrs)
    ensures allFound <==> Names(Segments(pattern)) <= attrs.Keys
  {
    out, allFound := "", true;
    var rest, found := pattern, true;
    while found
      invariant found ==> out + Render(Segments(rest), attrs) == Format(pattern, attrs)
      invariant found ==> (allFound && Names(Segments(rest)) <= attrs.Keys <==> Names(Segments(pattern)) <= attrs.Keys)
      invariant !found ==> out == Format(pattern, attrs)
      invariant !found ==> (allFound <==> Names(Segments(pattern)) <= attrs.Keys)
      decreases found, |rest|
    {
      hide Segments, Render, Names, Split;
      var cut := Cut(rest);
      var segment := cut.0;
      ghost var before := out;
      CutStep(rest, attrs);
      if segment != "" {
        out := out + "/";
        if segment[0] == ':' {
          if segment[1..] in attrs {
            out := out + attrs[segment[1..]];
          } else {
            allFound := false;
            out := out + segment;
          }
        } else {
          out := out + segment;
        }
        Reassociate(before, Text(ParseSegment(segment), attrs), if cut.2 then Render(Segments(cut.1), attrs) else "");
      }
      rest, found := cut.1, cut.2;
    }
  }

  /** What one cut contributes to the formatted path and to the parameters. */
  lemma CutStep(s: string, attrs: Attrs)
    ensures var cut := Cut(s);
      var tail := if cut.2 then Render(Segments(cut.1), attrs) else "";
      var names := if cut.2 then Names(Segments(cut.1)) else {};
      && Render(Segments(s), attrs) == (if cut.0 == "" then tail else "/" + Text(ParseSegment(cut.0), attrs) + tail)
      && Names(Segments(s)) == (if cut.0 != "" && cut.0[0] == ':' then {cut.0[1..]} else {}) + names
  {
    hide Segments, Cut;
    CutSegments(s);
    var cut := Cut(s);
    var tail := if cut.2 then Segments(cut.1) else [];
    assert Render([], attrs) == "" && Names([]) == {};
    hide Render, Names;
    if cut.0 != "" { ConsFacts(ParseSegment(cut.0), tail, attrs); }
    assert cut.0 == "" ==> Segments(s) == tail;
  }

  lemma ConsFacts(seg: Segment, tail: seq<Segment>, attrs: Attrs)
    ensures Render([seg] + tail, attrs) == "/" + Text(seg, attrs) + Render(tail, attrs)
    ensures Names([seg] + tail) == (if seg.Param? then {seg.name} else {}) + Names(tail)
  {
    assert ([seg] + tail)[1..] == tail;
  }

  lemma Reassociate(before: string, text: string, after: string)
    ensures before + "/" + text + after == before + ("/" + text + after)
  {
  }

  lemma CutSegments(s: string)
    ensures var cut := Cut(s);
      var tail := if cut.2 then Segments(cut.1) else [];
      Segments(s) == (if cut.0 == "" then [] else [ParseSegment(cut.0)]) + tail
  {
    var cut := Cut(s);
    if cut.2 {
      assert Split(s)[1..] == Split(cut.1);
    } else {
      assert Split(s)[1..] == [];
    }
  }

  // ---------------------------------------------------------------------------
  // Matching

  predicate NoSlash(s: string) { '/' !in s }

  /** A value that one `[^/:]+` group can capture. */
  predicate Plain(v: string) { v != "" && '/' !in v && ':' !in v }

  predicate PlainAttrs(attrs: Attrs) { forall n :: n in attrs ==> Plain(attrs[n]) }

  predicate PlainAll(values: seq<string>) { forall i :: 0 <= i < |values| ==> Plain(values[i]) }

  /** Where the run of characters other than '/' and ':' that starts at i ends. */
  function RunEnd(s: string, i: nat): (end: nat)
    requires i <= |s|
    ensures i <= end <= |s| && forall j :: i <= j < end ==> s[j] != '/' && s[j] != ':'
    ensures end < |s| ==> s[end] == '/' || s[end] == ':'
    decreases |s| - i
  {
    if i == |s| || s[i] == '/' || s[i] == ':' then i else RunEnd(s, i + 1)
  }

  /** Where the first segment, tried at i, ends; a group takes the whole run. */
  function SegmentEnd(seg: Segment, s: string, i: nat): (end: Option<nat>)
    requires i <= |s|
    ensures end.Some? ==> i < end.value <= |s| && s[i] == '/'
    ensures end.Some? ==> if seg.Lit? then s[i + 1..end.value] == seg.text else Plain(s[i + 1..end.value])
  {
    if i == |s| || s[i] != '/' then None
    else match seg
      case Lit(text) =>
        var end := i + 1 + |text|;
        if end <= |s| && s[i + 1..end] == text then Some(end) else None
      case Param(_) =>
        var end := RunEnd(s, i + 1);
        if end == i + 1 then None else Some(end)
  }

  datatype Match = Match(captures: seq<string>, end: nat)

  /**
   * The regular expression tried at position i. Every group is followed by a slash or ends the
   * expression, so a greedy group takes the whole run and never backtracks.
   */
  function MatchAt(segs: seq<Segment>, s: string, i: nat): Option<Match>
    requires i <= |s|
    decreases segs
  {
    if segs == [] then Some(Match([], i))
    else
      var end := SegmentEnd(segs[0], s, i);
      if end.None? then None
      else
        var rest := MatchAt(segs[1..], s, end.value);
        if rest.None? then None
        else if segs[0].Param? then Some(Match([s[i + 1..end.value]] + rest.value.captures, rest.value.end))
        else rest
  }

  datatype Found = Found(start: nat, m: Match)

  /** The leftmost match at or after position i: the expression is not anchored. */
  function FindFrom(segs: seq<Segment>, s: string, i: nat): (f: Option<Found>)
    requires i <= |s|
    ensures f.Some? ==>
      && i <= f.value.start <= |s|
      && MatchAt(segs, s, f.value.start) == Some(f.value.m)
      && forall j :: i <= j < f.value.start ==> MatchAt(segs, s, j).None?
    ensures f.None? ==> forall j :: i <= j <= |s| ==> MatchAt(segs, s, j).None?
    decreases |s| - i
  {
    var m := MatchAt(segs, s, i);
    if m.Some? then Some(Found(i, m.value)) else if i < |s| then FindFrom(segs, s, i + 1) else None
  }

  /** The attributes of a match; a repeated parameter takes its last capture. */
  function Captured(segs: seq<Segment>, captures: seq<string>): Attrs
    requires |captures| == Arity(segs)
  {
    if segs == [] then map[]
    else match segs[0]
      case Lit(_) => Captured(segs[1..], captures)
      case Param(name) => map[name := captures[0]] + Captured(segs[1..], captures[1..])
  }

  /** `keyMatcher.match`: the attributes of the leftmost match. */
  function MatchKey(segs: seq<Segment>, key: string): Option<Attrs> {
    var f := FindFrom(segs, key, 0);
    if f.None? then None
    else
      MatchIsText(segs, key, f.value.start);
      Some(Captured(segs, f.value.m.captures))
  }

  /** The text of a match, written with positional captures. */
  function RenderCaptures(segs: seq<Segment>, captures: seq<string>): string
    requires |captures| == Arity(segs)
  {
    if segs == [] then ""
    else match segs[0]
      case Lit(text) => "/" + text + RenderCaptures(segs[1..], captures)
      case Param(_) => "/" + captures[0] + RenderCaptures(segs[1..], captures[1..])
  }

  /** A match captures plain values only, and is exactly the text they spell. */
  lemma {:induction false} MatchIsText(segs: seq<Segment>, s: string, i: nat)
    requires i <= |s|
    ensures var m := MatchAt(segs, s, i); m.Some? ==>
      && i <= m.value.end <= |s| && |m.value.captures| == Arity(segs) && PlainAll(m.value.captures)
      && RenderCaptures(segs, m.value.captures) == s[i..m.value.end]
  {
    if segs != [] && MatchAt(segs, s, i).Some? {
      var end := SegmentEnd(segs[0], s, i).value;
      var rest := MatchAt(segs[1..], s, end).value;
      var text := s[i + 1..end];
      var captures := if segs[0].Param? then [text] + rest.captures else rest.captures;
      assert MatchAt(segs, s, i).value == Match(captures, rest.end);
      hide MatchAt, SegmentEnd, Arity, RenderCaptures, PlainAll, Plain;
      MatchIsText(segs[1..], s, end);
      CaptureCons(segs, text, rest.captures);
      TextCons(s, i, end, rest.end);
    }
  }

  /** One more segment in front of captures and their text. */
  lemma CaptureCons(segs: seq<Segment>, text: string, rest: seq<string>)
    requires segs != [] && |rest| == Arity(segs[1..]) && PlainAll(rest)
    requires if segs[0].Lit? then text == segs[0].text else Plain(text)
    ensures var captures := if segs[0].Param? then [text] + rest else rest;
      && |captures| == Arity(segs) && PlainAll(captures)
      && RenderCaptures(segs, captures) == "/" + text + RenderCaptures(segs[1..], rest)
  {
    hide Plain;
    assert ([text] + rest)[1..] == rest;
  }

  lemma TextCons(s: string, i: nat, end: nat, last: nat)
    requires i < end <= last <= |s| && s[i] == '/'
    ensures s[i..last] == "/" + s[i + 1..end] + s[end..last]
  {
  }

  /** `FindAttribute` looks a capture up by group number; that is the attribute map. */
  lemma {:induction false} CapturedByGroup(segs: seq<Segment>, captures: seq<string>, group: nat, name: string)
    requires |captures| == Arity(segs)
    requires name in Names(segs)
    ensures name in Captured(segs, captures) && name in Fields(segs, group)
    ensures group <= Fields(segs, group)[name] < group + |captures|
    ensures Captured(segs, captures)[name] == captures[Fields(segs, group)[name] - group]
  {
    FieldsKeys(segs[1..], if segs[0].Param? then group + 1 else group);
    var rest := if segs[0].Param? then captures[1..] else captures;
    CapturedNames(segs[1..], rest);
    if name in Names(segs[1..]) {
      CapturedByGroup(segs[1..], rest, if segs[0].Param? then group + 1 else group, name);
    }
  }

  /** A repeated parameter takes the capture of its last occurrence. */
  lemma {:induction false} LastCaptureWins(before: seq<Segment>, name: string, after: seq<Segment>,
                                           captures: seq<string>)
    requires name !in Names(after) && |captures| == Arity(before + [Param(name)] + after)
    ensures var segs := before + [Param(name)] + after;
      && Arity(before) < |captures|
      && name in Captured(segs, captures) && Captured(segs, captures)[name] == captures[Arity(before)]
  {
    var segs := before + [Param(name)] + after;
    if before == [] {
      assert segs[1..] == after;
      CapturedNames(after, captures[1..]);
    } else {
      var rest := if before[0].Param? then captures[1..] else captures;
      assert segs[1..] == before[1..] + [Param(name)] + after;
      LastCaptureWins(before[1..], name, after, rest);
    }
  }

  lemma {:induction false} CapturedNames(segs: seq<Segment>, captures: seq<string>)
    requires |captures| == Arity(segs)
    ensures Captured(segs, captures).Keys == Names(segs)
    ensures PlainAll(captures) ==> PlainAttrs(Captured(segs, captures))
  {
    if segs != [] {
      var rest := if segs[0].Param? then captures[1..] else captures;
      CapturedNames(segs[1..], rest);
    }
  }

  // ---------------------------------------------------------------------------
  // Slashes

  function Slashes(s: string): nat {
    if s == "" then 0 else (if s[0] == '/' then 1 else 0) + Slashes(s[1..])
  }

  lemma {:induction false} SlashesConcat(s: string, t: string)
    ensures Slashes(s + t) == Slashes(s) + Slashes(t)
  {
    if s == "" {
      assert s + t == t;
    } else {
      assert (s + t)[1..] == s[1..] + t;
      SlashesConcat(s[1..], t);
    }
  }

  lemma {:induction false} NoSlashCount(s: string)
    requires NoSlash(s)
    ensures Slashes(s) == 0
  {
    if s != "" { NoSlashCount(s[1..]); }
  }

  /** Segments as a parsed pattern has them. */
  predicate ParsedSegment(seg: Segment) {
    match seg
    case Lit(text) => text != "" && NoSlash(text) && text[0] != ':'
    case Param(name) => NoSlash(name)
  }

  predicate Parsed(segs: seq<Segment>) {
    forall i :: 0 <= i < |segs| ==> ParsedSegment(segs[i])
  }

  lemma {:induction false} SplitNoSlash(s: string)
    ensures forall i :: 0 <= i < |Split(s)| ==> NoSlash(Split(s)[i])
  {
    if s != "" { SplitNoSlash(s[1..]); }
  }

  lemma {:induction false} ToSegmentsParsed(parts: seq<string>)
    requires forall i :: 0 <= i < |parts| ==> NoSlash(parts[i])
    ensures Parsed(ToSegments(parts))
  {
    if parts != [] { ToSegmentsParsed(parts[1..]); }
  }

  lemma SegmentsParsed(pattern: string)
    ensures Parsed(Segments(pattern))
  {
    SplitNoSlash(pattern);
    ToSegmentsParsed(Split(pattern));
  }

  /** Attribute values hold no slash, so a formatted key has one slash per segment. */
  lemma {:induction false} FormattedSlashes(segs: seq<Segment>, attrs: Attrs)
    requires Parsed(segs)
    requires forall n :: n in attrs ==> NoSlash(attrs[n])
    ensures Slashes(Render(segs, attrs)) == |segs|
  {
    if segs != [] {
      var text := Text(segs[0], attrs);
      FormattedSlashes(segs[1..], attrs);
      SlashesConcat("/" + text, Render(segs[1..], attrs));
      SlashesConcat("/", text);
      NoSlashCount(text);
    }
  }
}
