/**
 * Watched key prefixes: the prefix of a pattern and its constrained enumeration
 * (rules/matcher.go), and their reduction to a prefix-free set (rules/rule_manager.go).
 */
module Prefixes {
  import opened Paths

  // ---------------------------------------------------------------------------
  // The prefix of a pattern

  function FirstColon(s: string, i: nat): (end: nat)
    requires i <= |s|
    ensures i <= end <= |s| && (end < |s| ==> s[end] == ':')
    ensures forall j :: i <= j < end ==> s[j] != ':'
    decreases |s| - i
  {
    if i == |s| || s[i] == ':' then i else FirstColon(s, i + 1)
  }

  /** `getPrefix`: the pattern up to its first colon. */
  function Prefix(pattern: string): (prefix: string)
    ensures prefix <= pattern && ':' !in prefix && (prefix == pattern || pattern[|prefix|] == ':')
  {
    pattern[..FirstColon(pattern, 0)]
  }

  lemma {:induction false} ColonFreePrefix(segs: seq<Segment>, prefix: string, attrs: Attrs)
    requires ':' !in prefix && prefix <= Render(segs, map[])
    ensures prefix <= Render(segs, attrs)
  {
    if segs != [] && prefix != "" {
      var head := "/" + Text(segs[0], map[]);
      if segs[0].Param? {
        assert Render(segs, map[])[1] == ':';
        assert |prefix| <= 1;
      } else if |prefix| > |head| {
        var rest := prefix[|head|..];
        assert prefix == head + rest;
        ColonFreePrefix(segs[1..], rest, attrs);
      }
    }
  }

  /**
   * Every key that a pattern can format to lies under its prefix exactly when the prefix
   * survives normalisation (a leading slash, no empty segment before the first parameter).
   */
  lemma PrefixExact(pattern: string)
    ensures (forall attrs :: Prefix(pattern) <= Format(pattern, attrs)) <==> Prefix(pattern) <= Format(pattern, map[])
  {
    if Prefix(pattern) <= Format(pattern, map[]) {
      forall attrs ensures Prefix(pattern) <= Format(pattern, attrs) {
        ColonFreePrefix(Segments(pattern), Prefix(pattern), attrs);
      }
    }
  }

  // ---------------------------------------------------------------------------
  // Constraints

  datatype Constraint = Constraint(prefix: string, chars: seq<seq<char>>)

  /** Every choice of one character per set, appended to base, first set slowest. */
  function Product(base: string, chars: seq<seq<char>>): seq<string>
    decreases |chars|, 0
  {
    if chars == [] then [base] else ProductOver(base, chars[0], chars[1..])
  }

  function ProductOver(base: string, first: seq<char>, rest: seq<seq<char>>): seq<string>
    decreases |rest| + 1, 0, |first|
  {
    if first == [] then []
    else ProductOver(base, first[..|first| - 1], rest) + Product(base + [first[|first| - 1]], rest)
  }

  /** `buildPrefixesFromConstraint`, which appends through a pointer. */
  method BuildPrefixes(base: string, index: nat, constr: Constraint, prefixes: seq<string>) returns (out: seq<string>)
    requires index < |constr.chars|
    ensures out == prefixes + Product(base, constr.chars[index..])
    decreases |constr.chars| - index
  {
    var myChars, rest := constr.chars[index], constr.chars[index + 1..];
    out := prefixes;
    for j := 0 to |myChars|
      invariant out == prefixes + ProductOver(base, myChars[..j], rest)
    {
      assert myChars[..j + 1][..j] == myChars[..j];
      if index + 1 == |constr.chars| {
        out := out + [base + [myChars[j]]];
      } else {
        out := BuildPrefixes(base + [myChars[j]], index + 1, constr, out);
      }
    }
    assert myChars[..|myChars|] == myChars;
    assert constr.chars[index..][0] == myChars && constr.chars[index..][1..] == rest;
  }

  /** `getPrefixesWithConstraints` for one pattern. */
  function ConstrainedPrefixes(pattern: string, constraints: map<string, Constraint>): seq<string> {
    var colon := FirstColon(pattern, 0);
    if colon == |pattern| then [Prefix(pattern)]
    else
      var name := Cut(pattern[colon + 1..]).0;
      if name !in constraints then [Prefix(pattern)]
      else Product(pattern[..colon] + constraints[name].prefix, constraints[name].chars)
  }

  method PrefixesWithConstraints(pattern: string, constraints: map<string, Constraint>) returns (out: seq<string>)
    requires forall name :: name in constraints ==> constraints[name].chars != []
    ensures out == ConstrainedPrefixes(pattern, constraints)
    ensures forall name, attrs | Applies(pattern, constraints, name) && name in attrs ::
      ValueMeets(attrs[name], constraints[name]) ==> exists k :: OnlyEntry(out, Format(pattern, attrs), k)
  {
    forall name, attrs | Applies(pattern, constraints, name) && name in attrs
      ensures ValueMeets(attrs[name], constraints[name]) ==>
        exists k :: OnlyEntry(ConstrainedPrefixes(pattern, constraints), Format(pattern, attrs), k)
    {
      ConstrainedKeys(pattern, constraints, name, attrs);
    }
    hide Applies, ValueMeets, OnlyEntry, Format;
    var colon := FirstColon(pattern, 0);
    if colon == |pattern| { return [Prefix(pattern)]; }
    var name := Cut(pattern[colon + 1..]).0;
    if name !in constraints { return [Prefix(pattern)]; }
    var constr := constraints[name];
    out := BuildPrefixes(pattern[..colon] + constr.prefix, 0, constr, []);
    assert constr.chars[0..] == constr.chars;
  }

  function Size(chars: seq<seq<char>>): nat {
    if chars == [] then 1 else |chars[0]| * Size(chars[1..])
  }

  /** One position in each set. */
  predicate Positions(chars: seq<seq<char>>, at: seq<nat>) {
    |at| == |chars| && forall i :: 0 <= i < |at| ==> at[i] < |chars[i]|
  }

  function Letters(chars: seq<seq<char>>, at: seq<nat>): string
    requires Positions(chars, at)
  {
    seq(|at|, i requires 0 <= i < |at| => chars[i][at[i]])
  }

  /** The place of a position vector in lexicographic order. */
  function Rank(chars: seq<seq<char>>, at: seq<nat>): nat
    requires |at| == |chars|
  {
    if chars == [] then 0 else at[0] * Size(chars[1..]) + Rank(chars[1..], at[1..])
  }

  lemma {:induction false} ProductSize(base: string, chars: seq<seq<char>>)
    ensures |Product(base, chars)| == Size(chars)
    decreases |chars|, 0
  {
    if chars != [] { ProductOverSize(base, chars[0], chars[1..]); }
  }

  lemma {:induction false} ProductOverSize(base: string, first: seq<char>, rest: seq<seq<char>>)
    ensures |ProductOver(base, first, rest)| == |first| * Size(rest)
    decreases |rest| + 1, 0, |first|
  {
    if first != [] {
      var n := |first| - 1;
      ProductOverSize(base, first[..n], rest);
      ProductSize(base + [first[n]], rest);
      assert (n + 1) * Size(rest) == n * Size(rest) + Size(rest);
    }
  }

  /** The recursion lists exactly the cartesian product, in lexicographic order of positions. */
  lemma {:induction false} ProductAt(base: string, chars: seq<seq<char>>, at: seq<nat>)
    requires Positions(chars, at)
    ensures Rank(chars, at) < |Product(base, chars)| == Size(chars)
    ensures Product(base, chars)[Rank(chars, at)] == base + Letters(chars, at)
    decreases |chars|
  {
    ProductSize(base, chars);
    if chars == [] {
      assert base + Letters(chars, at) == base;
    } else {
      var rest := chars[1..];
      var c := chars[0][at[0]];
      ProductAt(base + [c], rest, at[1..]);
      ProductOverAt(base, chars[0], rest, at[0], Rank(rest, at[1..]));
      assert base + Letters(chars, at) == base + [c] + Letters(rest, at[1..]);
    }
  }

  lemma {:induction false} ProductOverAt(base: string, first: seq<char>, rest: seq<seq<char>>, k: nat, r: nat)
    requires k < |first| && r < Size(rest)
    ensures |Product(base + [first[k]], rest)| == Size(rest)
    ensures k * Size(rest) + r < |ProductOver(base, first, rest)|
    ensures ProductOver(base, first, rest)[k * Size(rest) + r] == Product(base + [first[k]], rest)[r]
    decreases |first|
  {
    var n := |first| - 1;
    ProductSize(base + [first[k]], rest);
    ProductOverSize(base, first[..n], rest);
    if k < n { ProductOverAt(base, first[..n], rest, k, r); }
  }

  /** Every entry of the product comes from some position vector. */
  lemma {:induction false} ProductOnly(base: string, chars: seq<seq<char>>, p: string) returns (at: seq<nat>)
    requires p in Product(base, chars)
    ensures Positions(chars, at) && p == base + Letters(chars, at)
    decreases |chars|, 0
  {
    if chars == [] {
      at := [];
      assert base + Letters(chars, at) == base;
    } else {
      var k, rest := ProductOverOnly(base, chars[0], chars[1..], p);
      at := [k] + rest;
      assert at[1..] == rest;
      assert base + Letters(chars, at) == base + [chars[0][k]] + Letters(chars[1..], rest);
    }
  }

  lemma {:induction false} ProductOverOnly(base: string, first: seq<char>, chars: seq<seq<char>>, p: string)
    returns (k: nat, at: seq<nat>)
    requires p in ProductOver(base, first, chars)
    ensures k < |first| && Positions(chars, at) && p == base + [first[k]] + Letters(chars, at)
    decreases |chars| + 1, 0, |first|
  {
    var n := |first| - 1;
    if p in Product(base + [first[n]], chars) {
      k := n;
      at := ProductOnly(base + [first[n]], chars, p);
    } else {
      k, at := ProductOverOnly(base, first[..n], chars, p);
    }
  }

  ghost predicate DuplicateFree(chars: seq<seq<char>>) {
    forall i, j, k :: 0 <= i < |chars| && 0 <= j < k < |chars[i]| ==> chars[i][j] != chars[i][k]
  }

  /** The characters after base each come from their set. */
  ghost predicate Meets(key: string, base: string, chars: seq<seq<char>>) {
    && base <= key && |base| + |chars| <= |key|
    && forall i :: 0 <= i < |chars| ==> key[|base| + i] in chars[i]
  }

  /** Entry k is the one entry that the key lies under. */
  ghost predicate OnlyEntry(prefixes: seq<string>, key: string, k: nat) {
    && k < |prefixes| && prefixes[k] <= key
    && forall j :: 0 <= j < |prefixes| && prefixes[j] <= key ==> j == k
  }

  /** With duplicate-free sets, a key that meets the constraint lies under exactly one entry, any other under none. */
  lemma CoveredOnce(key: string, base: string, chars: seq<seq<char>>)
    requires DuplicateFree(chars)
    ensures Meets(key, base, chars) ==> exists k :: OnlyEntry(Product(base, chars), key, k)
    ensures !Meets(key, base, chars) ==> forall p :: p in Product(base, chars) ==> !(p <= key)
  {
    if Meets(key, base, chars) {
      var at := FindPositions(key, base, chars);
      ProductAt(base, chars, at);
      assert key[..|base| + |chars|] == base + Letters(chars, at);
      forall j | 0 <= j < |Product(base, chars)| && Product(base, chars)[j] <= key ensures j == Rank(chars, at) {
        OneEntry(key, base, chars, at, j);
      }
      assert OnlyEntry(Product(base, chars), key, Rank(chars, at));
    } else {
      forall p | p in Product(base, chars) ensures !(p <= key) {
        var at := ProductOnly(base, chars, p);
        if p <= key { PositionsMeet(key, base, chars, at); }
      }
    }
  }

  lemma OneEntry(key: string, base: string, chars: seq<seq<char>>, at: seq<nat>, j: nat)
    requires DuplicateFree(chars) && Positions(chars, at) && base + Letters(chars, at) <= key
    requires j < |Product(base, chars)| && Product(base, chars)[j] <= key
    ensures j == Rank(chars, at)
  {
    ProductSize(base, chars);
    var other := Unrank(chars, j);
    ProductAt(base, chars, other);
    var a, b := base + Letters(chars, at), base + Letters(chars, other);
    forall i | 0 <= i < |chars| ensures at[i] == other[i] {
      assert a[|base| + i] == key[|base| + i] == b[|base| + i];
      assert a[|base| + i] == chars[i][at[i]] && b[|base| + i] == chars[i][other[i]];
    }
    assert at == other;
  }

  lemma PositionsMeet(key: string, base: string, chars: seq<seq<char>>, at: seq<nat>)
    requires Positions(chars, at) && base + Letters(chars, at) <= key
    ensures Meets(key, base, chars)
  {
    var p := base + Letters(chars, at);
    assert base <= key by { assert base == p[..|base|]; }
    forall i | 0 <= i < |chars| ensures key[|base| + i] in chars[i] {
      assert key[|base| + i] == p[|base| + i] == chars[i][at[i]];
    }
  }

  /** Every place in the product belongs to a position vector. */
  lemma {:induction false} Unrank(chars: seq<seq<char>>, k: nat) returns (at: seq<nat>)
    requires k < Size(chars)
    ensures Positions(chars, at) && Rank(chars, at) == k
  {
    if chars == [] {
      at := [];
    } else {
      var first, rest := Digit(k, |chars[0]|, Size(chars[1..]));
      var tail := Unrank(chars[1..], rest);
      at := [first] + tail;
      assert at[1..] == tail;
    }
  }

  lemma {:induction false} Digit(k: nat, n: nat, size: nat) returns (first: nat, rest: nat)
    requires k < n * size
    ensures first < n && rest < size && k == first * size + rest
    decreases n
  {
    if k < size {
      assert n > 0;
      first, rest := 0, k;
    } else {
      assert (n - 1) * size == n * size - size;
      first, rest := Digit(k - size, n - 1, size);
      assert (first + 1) * size == first * size + size;
      first := first + 1;
    }
  }

  lemma FindPositions(key: string, base: string, chars: seq<seq<char>>) returns (at: seq<nat>)
    requires Meets(key, base, chars)
    ensures Positions(chars, at)
    ensures forall i :: 0 <= i < |chars| ==> chars[i][at[i]] == key[|base| + i]
  {
    at := [];
    for i := 0 to |chars|
      invariant |at| == i
      invariant forall j :: 0 <= j < i ==> at[j] < |chars[j]| && chars[j][at[j]] == key[|base| + j]
    {
      var k :| 0 <= k < |chars[i]| && chars[i][k] == key[|base| + i];
      at := at + [k];
    }
  }

  // ---------------------------------------------------------------------------
  // Constraints and the keys of a pattern

  /** Where a pattern's first parameter starts a segment, and which constraint it has. */
  ghost predicate FirstParam(pattern: string, name: string) {
    var colon := FirstColon(pattern, 0);
    && Format(pattern, map[]) == pattern && 0 < colon < |pattern| && pattern[colon - 1] == '/'
    && name == Cut(pattern[colon + 1..]).0
  }

  /** The constraint of that parameter, if it has one with duplicate-free sets. */
  ghost predicate Applies(pattern: string, constraints: map<string, Constraint>, name: string) {
    FirstParam(pattern, name) && name in constraints && DuplicateFree(constraints[name].chars)
  }

  lemma {:induction false} CutText(s: string)
    ensures var cut := Cut(s); NoSlash(cut.0) && s == cut.0 + (if cut.2 then "/" + cut.1 else "")
  {
    if s != "" && s[0] != '/' {
      CutText(s[1..]);
      var cut := Cut(s[1..]);
      var tail := if cut.2 then "/" + cut.1 else "";
      assert s == [s[0]] + s[1..] == [s[0]] + (cut.0 + tail) == [s[0]] + cut.0 + tail;
    }
  }

  lemma {:induction false} SameHead(a: string, x: string, b: string, y: string)
    requires NoSlash(a) && NoSlash(b) && a + x == b + y
    requires x == "" || x[0] == '/'
    requires y == "" || y[0] == '/'
    ensures a == b && x == y
  {
    if a != "" && b != "" {
      assert (a + x)[0] == a[0] && (b + y)[0] == b[0];
      assert (a + x)[1..] == a[1..] + x && (b + y)[1..] == b[1..] + y;
      SameHead(a[1..], x, b[1..], y);
      assert a == [a[0]] + a[1..] && b == [b[0]] + b[1..];
    } else {
      assert a == "" ==> a + x == x;
      assert b == "" ==> b + y == y;
    }
  }

  /** A formatted path has the pattern's text up to its first parameter, then that parameter's value. */
  lemma {:induction false} ValueFollows(segs: seq<Segment>, prefix: string, name: string, tail: string, attrs: Attrs)
    returns (rest: string)
    requires Parsed(segs) && Render(segs, map[]) == prefix + (":" + name + tail)
    requires prefix != "" && prefix[|prefix| - 1] == '/' && ':' !in prefix && NoSlash(name)
    requires tail == "" || tail[0] == '/'
    ensures Render(segs, attrs) == prefix + (Text(Param(name), attrs) + rest) && (rest == "" || rest[0] == '/')
  {
    hide *;
    RenderHead(segs, map[]);
    if segs[0].Param? {
      rest := FollowsParameter(segs, prefix, name, tail, attrs);
    } else {
      var inner := BehindLiteral(segs, prefix, ":" + name + tail);
      rest := ValueFollows(segs[1..], inner, name, tail, attrs);
      RenderHead(segs, attrs);
      Regroup("/" + segs[0].text, inner, Text(Param(name), attrs) + rest);
    }
  }

  lemma Regroup(head: string, inner: string, value: string)
    ensures head + (inner + value) == head + inner + value
  {
  }

  lemma FollowsParameter(segs: seq<Segment>, prefix: string, name: string, tail: string, attrs: Attrs)
    returns (rest: string)
    requires Parsed(segs) && segs != [] && segs[0].Param? && Render(segs, map[]) == prefix + (":" + name + tail)
    requires prefix != "" && ':' !in prefix && NoSlash(name) && (tail == "" || tail[0] == '/')
    ensures Render(segs, attrs) == prefix + (Text(Param(name), attrs) + rest) && (rest == "" || rest[0] == '/')
  {
    hide *;
    RenderHead(segs, map[]);
    RenderHead(segs, attrs);
    ParsedName(segs);
    AtParameter(segs[0].name, Render(segs[1..], map[]), prefix, name, tail);
    rest := Render(segs[1..], attrs);
    Regroup("/", Text(Param(name), attrs), rest);
  }

  lemma ParsedName(segs: seq<Segment>)
    requires Parsed(segs) && segs != [] && segs[0].Param?
    ensures NoSlash(segs[0].name) && Text(segs[0], map[]) == ":" + segs[0].name && segs[0] == Param(segs[0].name)
  {
  }

  lemma BehindLiteral(segs: seq<Segment>, prefix: string, after: string) returns (inner: string)
    requires Parsed(segs) && segs != [] && segs[0].Lit? && Render(segs, map[]) == prefix + after && after != ""
    requires after[0] == ':'
    requires prefix != "" && prefix[|prefix| - 1] == '/' && ':' !in prefix
    ensures Parsed(segs[1..]) && Render(segs[1..], map[]) == inner + after && prefix == "/" + segs[0].text + inner
    ensures inner != "" && inner[|inner| - 1] == '/' && ':' !in inner
  {
    RenderHead(segs, map[]);
    hide Render;
    inner := PastLiteral(segs[0].text, Render(segs[1..], map[]), prefix, after);
    InnerEnds(segs[0].text, prefix, inner);
  }

  lemma RenderHead(segs: seq<Segment>, attrs: Attrs)
    requires Render(segs, map[]) != ""
    ensures segs != []
    ensures Text(segs[0], attrs) == (if segs[0].Lit? then segs[0].text else Text(Param(segs[0].name), attrs))
    ensures Render(segs, attrs) == "/" + Text(segs[0], attrs) + Render(segs[1..], attrs)
    ensures Render(segs[1..], attrs) == "" || Render(segs[1..], attrs)[0] == '/'
  {
  }

  lemma InnerEnds(text: string, prefix: string, inner: string)
    requires prefix == "/" + text + inner && inner != "" && prefix[|prefix| - 1] == '/' && ':' !in prefix
    ensures inner[|inner| - 1] == '/' && ':' !in inner
  {
    assert inner == prefix[|prefix| - |inner|..];
  }

  lemma AtParameter(found: string, next: string, prefix: string, name: string, tail: string)
    requires NoSlash(found) && NoSlash(name) && (next == "" || next[0] == '/') && (tail == "" || tail[0] == '/')
    requires "/" + (":" + found) + next == prefix + (":" + name + tail) && prefix != "" && ':' !in prefix
    ensures prefix == "/" && found == name
  {
    var all := prefix + (":" + name + tail);
    assert all[1] == ':' && all[0] == '/';
    assert forall i :: 0 <= i < |prefix| ==> all[i] == prefix[i];
    assert prefix == "/";
    assert all[2..] == found + next && all[2..] == name + tail;
    SameHead(found, next, name, tail);
  }

  lemma PastLiteral(text: string, next: string, prefix: string, after: string) returns (inner: string)
    requires text != "" && NoSlash(text) && text[0] != ':' && after != "" && after[0] == ':'
    requires "/" + text + next == prefix + after && prefix != "" && prefix[|prefix| - 1] == '/'
    ensures prefix == "/" + text + inner && next == inner + after && inner != ""
  {
    PrefixPastLiteral(text, prefix, prefix + after);
    var head := "/" + text;
    inner := prefix[|head|..];
    assert next == (prefix + after)[|head|..];
  }

  lemma PrefixPastLiteral(text: string, prefix: string, all: string)
    requires text != "" && NoSlash(text) && text[0] != ':' && "/" + text <= all
    requires prefix != "" && prefix <= all && |prefix| < |all| && all[|prefix|] == ':' && prefix[|prefix| - 1] == '/'
    ensures |"/" + text| < |prefix| && "/" + text == prefix[..|"/" + text|]
  {
    var head := "/" + text;
    assert forall i :: 0 <= i < |head| ==> all[i] == head[i];
    assert forall i :: 1 <= i < |head| ==> head[i] == text[i - 1] && head[i] != '/';
    assert all[1] == text[0];
    assert all[|prefix| - 1] == '/';
  }

  /** The value starts with the constraint's prefix and goes on with one character of each set. */
  ghost predicate ValueMeets(value: string, constr: Constraint) {
    Meets(value, constr.prefix, constr.chars)
  }

  ghost predicate SlashFree(constr: Constraint) {
    NoSlash(constr.prefix) && forall i :: 0 <= i < |constr.chars| ==> '/' !in constr.chars[i]
  }

  lemma MeetsValue(key: string, base: string, value: string, rest: string, constr: Constraint)
    requires key == base + value + rest && (rest == "" || rest[0] == '/')
    ensures ValueMeets(value, constr) ==> Meets(key, base + constr.prefix, constr.chars)
    ensures SlashFree(constr) && Meets(key, base + constr.prefix, constr.chars) ==> ValueMeets(value, constr)
  {
    if ValueMeets(value, constr) {
      assert base + constr.prefix == key[..|base| + |constr.prefix|];
    }
    if SlashFree(constr) && Meets(key, base + constr.prefix, constr.chars) {
      ValueOfKey(key, base, value, rest, constr);
    }
  }

  lemma ValueOfKey(key: string, base: string, value: string, rest: string, constr: Constraint)
    requires key == base + value + rest && (rest == "" || rest[0] == '/')
    requires SlashFree(constr) && Meets(key, base + constr.prefix, constr.chars)
    ensures ValueMeets(value, constr)
  {
    var n, prefix, text := |base|, constr.prefix, value + rest;
    assert key[n..] == text;
    assert forall i :: 0 <= i < |text| ==> text[i] == key[n + i];
    assert forall i :: 0 <= i < |prefix| ==> (base + prefix)[n + i] == prefix[i];
    assert forall i :: 0 <= i < |prefix| ==> text[i] == prefix[i];
    assert forall i :: 0 <= i < |constr.chars| ==> text[|prefix| + i] in constr.chars[i];
    NoSlashWithin(value, rest, prefix, constr.chars);
    assert prefix == value[..|prefix|];
  }

  lemma NoSlashWithin(value: string, rest: string, prefix: string, chars: seq<seq<char>>)
    requires NoSlash(prefix) && (forall i :: 0 <= i < |chars| ==> '/' !in chars[i]) && (rest == "" || rest[0] == '/')
    requires |prefix| + |chars| <= |value + rest|
    requires forall i :: 0 <= i < |prefix| ==> (value + rest)[i] == prefix[i]
    requires forall i :: 0 <= i < |chars| ==> (value + rest)[|prefix| + i] in chars[i]
    ensures |prefix| + |chars| <= |value|
  {
    var text := value + rest;
    forall i | 0 <= i < |prefix| + |chars| ensures text[i] != '/' {
      if i >= |prefix| { assert text[|prefix| + (i - |prefix|)] in chars[i - |prefix|]; }
    }
    if rest != "" { assert text[|value|] == '/'; }
  }

  /**
   * The keys of a constrained pattern: one whose first parameter meets the constraint lies under
   * exactly one enumerated prefix, any other under none.
   */
  lemma ConstrainedKeys(pattern: string, constraints: map<string, Constraint>, name: string, attrs: Attrs)
    requires Applies(pattern, constraints, name) && name in attrs
    ensures var key, prefixes := Format(pattern, attrs), ConstrainedPrefixes(pattern, constraints);
      && (ValueMeets(attrs[name], constraints[name]) ==> exists k :: OnlyEntry(prefixes, key, k))
      && (SlashFree(constraints[name]) && !ValueMeets(attrs[name], constraints[name]) ==>
            forall p :: p in prefixes ==> !(p <= key))
  {
    var base, rest := KeyOfPattern(pattern, name, attrs);
    var colon, constr := FirstColon(pattern, 0), constraints[name];
    assert ConstrainedPrefixes(pattern, constraints) == Product(base + constr.prefix, constr.chars);
    hide *;
    MeetsValue(Format(pattern, attrs), base, attrs[name], rest, constr);
    CoveredOnce(Format(pattern, attrs), base + constr.prefix, constr.chars);
  }

  /** A key is the pattern's text up to its first parameter, that parameter's value, and the rest. */
  lemma KeyOfPattern(pattern: string, name: string, attrs: Attrs) returns (base: string, rest: string)
    requires FirstParam(pattern, name) && name in attrs
    ensures base == pattern[..FirstColon(pattern, 0)] && Format(pattern, attrs) == base + attrs[name] + rest
    ensures rest == "" || rest[0] == '/'
  {
    var tail := SplitAtParam(pattern, name);
    base := pattern[..FirstColon(pattern, 0)];
    hide *;
    SegmentsParsed(pattern);
    rest := ValueFollows(Segments(pattern), base, name, tail, attrs);
    BoundText(name, attrs);
    FormatIs(pattern, attrs);
    Regroup(base, attrs[name], rest);
  }

  lemma SplitAtParam(pattern: string, name: string) returns (tail: string)
    requires FirstParam(pattern, name)
    ensures var base := pattern[..FirstColon(pattern, 0)];
      && Render(Segments(pattern), map[]) == base + (":" + name + tail)
      && base != "" && base[|base| - 1] == '/' && ':' !in base && NoSlash(name) && (tail == "" || tail[0] == '/')
  {
    hide *;
    var colon := ParamPlace(pattern, name);
    tail := CutTail(pattern[colon + 1..]);
    AroundColon(pattern, colon, name, tail);
    FormatIs(pattern, map[]);
  }

  lemma ParamPlace(pattern: string, name: string) returns (colon: nat)
    requires FirstParam(pattern, name)
    ensures colon == FirstColon(pattern, 0) && 0 < colon < |pattern| && pattern[colon] == ':'
    ensures name == Cut(pattern[colon + 1..]).0
    ensures Format(pattern, map[]) == pattern
    ensures var base := pattern[..colon]; base[|base| - 1] == '/' && ':' !in base
  {
    hide Format, Cut;
    colon := FirstColon(pattern, 0);
  }

  lemma CutTail(s: string) returns (tail: string)
    ensures s == Cut(s).0 + tail && NoSlash(Cut(s).0) && (tail == "" || tail[0] == '/')
  {
    CutText(s);
    tail := if Cut(s).2 then "/" + Cut(s).1 else "";
  }

  lemma AroundColon(pattern: string, colon: nat, name: string, tail: string)
    requires colon < |pattern| && pattern[colon] == ':' && pattern[colon + 1..] == name + tail
    ensures pattern == pattern[..colon] + (":" + name + tail)
  {
    assert ":" + name + tail == ":" + (name + tail);
    assert pattern[colon..] == ":" + pattern[colon + 1..];
  }

  lemma BoundText(name: string, attrs: Attrs)
    requires name in attrs
    ensures Text(Param(name), attrs) == attrs[name]
  {
  }

  lemma FormatIs(pattern: string, attrs: Attrs)
    ensures Format(pattern, attrs) == Render(Segments(pattern), attrs)
  {
  }

  /** An unconstrained pattern in normal form has one prefix, and every key lies under it. */
  lemma UnconstrainedKeys(pattern: string, constraints: map<string, Constraint>, attrs: Attrs)
    requires Prefix(pattern) <= Format(pattern, map[])
    requires var colon := FirstColon(pattern, 0); colon == |pattern| || Cut(pattern[colon + 1..]).0 !in constraints
    ensures OnlyEntry(ConstrainedPrefixes(pattern, constraints), Format(pattern, attrs), 0)
  {
    hide Format;
    PrefixExact(pattern);
  }

  /** All plain values for a pattern's parameters the same. */
  ghost function Uniform(pattern: string, value: string): Attrs { map n | n in Names(Segments(pattern)) :: value }

  /** A text that every key of the pattern starts with. */
  ghost predicate Common(pattern: string, text: string) {
    forall attrs: Attrs :: PlainAttrs(attrs) && Names(Segments(pattern)) <= attrs.Keys ==>
      text <= Format(pattern, attrs)
  }

  /**
   * The prefix is the longest one possible: for a pattern in normal form whose first colon, if any,
   * starts a segment, a text is a prefix of every key of the pattern if and only if it is a prefix of
   * the pattern's prefix. So no watched or crawled range is wider than it must be.
   */
  lemma PrefixIsLongest(pattern: string, text: string)
    requires Format(pattern, map[]) == pattern
    requires Prefix(pattern) == pattern || FirstParam(pattern, Cut(pattern[|Prefix(pattern)| + 1..]).0)
    ensures Common(pattern, text) <==> text <= Prefix(pattern)
  {
    PrefixExact(pattern);
    if text <= Prefix(pattern) {
      forall attrs: Attrs ensures text <= Format(pattern, attrs) {
        assert Prefix(pattern) <= Format(pattern, attrs);
        PrefixTwice(text, Prefix(pattern), Format(pattern, attrs));
      }
    }
    if Common(pattern, text) {
      if Prefix(pattern) == pattern {
        WithoutParams(pattern);
        CommonKey(pattern, text, "x");
      } else {
        var name := Cut(pattern[|Prefix(pattern)| + 1..]).0;
        var rest := NamedKey(pattern, name, "x");
        var other := NamedKey(pattern, name, "y");
        CommonKey(pattern, text, "x");
        CommonKey(pattern, text, "y");
        hide *;
        LongestCommon(text, Prefix(pattern), rest, other);
      }
    }
  }

  lemma PrefixTwice(a: string, b: string, d: string)
    requires a <= b && b <= d
    ensures a <= d
  {
  }

  lemma CommonKey(pattern: string, text: string, value: string)
    requires Common(pattern, text) && Plain(value)
    ensures text <= Format(pattern, Uniform(pattern, value))
  {
    hide Format, Segments, Names;
  }

  /** A key with this value for the first parameter. */
  lemma NamedKey(pattern: string, name: string, value: string) returns (rest: string)
    requires FirstParam(pattern, name) && Plain(value)
    ensures Format(pattern, Uniform(pattern, value)) == Prefix(pattern) + (value + rest)
  {
    FirstParamNamed(pattern, name);
    var attrs := Uniform(pattern, value);
    assert name in attrs && attrs[name] == value;
    var base;
    base, rest := KeyOfPattern(pattern, name, attrs);
    assert Prefix(pattern) == base;
    hide *;
    Regroup(base, value, rest);
  }

  /** The name after the first colon is one of the pattern's parameters. */
  lemma FirstParamNamed(pattern: string, name: string)
    requires FirstParam(pattern, name)
    ensures name in Names(Segments(pattern))
  {
    var base, rest := KeyOfPattern(pattern, name, map[name := "x"]);
    assert pattern[|base|] == ':' && (base + "x" + rest)[|base|] == 'x';
    if name !in Names(Segments(pattern)) { OthersDoNotMatter(Segments(pattern), name, "x"); }
  }

  lemma {:induction false} OthersDoNotMatter(segs: seq<Segment>, name: string, value: string)
    requires name !in Names(segs)
    ensures Render(segs, map[name := value]) == Render(segs, map[])
  {
    if segs != [] { OthersDoNotMatter(segs[1..], name, value); }
  }

  lemma WithoutParams(pattern: string)
    requires Format(pattern, map[]) == pattern && Prefix(pattern) == pattern
    ensures forall attrs :: Format(pattern, attrs) == pattern
  {
    forall attrs ensures Format(pattern, attrs) == pattern {
      ColonFree(Segments(pattern), attrs);
    }
  }

  lemma {:induction false} ColonFree(segs: seq<Segment>, attrs: Attrs)
    requires ':' !in Render(segs, map[])
    ensures Render(segs, attrs) == Render(segs, map[])
  {
    if segs != [] {
      var head, tail := "/" + Text(segs[0], map[]), Render(segs[1..], map[]);
      assert Render(segs, map[]) == head + tail;
      assert forall i :: 0 <= i < |tail| ==> tail[i] == (head + tail)[|head| + i];
      if segs[0].Param? { ParamHasColon(segs); }
      ColonFree(segs[1..], attrs);
    }
  }

  lemma ParamHasColon(segs: seq<Segment>)
    requires segs != [] && segs[0].Param?
    ensures ':' in Render(segs, map[])
  {
    assert Render(segs, map[])[1] == ':';
  }

  lemma LongestCommon(text: string, base: string, rest: string, other: string)
    requires text <= base + ("x" + rest) && text <= base + ("y" + other)
    ensures text <= base
  {
    var n := |base|;
    assert (base + ("x" + rest))[n] == 'x' && (base + ("y" + other))[n] == 'y';
    assert text == (base + ("x" + rest))[..|text|];
  }

  // ---------------------------------------------------------------------------
  // Reduction

  ghost predicate Covers(prefixes: set<string>, key: string) {
    exists p :: p in prefixes && p <= key
  }

  ghost predicate PrefixFree(prefixes: set<string>) {
    forall p, q :: p in prefixes && q in prefixes && p <= q ==> p == q
  }

  /** The members that have no other member as a prefix. */
  ghost function Minimal(prefixes: set<string>): set<string> {
    set p | p in prefixes && forall q :: q in prefixes && q <= p ==> q == p
  }

  lemma {:induction false} HasMinimal(prefixes: set<string>, p: string) returns (q: string)
    requires p in prefixes
    ensures q in Minimal(prefixes) && q <= p
    decreases |p|
  {
    if p in Minimal(prefixes) {
      q := p;
    } else {
      var r :| r in prefixes && r <= p && r != p;
      q := HasMinimal(prefixes, r);
    }
  }

  /** Reduction keeps the covered keys and leaves no redundant prefix. */
  lemma MinimalReduces(prefixes: set<string>)
    ensures PrefixFree(Minimal(prefixes))
    ensures forall key :: Covers(Minimal(prefixes), key) <==> Covers(prefixes, key)
  {
    forall key | Covers(prefixes, key) ensures Covers(Minimal(prefixes), key) {
      var p :| p in prefixes && p <= key;
      var q := HasMinimal(prefixes, p);
      assert q in Minimal(prefixes) && q <= key;
    }
  }

  /** It is the only prefix-free set that covers the same keys. */
  lemma MinimalUnique(prefixes: set<string>, other: set<string>)
    requires PrefixFree(other)
    requires forall key :: Covers(other, key) <==> Covers(prefixes, key)
    ensures other == Minimal(prefixes)
  {
    MinimalReduces(prefixes);
    PrefixFreeIncluded(other, Minimal(prefixes));
    PrefixFreeIncluded(Minimal(prefixes), other);
  }

  lemma PrefixFreeIncluded(a: set<string>, b: set<string>)
    requires PrefixFree(a) && PrefixFree(b)
    requires forall key :: Covers(a, key) <==> Covers(b, key)
    ensures a <= b
  {
    forall p | p in a ensures p in b {
      assert Covers(a, p);
      var q :| q in b && q <= p;
      assert Covers(b, q);
      var r :| r in a && r <= q;
      assert r <= p;
      assert r == p && |q| == |p|;
      assert q == p[..|q|] == p;
    }
  }

  /** Reducing after every addition equals reducing everything once. */
  lemma MinimalIncremental(old': set<string>, added: set<string>)
    ensures Minimal(Minimal(old') + added) == Minimal(old' + added)
  {
    var once := old' + added;
    var twice := Minimal(old') + added;
    MinimalReduces(old');
    MinimalReduces(once);
    forall key ensures Covers(Minimal(once), key) <==> Covers(twice, key) {
      if Covers(once, key) {
        var p :| p in once && p <= key;
        if p in old' {
          assert Covers(old', key);
          var q :| q in Minimal(old') && q <= key;
          assert q in twice;
        } else {
          assert p in twice;
        }
      }
      if Covers(twice, key) {
        var p :| p in twice && p <= key;
        assert p in once;
      }
    }
    MinimalUnique(twice, Minimal(once));
  }

  predicate SortedByLength(s: seq<string>) {
    forall i, j :: 0 <= i < j < |s| ==> |s[i]| <= |s[j]|
  }

  /** The map's keys in some iteration order. */
  method Collect(prefixes: set<string>) returns (out: array<string>)
    ensures fresh(out) && multiset(out[..]) == multiset(prefixes)
  {
    var rest, s := prefixes, [];
    while rest != {}
      invariant multiset(s) + multiset(rest) == multiset(prefixes)
      decreases rest
    {
      var p :| p in rest;
      s := s + [p];
      rest := rest - {p};
    }
    out := new string[|s|](i requires 0 <= i < |s| => s[i]);
    assert out[..] == s;
  }

  /** `sortPrefixesByLength`: insertion sort, shifting in place. */
  method SortPrefixesByLength(prefixes: set<string>) returns (out: array<string>)
    ensures fresh(out) && multiset(out[..]) == multiset(prefixes)
    ensures SortedByLength(out[..])
  {
    out := Collect(prefixes);
    var i := 1;
    while i < out.Length
      invariant 1 <= i && multiset(out[..]) == multiset(prefixes)
      invariant out.Length > 0 ==> i <= out.Length && SortedTo(out[..], i)
    {
      hide Move, SortedTo;
      ghost var before := out[..];
      ghost var k := Insert(out, i);
      MovePermutes(before, i, k);
      MoveSorts(before, i, k);
      i := i + 1;
    }
    assert out.Length > 0 ==> out[..][..out.Length] == out[..];
  }

  ghost predicate SortedTo(s: seq<string>, n: nat)
    requires n <= |s|
  {
    SortedByLength(s[..n])
  }

  /** s with element i moved to position k. */
  ghost function Move(s: seq<string>, i: nat, k: nat): seq<string>
    requires k <= i < |s|
  {
    s[..k] + [s[i]] + s[k..i] + s[i + 1..]
  }

  /** The inner loop: shift longer elements right and drop element i into the gap. */
  method Insert(out: array<string>, i: nat) returns (ghost k: nat)
    requires 0 < i < out.Length
    modifies out
    ensures k <= i && out[..] == Move(old(out[..]), i, k)
    ensures k > 0 ==> |old(out[k - 1])| <= |old(out[i])|
    ensures forall m :: k <= m < i ==> |old(out[m])| > |old(out[i])|
  {
    var x := out[i];
    var j := i - 1;
    while j >= 0 && |out[j]| > |x|
      invariant -1 <= j < i
      invariant forall m :: 0 <= m <= j || i < m < out.Length ==> out[m] == old(out[m])
      invariant forall m :: j + 1 < m <= i ==> out[m] == old(out[m - 1])
      invariant forall m :: j < m < i ==> |old(out[m])| > |x|
    {
      out[j + 1] := out[j];
      j := j - 1;
    }
    out[j + 1] := x;
    k := j + 1;
    IsMove(old(out[..]), out[..], i, k);
  }

  lemma IsMove(s: seq<string>, t: seq<string>, i: nat, k: nat)
    requires k <= i < |s| && |t| == |s| && t[k] == s[i]
    requires forall m :: 0 <= m < k || i < m < |s| ==> t[m] == s[m]
    requires forall m :: k < m <= i ==> t[m] == s[m - 1]
    ensures t == Move(s, i, k)
  {
  }

  lemma MovePermutes(s: seq<string>, i: nat, k: nat)
    requires k <= i < |s|
    ensures multiset(Move(s, i, k)) == multiset(s)
  {
    var a, b, x, d := s[..k], s[k..i], [s[i]], s[i + 1..];
    assert s == a + b + x + d;
    assert multiset(s) == multiset(a) + multiset(b) + multiset(x) + multiset(d);
    assert multiset(a + x + b + d) == multiset(a) + multiset(x) + multiset(b) + multiset(d);
  }

  lemma MoveSorts(s: seq<string>, i: nat, k: nat)
    requires k <= i < |s| && SortedTo(s, i)
    requires k > 0 ==> |s[k - 1]| <= |s[i]|
    requires forall m :: k <= m < i ==> |s[m]| > |s[i]|
    ensures |Move(s, i, k)| == |s| && SortedTo(Move(s, i, k), i + 1)
  {
    var t := s[..i];
    var moved := Move(s, i, k)[..i + 1];
    assert moved == t[..k] + [s[i]] + t[k..];
    assert forall a, b :: 0 <= a < b < i ==> |t[a]| <= |t[b]|;
    assert forall a :: 0 <= a < k ==> |t[a]| <= |t[k - 1]|;
  }

  /** `reducePrefixes` keeps exactly the minimal prefixes, whatever order the map is read in. */
  method ReducePrefixes(prefixes: set<string>) returns (out: set<string>)
    ensures out == Minimal(prefixes)
    ensures PrefixFree(out) && forall key :: Covers(out, key) <==> Covers(prefixes, key)
  {
    MinimalReduces(prefixes);
    var sorted := SortPrefixesByLength(prefixes);
    ghost var s := sorted[..];
    out := {};
    for i := 0 to sorted.Length
      invariant sorted[..] == s
      invariant out == set p | p in s[..i] && p in Minimal(prefixes)
    {
      hide Minimal, SortedByLength;
      var prefix := sorted[i];
      assert prefix in multiset(s);
      var add := NoneAbove(out, prefix);
      AddedWhenMinimal(prefixes, s, i);
      assert forall q :: q in out <==> q in s[..i] && q in Minimal(prefixes);
      assert add <==> prefix in Minimal(prefixes);
      assert s[..i + 1] == s[..i] + [prefix];
      if add { out := out + {prefix}; }
    }
    assert s[..|s|] == s;
    assert forall p :: p in prefixes ==> p in multiset(s);
  }

  /** The inner loop: no prefix added so far is a prefix of this one. */
  method NoneAbove(added: set<string>, prefix: string) returns (add: bool)
    ensures add <==> forall q :: q in added ==> !(q <= prefix)
  {
    add := true;
    var rest := added;
    while rest != {}
      invariant rest <= added
      invariant add <==> forall q :: q in added && q !in rest ==> !(q <= prefix)
      decreases rest
    {
      var one :| one in rest;
      if one <= prefix { add := false; }
      rest := rest - {one};
    }
  }

  /** In length order, a prefix is minimal when no minimal prefix before it extends to it. */
  lemma AddedWhenMinimal(prefixes: set<string>, s: seq<string>, i: nat)
    requires i < |s| && SortedByLength(s) && multiset(s) == multiset(prefixes)
    ensures s[i] in Minimal(prefixes) <==> forall q :: q in s[..i] && q in Minimal(prefixes) ==> !(q <= s[i])
  {
    assert s[i] in multiset(s);
    assert s == s[..i] + [s[i]] + s[i + 1..];
    assert multiset(s) == multiset(s[..i]) + multiset{s[i]} + multiset(s[i + 1..]);
    if s[i] !in Minimal(prefixes) {
      var q := HasMinimal(prefixes, s[i]);
      assert q in multiset(s);
      var k :| 0 <= k < |s| && s[k] == q;
      assert k < i;
      assert s[..i][k] == q;
    } else {
      forall q | q in s[..i] && q in Minimal(prefixes) ensures !(q <= s[i]) {
        assert multiset(s)[s[i]] == 1;
      }
    }
  }
}
