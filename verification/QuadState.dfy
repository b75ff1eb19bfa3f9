/**
 * What the quad-state filter (`qSatisfiable`, rules/static_rule.go) says about the truth of a
 * rule. The filter is an abstract interpretation of `satisfied` that knows one key and its
 * value; it is not complete for every rule tree. Each theorem names its fragment, and
 * MissedFlipExact and FilterExact say over independent leaves exactly when something is lost.
 */
module QuadState {
  import opened Base
  import opened StaticRules

  predicate Passes(q: Quad) { q == QTrue || q == QMaybe }

  /** The filter ignores exactly the keys that no leaf matches. */
  lemma {:induction false} QNoneIsUnmatched(r: Rule, key: string, v: Value)
    ensures QSat(r, key, v) == QNone <==> !KeyMatch(r, key)
    decreases r
  {
    match r {
      case And(_) | Or(_) =>
        forall i | 0 <= i < |r.rules| ensures QSat(r.rules[i], key, v) == QNone <==> !KeyMatch(r.rules[i], key) {
          QNoneIsUnmatched(r.rules[i], key, v);
        }
      case Not(rule) => QNoneIsUnmatched(rule, key, v);
      case _ =>
    }
  }

  lemma {:induction false} ReadImpliesMatch(r: Rule, key: string)
    ensures Reads(r, key) ==> KeyMatch(r, key)
    decreases r
  {
    match r {
      case And(_) | Or(_) =>
        forall i | 0 <= i < |r.rules| ensures Reads(r.rules[i], key) ==> KeyMatch(r.rules[i], key) {
          ReadImpliesMatch(r.rules[i], key);
        }
      case Not(rule) => ReadImpliesMatch(rule, key);
      case _ =>
    }
  }

  lemma UnmatchedIsUnaffected(r: Rule, key: string, v: Value, s: Store)
    requires !KeyMatch(r, key)
    ensures Holds(r, Put(s, key, v)) == Holds(r, s)
    ensures QSat(r, key, v) == QNone
  {
    QNoneIsUnmatched(r, key, v);
    ReadImpliesMatch(r, key);
    HoldsDependsOnReads(r, s, Put(s, key, v));
  }

  // ---------------------------------------------------------------------------
  // Keys that occur in one leaf

  /** At most one leaf of r matches key. */
  ghost predicate InOneLeaf(r: Rule, key: string) {
    match r
    case Literal(_, _) => true
    case Equals(_) => true
    case And(_) | Or(_) => EachInOneLeaf(r.rules, key)
    case Not(rule) => InOneLeaf(rule, key)
  }

  ghost predicate EachInOneLeaf(rules: seq<Rule>, key: string)
    decreases rules, 1
  {
    && (forall i :: 0 <= i < |rules| ==> InOneLeaf(rules[i], key))
    && (forall i, j :: 0 <= i < j < |rules| ==> !(KeyMatch(rules[i], key) && KeyMatch(rules[j], key)))
  }

  /**
   * A write that flips a rule is never filtered away in the wrong direction, for any tree in
   * which the written key sits in one leaf. NOT swaps the two halves, so both are proved at once.
   */
  lemma {:induction false} TriggerCompleteness(r: Rule, key: string, v: Value, s: Store)
    requires InOneLeaf(r, key)
    ensures !Holds(r, s) && Holds(r, Put(s, key, v)) ==> QSat(r, key, v) == QTrue || QSat(r, key, v) == QMaybe
    ensures Holds(r, s) && !Holds(r, Put(s, key, v)) ==> QSat(r, key, v) == QFalse || QSat(r, key, v) == QMaybe
    decreases r
  {
    match r {
      case Literal(k, _) => if k != key { UnmatchedIsUnaffected(r, key, v, s); }
      case Equals(_) => if !KeyMatch(r, key) { UnmatchedIsUnaffected(r, key, v, s); }
      case And(_) | Or(_) => NestedTriggerCompleteness(r.rules, key, v, s);
      case Not(rule) => TriggerCompleteness(rule, key, v, s);
    }
  }

  lemma {:induction false} NestedTriggerCompleteness(rules: seq<Rule>, key: string, v: Value, s: Store)
    requires EachInOneLeaf(rules, key)
    ensures TriggerVerdict(And(rules), key, v, s) && TriggerVerdict(Or(rules), key, v, s)
    decreases rules, 0
  {
    forall i | 0 <= i < |rules|
      ensures TriggerVerdict(rules[i], key, v, s)
      ensures !KeyMatch(rules[i], key) ==> Unaffected(rules[i], key, v, s)
    {
      TriggerCompleteness(rules[i], key, v, s);
      if !KeyMatch(rules[i], key) { UnmatchedIsUnaffected(rules[i], key, v, s); }
    }
    hide InOneLeaf, KeyMatch, TriggerVerdict;
    if m :| 0 <= m < |rules| && KeyMatch(rules[m], key) {
      OneDecides(rules, m, key, v, s);
    } else {
      NoneAffected(rules, key, v, s);
    }
  }

  ghost predicate Unaffected(r: Rule, key: string, v: Value, s: Store) {
    Holds(r, Put(s, key, v)) == Holds(r, s) && QSat(r, key, v) == QNone
  }

  lemma NoneAffected(rules: seq<Rule>, key: string, v: Value, s: Store)
    requires forall i :: 0 <= i < |rules| ==> Unaffected(rules[i], key, v, s)
    ensures TriggerVerdict(And(rules), key, v, s) && TriggerVerdict(Or(rules), key, v, s)
  {
  }

  /** When all nested rules but one are unaffected, that one decides. */
  lemma OneDecides(rules: seq<Rule>, m: nat, key: string, v: Value, s: Store)
    requires m < |rules| && TriggerVerdict(rules[m], key, v, s)
    requires forall i :: 0 <= i < |rules| && i != m ==> Unaffected(rules[i], key, v, s)
    ensures TriggerVerdict(And(rules), key, v, s) && TriggerVerdict(Or(rules), key, v, s)
  {
    var q := QSat(rules[m], key, v);
    assert forall x :: x != QNone ==> (AnyNested(rules, key, v, x) <==> q == x);
    var all, any := And(rules), Or(rules);
    assert QSat(all, key, v) == q;
    assert QSat(any, key, v) == q;
    hide QSat;
    CompoundTurn(all, m, key, v, s);
    CompoundTurn(any, m, key, v, s);
  }

  /** A compound turns only if its one affected nested rule turns the same way. */
  lemma CompoundTurn(r: Rule, m: nat, key: string, v: Value, s: Store)
    requires (r.And? || r.Or?) && m < |r.rules|
    requires forall i :: 0 <= i < |r.rules| && i != m ==> Holds(r.rules[i], Put(s, key, v)) == Holds(r.rules[i], s)
    ensures Holds(r, s) != Holds(r, Put(s, key, v)) ==>
      Holds(r.rules[m], s) == Holds(r, s) && Holds(r.rules[m], Put(s, key, v)) == Holds(r, Put(s, key, v))
  {
  }

  ghost predicate TriggerVerdict(r: Rule, key: string, v: Value, s: Store) {
    && (!Holds(r, s) && Holds(r, Put(s, key, v)) ==> QSat(r, key, v) == QTrue || QSat(r, key, v) == QMaybe)
    && (Holds(r, s) && !Holds(r, Put(s, key, v)) ==> QSat(r, key, v) == QFalse || QSat(r, key, v) == QMaybe)
  }

  /**
   * Outside that fragment the filter can lose real work: And(Or(k = "x", b = "y"), Not(k = "x"))
   * with b = "y" becomes true when k changes from "x" to "z", and the write is filtered out.
   */
  lemma FlipCanBeMissed()
    ensures var r, s := Contrary(), map["k" := "x", "b" := "y"];
      !Holds(r, s) && Holds(r, Put(s, "k", Some("z"))) && QSat(r, "k", Some("z")) == QFalse
  {
    ContraryTruth(map["k" := "x", "b" := "y"]);
    ContraryTruth(Put(map["k" := "x", "b" := "y"], "k", Some("z")));
    ContraryQuad(Some("z"));
  }

  function Is(text: string): Value -> bool { (v: Value) => v == Some(text) }

  function Contrary(): Rule { And([Or([Literal("k", Is("x")), Literal("b", Is("y"))]), Not(Literal("k", Is("x")))]) }

  lemma TwoTruths(a: Rule, b: Rule, s: Store)
    ensures Holds(And([a, b]), s) <==> Holds(a, s) && Holds(b, s)
    ensures Holds(Or([a, b]), s) <==> Holds(a, s) || Holds(b, s)
  {
    var all, any := And([a, b]), Or([a, b]);
    assert all.rules[0] == any.rules[0] == a && all.rules[1] == any.rules[1] == b;
  }

  lemma ContraryTruth(s: Store)
    ensures Holds(Contrary(), s) <==> Get(s, "k") != Some("x") && Get(s, "b") == Some("y")
  {
    var isX, isY := Literal("k", Is("x")), Literal("b", Is("y"));
    TwoTruths(isX, isY, s);
    TwoTruths(Or([isX, isY]), Not(isX), s);
  }

  lemma ContraryQuad(v: Value)
    ensures QSat(Contrary(), "k", v) == QFalse
  {
    var isX, isY := Literal("k", Is("x")), Literal("b", Is("y"));
    var inner := [isX, isY];
    var outer := [Or(inner), Not(isX)];
    assert inner[0] == isX && inner[1] == isY && outer[0] == Or(inner) && outer[1] == Not(isX);
    assert QSat(isY, "k", v) == QNone;
    if v == Some("x") {
      assert QSat(outer[1], "k", v) == QFalse;
    } else {
      assert QSat(inner[0], "k", v) == QFalse;
      assert QSat(outer[0], "k", v) == QFalse;
    }
    assert AnyNested(outer, "k", v, QFalse);
  }

  // ---------------------------------------------------------------------------
  // Conjunctive rules

  /** Nested ANDs of leaves and negated leaves. */
  ghost predicate Conjunctive(r: Rule) {
    match r
    case Literal(_, _) => true
    case Equals(_) => true
    case And(rules) => forall i :: 0 <= i < |rules| ==> Conjunctive(rules[i])
    case Or(_) => false
    case Not(rule) => rule.Literal? || rule.Equals?
  }

  lemma {:induction false} ConjunctiveNeverFalse(r: Rule, key: string, s: Store)
    requires Conjunctive(r) && Holds(r, s)
    ensures QSat(r, key, Get(s, key)) != QFalse
    decreases r
  {
    if r.And? {
      forall i | 0 <= i < |r.rules| ensures QSat(r.rules[i], key, Get(s, key)) != QFalse {
        ConjunctiveNeverFalse(r.rules[i], key, s);
      }
    }
  }

  /**
   * On conjunctive rules the enhanced filter drops nothing that evaluates to true, so filtering
   * and evaluating gives the same verdict as plain key membership and evaluating.
   */
  lemma EnhancedFilterLossless(r: Rule, key: string, s: Store)
    requires Conjunctive(r)
    ensures Passes(QSat(r, key, Get(s, key))) && Holds(r, s) <==> Satisfiable(r, key) && Holds(r, s)
  {
    SatisfiableIsKeyMatch(r, key);
    QNoneIsUnmatched(r, key, Get(s, key));
    if Holds(r, s) { ConjunctiveNeverFalse(r, key, s); }
  }

  // ---------------------------------------------------------------------------
  // Which writes flip a rule

  /** The truth of a rule before and after one write. */
  datatype Turn = Turn(before: bool, after: bool)

  /** Two nested rules under an AND (conj) or an OR. */
  function Combine(t: Turn, u: Turn, conj: bool): Turn {
    if conj then Turn(t.before && u.before, t.after && u.after) else Turn(t.before || u.before, t.after || u.after)
  }

  /** Some values of the other keys could give r this turn when key is written from one value to another. */
  ghost predicate Reachable(r: Rule, key: string, from: Value, to: Value, t: Turn)
    decreases r
  {
    match r
    case Literal(k, cmp) =>
      if k == key then t == Turn(cmp(from), cmp(to))
      else t.before == t.after && exists other: Value :: cmp(other) == t.before
    case Equals(keys) => EqualsReachable(keys, key, from, to, t)
    case And(rules) => AllReachable(rules, key, from, to, t, true)
    case Or(rules) => AllReachable(rules, key, from, to, t, false)
    case Not(rule) => Reachable(rule, key, from, to, Turn(!t.before, !t.after))
  }

  ghost predicate AllReachable(rules: seq<Rule>, key: string, from: Value, to: Value, t: Turn, conj: bool)
    decreases rules
  {
    if rules == [] then t == Turn(conj, conj)
    else
      var n := |rules| - 1;
      exists u, w ::
        && t == Combine(u, w, conj)
        && AllReachable(rules[..n], key, from, to, u, conj) && Reachable(rules[n], key, from, to, w)
  }

  ghost predicate EqualsReachable(keys: seq<string>, key: string, from: Value, to: Value, t: Turn) {
    if key !in keys then t.before == t.after && (t.before || exists i :: 0 <= i < |keys| && keys[i] != keys[0])
    else if forall i :: 0 <= i < |keys| ==> keys[i] == key then t == Turn(true, true)
    else if from == to then t.before == t.after
    else t != Turn(true, true)
  }

  /** No key but the written one is read by two leaves. */
  ghost predicate Independent(r: Rule, key: string) {
    match r
    case Literal(_, _) => true
    case Equals(_) => true
    case And(_) | Or(_) => EachIndependent(r.rules, key)
    case Not(rule) => Independent(rule, key)
  }

  ghost predicate EachIndependent(rules: seq<Rule>, key: string)
    decreases rules, 1
  {
    && (forall i :: 0 <= i < |rules| ==> Independent(rules[i], key))
    && (forall i, j, k :: 0 <= i < j < |rules| && Reads(rules[i], k) && Reads(rules[j], k) ==> k == key)
  }

  function TurnOf(r: Rule, s: Store, key: string, to: Value): Turn {
    Turn(Holds(r, s), Holds(r, Put(s, key, to)))
  }

  /** Sound for every tree: whatever a write does to the rule in some store is reachable. */
  lemma {:induction false} ReachableSound(r: Rule, key: string, to: Value, s: Store)
    ensures Reachable(r, key, Get(s, key), to, TurnOf(r, s, key, to))
    decreases r
  {
    match r {
      case And(rules) => AllReachableSound(rules, key, to, s, true);
      case Or(rules) => AllReachableSound(rules, key, to, s, false);
      case Not(rule) => ReachableSound(rule, key, to, s);
      case Equals(keys) => EqualsTurn(keys, key, to, s);
      case Literal(k, _) =>
        if k != key { assert Get(Put(s, key, to), k) == Get(s, k); }
    }
  }

  lemma EqualsTurn(keys: seq<string>, key: string, to: Value, s: Store)
    ensures EqualsReachable(keys, key, Get(s, key), to, TurnOf(Equals(keys), s, key, to))
  {
    var after := Put(s, key, to);
    if key !in keys || Get(s, key) == to {
      HoldsDependsOnReads(Equals(keys), s, after);
    } else if i :| 0 <= i < |keys| && keys[i] != key {
      assert Get(after, keys[i]) == Get(s, keys[i]);
    }
  }

  ghost function Whole(rules: seq<Rule>, conj: bool): Rule { if conj then And(rules) else Or(rules) }

  lemma WholeSplits(rules: seq<Rule>, s: Store, conj: bool)
    requires rules != []
    ensures var n := |rules| - 1;
      Holds(Whole(rules, conj), s) <==>
        if conj then Holds(Whole(rules[..n], conj), s) && Holds(rules[n], s)
        else Holds(Whole(rules[..n], conj), s) || Holds(rules[n], s)
  {
    var n := |rules| - 1;
    var init := rules[..n];
    assert forall i :: 0 <= i < n ==> init[i] == rules[i];
    if !conj && Holds(Whole(init, conj), s) {
      var i :| 0 <= i < n && Holds(init[i], s);
      assert Holds(rules[i], s);
    }
  }

  lemma {:induction false} AllReachableSound(rules: seq<Rule>, key: string, to: Value, s: Store, conj: bool)
    ensures AllReachable(rules, key, Get(s, key), to, TurnOf(Whole(rules, conj), s, key, to), conj)
    decreases rules
  {
    if rules != [] {
      var n := |rules| - 1;
      AllReachableSound(rules[..n], key, to, s, conj);
      ReachableSound(rules[n], key, to, s);
      WholeSplits(rules, s, conj);
      WholeSplits(rules, Put(s, key, to), conj);
      assert TurnOf(Whole(rules, conj), s, key, to) ==
        Combine(TurnOf(Whole(rules[..n], conj), s, key, to), TurnOf(rules[n], s, key, to), conj);
    }
  }

  /** Complete when leaves are independent: a store in which the write does just that is built. */
  lemma {:induction false} ReachableComplete(r: Rule, key: string, from: Value, to: Value, t: Turn) returns (s: Store)
    requires Independent(r, key) && Reachable(r, key, from, to, t)
    ensures Get(s, key) == from && TurnOf(r, s, key, to) == t
    decreases r
  {
    match r {
      case Literal(k, cmp) =>
        s := Put(map[], key, from);
        if k != key {
          var other: Value :| cmp(other) == t.before;
          s := Put(s, k, other);
        }
      case Equals(keys) => s := EqualsStore(keys, key, from, to, t);
      case And(rules) => s := AllReachableComplete(rules, key, from, to, t, true);
      case Or(rules) => s := AllReachableComplete(rules, key, from, to, t, false);
      case Not(rule) => s := ReachableComplete(rule, key, from, to, Turn(!t.before, !t.after));
    }
  }

  /** A value other than these two. */
  function Other(a: Value, b: Value): (v: Value)
    ensures v != a && v != b
  {
    if a != None && b != None then None else if a != Some("") && b != Some("") then Some("") else Some("x")
  }

  /** All the keys hold v. */
  ghost function Flat(keys: seq<string>, v: Value): (s: Store)
    ensures forall i :: 0 <= i < |keys| ==> Get(s, keys[i]) == v
  {
    if v.Some? then map k | k in keys :: v.value else map[]
  }

  lemma EqualsStore(keys: seq<string>, key: string, from: Value, to: Value, t: Turn) returns (s: Store)
    requires EqualsReachable(keys, key, from, to, t)
    ensures Get(s, key) == from && TurnOf(Equals(keys), s, key, to) == t
  {
    hide Holds;
    if key in keys {
      var v := if t.before then from else if t.after then to else Other(from, to);
      s := Put(Flat(keys, v), key, from);
      FlatButOne(keys, key, from, v);
      FlatButOne(keys, key, to, v);
      PutTwice(Flat(keys, v), key, from, to);
    } else {
      s := SteadyStore(keys, key, from, t.before);
      HoldsDependsOnReads(Equals(keys), s, Put(s, key, to));
    }
  }

  lemma PutTwice(s: Store, key: string, from: Value, to: Value)
    ensures Put(Put(s, key, from), key, to) == Put(s, key, to)
  {
  }

  lemma SteadyStore(keys: seq<string>, key: string, from: Value, want: bool) returns (s: Store)
    requires key !in keys && (want || exists i :: 0 <= i < |keys| && keys[i] != keys[0])
    ensures Get(s, key) == from && Holds(Equals(keys), s) == want
  {
    s := Put(Flat(keys, None), key, from);
    if !want {
      var i :| 0 <= i < |keys| && keys[i] != keys[0];
      s := Put(s, keys[i], Some(""));
      assert Get(s, keys[i]) != Get(s, keys[0]);
    }
  }

  /** With every other key at v, equality comes down to the one key's value. */
  lemma FlatButOne(keys: seq<string>, key: string, one: Value, v: Value)
    requires key in keys
    ensures Holds(Equals(keys), Put(Flat(keys, v), key, one)) <==>
      one == v || forall i :: 0 <= i < |keys| ==> keys[i] == key
  {
    var s := Put(Flat(keys, v), key, one);
    assert forall i :: 0 <= i < |keys| ==> Get(s, keys[i]) == if keys[i] == key then one else v;
    var j :| 0 <= j < |keys| && keys[j] == key;
    if i :| 0 <= i < |keys| && keys[i] != key {
      assert Get(s, keys[j]) == one && Get(s, keys[i]) == v;
    }
  }

  lemma {:induction false} AllReachableComplete(rules: seq<Rule>, key: string, from: Value, to: Value, t: Turn,
      conj: bool) returns (s: Store)
    requires EachIndependent(rules, key) && AllReachable(rules, key, from, to, t, conj)
    ensures Get(s, key) == from && TurnOf(Whole(rules, conj), s, key, to) == t
    decreases rules
  {
    if rules == [] {
      s := Put(map[], key, from);
    } else {
      var n := |rules| - 1;
      var init, last := rules[..n], rules[n];
      var u, w :|
        && t == Combine(u, w, conj)
        && AllReachable(init, key, from, to, u, conj) && Reachable(last, key, from, to, w);
      InitIndependent(rules, key);
      var s1 := AllReachableComplete(init, key, from, to, u, conj);
      var s2 := ReachableComplete(last, key, from, to, w);
      s := Graft(s1, s2, last);
      GraftTurns(s1, s2, s, Whole(init, conj), last, key, to);
      WholeSplits(rules, s, conj);
      WholeSplits(rules, Put(s, key, to), conj);
    }
  }

  lemma InitIndependent(rules: seq<Rule>, key: string)
    requires EachIndependent(rules, key) && rules != []
    ensures var n := |rules| - 1;
      EachIndependent(rules[..n], key) && Independent(rules[n], key) &&
      forall k, conj :: Reads(Whole(rules[..n], conj), k) && Reads(rules[n], k) ==> k == key
  {
    hide Independent;
    var n := |rules| - 1;
    var init := rules[..n];
    assert forall i :: 0 <= i < n ==> init[i] == rules[i];
    forall k, conj | Reads(Whole(init, conj), k) && Reads(rules[n], k) ensures k == key {
      var i :| 0 <= i < |init| && Reads(init[i], k);
      assert Reads(rules[i], k);
    }
  }

  /** s1, with everything that r reads taken from s2. */
  ghost function Graft(s1: Store, s2: Store, r: Rule): (s: Store)
    ensures forall k :: Get(s, k) == if Reads(r, k) then Get(s2, k) else Get(s1, k)
  {
    map k | k in s1.Keys + s2.Keys && (if Reads(r, k) then k in s2 else k in s1)
      :: if Reads(r, k) then s2[k] else s1[k]
  }

  lemma GraftTurns(s1: Store, s2: Store, s: Store, q: Rule, r: Rule, key: string, to: Value)
    requires forall k :: Get(s, k) == if Reads(r, k) then Get(s2, k) else Get(s1, k)
    requires Get(s1, key) == Get(s2, key) && forall k :: Reads(q, k) && Reads(r, k) ==> k == key
    ensures Get(s, key) == Get(s1, key)
    ensures TurnOf(q, s, key, to) == TurnOf(q, s1, key, to) && TurnOf(r, s, key, to) == TurnOf(r, s2, key, to)
  {
    hide Reads, Holds;
    GraftHolds(s1, s, q, key, to);
    GraftHolds(s2, s, r, key, to);
  }

  lemma GraftHolds(from: Store, s: Store, r: Rule, key: string, to: Value)
    requires forall k :: Reads(r, k) ==> Get(s, k) == Get(from, k)
    ensures TurnOf(r, s, key, to) == TurnOf(r, from, key, to)
  {
    hide Reads, Holds;
    HoldsDependsOnReads(r, s, from);
    HoldsDependsOnReads(r, Put(s, key, to), Put(from, key, to));
  }

  ghost predicate Rises(r: Rule, key: string, from: Value, to: Value, s: Store) {
    Get(s, key) == from && !Holds(r, s) && Holds(r, Put(s, key, to))
  }

  /** Over independent leaves, whether a write can make the rule true is decided by the tree. */
  lemma RiseExact(r: Rule, key: string, from: Value, to: Value)
    requires Independent(r, key)
    ensures (exists s :: Rises(r, key, from, to, s)) <==> Reachable(r, key, from, to, Turn(false, true))
  {
    if Reachable(r, key, from, to, Turn(false, true)) {
      var s := ReachableComplete(r, key, from, to, Turn(false, true));
      assert Rises(r, key, from, to, s);
    }
    if s :| Rises(r, key, from, to, s) { ReachableSound(r, key, to, s); }
  }

  // ---------------------------------------------------------------------------
  // Keys that only literal leaves match

  /** No equality leaf matches the key; trees of literal leaves are definite for every key. */
  ghost predicate Definite(r: Rule, key: string) {
    match r
    case Literal(_, _) => true
    case Equals(_) => !KeyMatch(r, key)
    case And(_) | Or(_) => forall i :: 0 <= i < |r.rules| ==> Definite(r.rules[i], key)
    case Not(rule) => Definite(rule, key)
  }

  lemma {:induction false} DefiniteNeverMaybe(r: Rule, key: string, v: Value)
    requires Definite(r, key)
    ensures QSat(r, key, v) != QMaybe
    decreases r
  {
    match r {
      case And(_) | Or(_) =>
        forall i | 0 <= i < |r.rules| ensures QSat(r.rules[i], key, v) != QMaybe {
          DefiniteNeverMaybe(r.rules[i], key, v);
        }
      case Not(rule) => DefiniteNeverMaybe(rule, key, v);
      case _ =>
    }
  }

  /** The subtrees that mention key, or None. */
  function Prune(r: Rule, key: string): Option<Rule>
    decreases r
  {
    if !KeyMatch(r, key) then None
    else match r
      case And(rules) => Some(And(PruneAll(rules, key)))
      case Or(rules) => Some(Or(PruneAll(rules, key)))
      case Not(rule) => var p := Prune(rule, key); if p.Some? then Some(Not(p.value)) else None
      case _ => Some(r)
  }

  function PruneAll(rules: seq<Rule>, key: string): seq<Rule>
    decreases rules
  {
    if rules == [] then []
    else
      var p := Prune(rules[0], key);
      (if p.Some? then [p.value] else []) + PruneAll(rules[1..], key)
  }

  lemma {:induction false} PruneAllMembers(rules: seq<Rule>, key: string, p: Rule)
    ensures p in PruneAll(rules, key) <==> exists i :: 0 <= i < |rules| && Prune(rules[i], key) == Some(p)
  {
    if rules != [] {
      var rest := rules[1..];
      PruneAllMembers(rest, key, p);
      assert forall i :: 0 <= i < |rest| ==> rest[i] == rules[i + 1];
      if i :| 0 <= i < |rules| && Prune(rules[i], key) == Some(p) && i != 0 {
        assert Prune(rest[i - 1], key) == Some(p);
      }
    }
  }

  lemma {:induction false} PruneMentions(r: Rule, key: string)
    ensures Prune(r, key).Some? <==> KeyMatch(r, key)
    decreases r
  {
    if r.Not? { PruneMentions(r.rule, key); }
  }

  lemma CompoundTruth(rules: seq<Rule>, s: Store)
    ensures Holds(And(rules), s) <==> forall p :: p in rules ==> Holds(p, s)
    ensures Holds(Or(rules), s) <==> exists p :: p in rules && Holds(p, s)
  {
    var all, any := And(rules), Or(rules);
    if Holds(all, s) {
      forall p | p in rules ensures Holds(p, s) {
        var i :| 0 <= i < |rules| && rules[i] == p;
        assert Holds(all.rules[i], s);
      }
    }
    if forall p :: p in rules ==> Holds(p, s) {
      assert forall i :: 0 <= i < |rules| ==> rules[i] in rules && Holds(all.rules[i], s);
    }
    if p :| p in rules && Holds(p, s) {
      var i :| 0 <= i < |rules| && rules[i] == p;
      assert Holds(any.rules[i], s);
    }
  }

  /** Two-valued truth of the pruned tree, as a quad. */
  ghost function TwoValued(r: Rule, key: string, v: Value): Quad {
    match Prune(r, key)
    case None => QNone
    case Some(p) => if Holds(p, Put(map[], key, v)) then QTrue else QFalse
  }

  /**
   * Where only literal leaves match the key, the filter is two-valued evaluation of the pruned
   * tree; it never answers maybe.
   */
  lemma {:induction false} QSatIsPrunedTruth(r: Rule, key: string, v: Value)
    requires Definite(r, key)
    ensures QSat(r, key, v) == TwoValued(r, key, v)
    decreases r
  {
    PruneMentions(r, key);
    QNoneIsUnmatched(r, key, v);
    match r {
      case And(_) | Or(_) => NestedPrunedTruth(r.rules, key, v);
      case Not(rule) =>
        PruneMentions(rule, key);
        QSatIsPrunedTruth(rule, key, v);
      case _ =>
    }
  }

  lemma {:induction false} NestedPrunedTruth(rules: seq<Rule>, key: string, v: Value)
    requires forall i :: 0 <= i < |rules| ==> Definite(rules[i], key)
    ensures !AnyNested(rules, key, v, QMaybe)
    ensures AnyNested(rules, key, v, QFalse) <==> !Holds(And(PruneAll(rules, key)), Put(map[], key, v))
    ensures AnyNested(rules, key, v, QTrue) <==> Holds(Or(PruneAll(rules, key)), Put(map[], key, v))
    decreases rules, 0
  {
    forall i | 0 <= i < |rules| ensures QSat(rules[i], key, v) == TwoValued(rules[i], key, v) {
      QSatIsPrunedTruth(rules[i], key, v);
    }
    hide QSat, Definite, Holds, Prune, PruneAll;
    CompoundTruth(PruneAll(rules, key), Put(map[], key, v));
    AnyPruned(rules, key, v, true);
    AnyPruned(rules, key, v, false);
  }

  /** Some nested rule's pruned tree has this truth value exactly when one of the pruned trees does. */
  lemma AnyPruned(rules: seq<Rule>, key: string, v: Value, want: bool)
    ensures (exists i :: 0 <= i < |rules| && TwoValued(rules[i], key, v) == if want then QTrue else QFalse)
       <==> exists p :: p in PruneAll(rules, key) && Holds(p, Put(map[], key, v)) == want
  {
    hide Holds, Prune, PruneAll;
    var s := Put(map[], key, v);
    if i :| 0 <= i < |rules| && TwoValued(rules[i], key, v) == if want then QTrue else QFalse {
      PruneAllMembers(rules, key, Prune(rules[i], key).value);
    }
    if p :| p in PruneAll(rules, key) && Holds(p, s) == want {
      PruneAllMembers(rules, key, p);
      var i :| 0 <= i < |rules| && Prune(rules[i], key) == Some(p);
      assert TwoValued(rules[i], key, v) == if want then QTrue else QFalse;
    }
  }

  // ---------------------------------------------------------------------------
  // Exactly when the filter loses something

  /** No NOT stands above a compound that has an equality leaf on the key. */
  ghost predicate Direct(r: Rule, key: string) {
    match r
    case And(_) | Or(_) => forall i :: 0 <= i < |r.rules| ==> Direct(r.rules[i], key)
    case Not(rule) => rule.Equals? || Definite(rule, key)
    case _ => true
  }

  /** r with its equality leaves on the key, negated or not, taken to be true. */
  ghost function Granted(r: Rule, key: string): Rule {
    match r
    case Literal(_, _) => r
    case Equals(_) => if KeyMatch(r, key) then Literal(key, (v: Value) => true) else r
    case And(rules) => And(seq(|rules|, i requires 0 <= i < |rules| => Granted(rules[i], key)))
    case Or(rules) => Or(seq(|rules|, i requires 0 <= i < |rules| => Granted(rules[i], key)))
    case Not(rule) => if rule.Equals? && KeyMatch(rule, key) then Literal(key, (v: Value) => true) else r
  }

  ghost predicate PrunedTrue(r: Rule, key: string, v: Value) { TwoValued(r, key, v) == QTrue }

  function Grant(q: Quad): Quad { if q == QMaybe then QTrue else q }

  lemma {:induction false} GrantedPasses(r: Rule, key: string, v: Value)
    requires Direct(r, key)
    ensures Definite(Granted(r, key), key)
    ensures QSat(Granted(r, key), key, v) == Grant(QSat(r, key, v))
    decreases r
  {
    match r {
      case And(_) | Or(_) =>
        var g := Granted(r, key);
        forall i | 0 <= i < |r.rules|
          ensures Definite(g.rules[i], key)
          ensures QSat(g.rules[i], key, v) == Grant(QSat(r.rules[i], key, v))
        {
          GrantedPasses(r.rules[i], key, v);
        }
        GrantedNested(r.rules, g.rules, key, v);
      case Not(rule) => if !rule.Equals? { DefiniteNeverMaybe(rule, key, v); }
      case _ =>
    }
  }

  lemma GrantedNested(rules: seq<Rule>, granted: seq<Rule>, key: string, v: Value)
    requires |granted| == |rules|
    requires forall i :: 0 <= i < |rules| ==>
      QSat(granted[i], key, v) == Grant(QSat(rules[i], key, v))
    ensures AnyNested(granted, key, v, QTrue) <==> AnyNested(rules, key, v, QTrue) || AnyNested(rules, key, v, QMaybe)
    ensures AnyNested(granted, key, v, QFalse) <==> AnyNested(rules, key, v, QFalse)
    ensures !AnyNested(granted, key, v, QMaybe)
  {
    hide QSat;
    if i :| 0 <= i < |rules| && (QSat(rules[i], key, v) == QTrue || QSat(rules[i], key, v) == QMaybe) {
      assert QSat(granted[i], key, v) == QTrue;
    }
    if i :| 0 <= i < |rules| && QSat(rules[i], key, v) == QFalse { assert QSat(granted[i], key, v) == QFalse; }
  }

  /** The filter passes exactly when the granted tree, pruned to the key, is true at the value. */
  lemma PassesIsPrunedTruth(r: Rule, key: string, v: Value)
    requires Direct(r, key)
    ensures Passes(QSat(r, key, v)) <==> PrunedTrue(Granted(r, key), key, v)
  {
    GrantedPasses(r, key, v);
    QSatIsPrunedTruth(Granted(r, key), key, v);
  }

  /**
   * Over independent leaves, a write that makes the rule true is filtered out in some store if and
   * only if it can make the rule true at all and the granted tree, pruned to the key, is not true
   * at the new value. Both conditions are read off the tree.
   */
  lemma MissedFlipExact(r: Rule, key: string, from: Value, to: Value)
    requires Independent(r, key) && Direct(r, key)
    ensures (exists s :: Rises(r, key, from, to, s) && !Passes(QSat(r, key, to)))
       <==> Reachable(r, key, from, to, Turn(false, true)) && !PrunedTrue(Granted(r, key), key, to)
  {
    RiseExact(r, key, from, to);
    PassesIsPrunedTruth(r, key, to);
  }

  /**
   * The same for evaluation instead of writes: the filter drops no true evaluation at a value if
   * and only if the pruned tree is true there whenever the rule can be.
   */
  lemma FilterExact(r: Rule, key: string, v: Value)
    requires Independent(r, key) && Direct(r, key)
    ensures (forall s :: Get(s, key) == v && Holds(r, s) ==> Passes(QSat(r, key, v)))
       <==> (Reachable(r, key, v, v, Turn(true, true)) ==> PrunedTrue(Granted(r, key), key, v))
  {
    PassesIsPrunedTruth(r, key, v);
    if Reachable(r, key, v, v, Turn(true, true)) {
      var s := ReachableComplete(r, key, v, v, Turn(true, true));
      assert Get(s, key) == v && Holds(r, s);
    }
    forall s | Get(s, key) == v && Holds(r, s) ensures Reachable(r, key, v, v, Turn(true, true)) {
      ReachableSound(r, key, v, s);
      assert Put(s, key, v) == s;
    }
  }

  // ---------------------------------------------------------------------------
  // De Morgan

  /** r (or its negation), with NOT pushed down to the leaves. */
  function PushNot(r: Rule, negated: bool): Rule {
    match r
    case And(rules) =>
      var nested := seq(|rules|, i requires 0 <= i < |rules| => PushNot(rules[i], negated));
      if negated then Or(nested) else And(nested)
    case Or(rules) =>
      var nested := seq(|rules|, i requires 0 <= i < |rules| => PushNot(rules[i], negated));
      if negated then And(nested) else Or(nested)
    case Not(rule) => PushNot(rule, !negated)
    case _ => if negated then Not(r) else r
  }

  /** De Morgan preserves the truth of every tree. */
  lemma {:induction false} PushNotTruth(r: Rule, negated: bool, s: Store)
    ensures Holds(PushNot(r, negated), s) == (Holds(r, s) != negated)
    decreases r
  {
    match r {
      case And(_) | Or(_) =>
        var p := PushNot(r, negated);
        forall i | 0 <= i < |r.rules| ensures Holds(p.rules[i], s) == (Holds(r.rules[i], s) != negated) {
          PushNotTruth(r.rules[i], negated, s);
        }
        NestedTruth(r, p, negated, s);
      case Not(rule) => PushNotTruth(rule, !negated, s);
      case _ =>
    }
  }

  lemma NestedTruth(r: Rule, p: Rule, negated: bool, s: Store)
    requires (r.And? || r.Or?) && (p.And? || p.Or?) && p.And? == (r.And? != negated) && |p.rules| == |r.rules|
    requires forall i :: 0 <= i < |r.rules| ==> Holds(p.rules[i], s) == (Holds(r.rules[i], s) != negated)
    ensures Holds(p, s) == (Holds(r, s) != negated)
  {
  }

  /** A quad, negated or not. */
  function Signed(q: Quad, negated: bool): Quad { if negated then Negate(q) else q }

  /** De Morgan preserves the filter's answer where no equality leaf is on the key. */
  lemma {:induction false} PushNotQuad(r: Rule, negated: bool, key: string, v: Value)
    requires Definite(r, key)
    ensures QSat(PushNot(r, negated), key, v) == Signed(QSat(r, key, v), negated)
    decreases r
  {
    match r {
      case And(_) | Or(_) =>
        var p := PushNot(r, negated);
        forall i | 0 <= i < |r.rules|
          ensures QSat(p.rules[i], key, v) == Signed(QSat(r.rules[i], key, v), negated)
          ensures QSat(r.rules[i], key, v) != QMaybe
        {
          PushNotQuad(r.rules[i], negated, key, v);
          DefiniteNeverMaybe(r.rules[i], key, v);
        }
        NestedQuads(r.rules, p.rules, negated, key, v);
      case Not(rule) => PushNotQuad(rule, !negated, key, v);
      case _ =>
    }
  }

  lemma NestedQuads(rules: seq<Rule>, nested: seq<Rule>, negated: bool, key: string, v: Value)
    requires |nested| == |rules|
    requires forall i :: 0 <= i < |rules| ==>
      QSat(nested[i], key, v) == Signed(QSat(rules[i], key, v), negated) && QSat(rules[i], key, v) != QMaybe
    ensures AnyNested(nested, key, v, QTrue) <==> AnyNested(rules, key, v, Signed(QTrue, negated))
    ensures AnyNested(nested, key, v, QFalse) <==> AnyNested(rules, key, v, Signed(QFalse, negated))
    ensures !AnyNested(nested, key, v, QMaybe) && !AnyNested(rules, key, v, QMaybe)
  {
    hide QSat;
    forall q ensures AnyNested(nested, key, v, q) <==> AnyNested(rules, key, v, Signed(q, negated)) {
      if i :| 0 <= i < |rules| && QSat(rules[i], key, v) == Signed(q, negated) { assert QSat(nested[i], key, v) == q; }
    }
  }

  lemma PushNotPreserves(r: Rule, negated: bool, key: string, v: Value, s: Store)
    ensures Holds(PushNot(r, negated), s) == (Holds(r, s) != negated)
    ensures Definite(r, key) ==> QSat(PushNot(r, negated), key, v) == Signed(QSat(r, key, v), negated)
    ensures Definite(r, key) ==> QSat(r, key, v) != QMaybe
  {
    PushNotTruth(r, negated, s);
    if Definite(r, key) {
      PushNotQuad(r, negated, key, v);
      DefiniteNeverMaybe(r, key, v);
    }
  }

  ghost function Negated(rules: seq<Rule>): seq<Rule> {
    seq(|rules|, i requires 0 <= i < |rules| => Not(rules[i]))
  }

  /**
   * For arbitrary nested rules, one De Morgan step changes the filter's answer in exactly two
   * situations, both mixing a definite answer with a maybe.
   */
  lemma DeMorganExact(rules: seq<Rule>, key: string, v: Value)
    ensures QSat(Not(And(rules)), key, v) == QSat(Or(Negated(rules)), key, v)
       <==> (AnyNested(rules, key, v, QFalse) || !AnyNested(rules, key, v, QTrue) || !AnyNested(rules, key, v, QMaybe))
    ensures QSat(Not(Or(rules)), key, v) == QSat(And(Negated(rules)), key, v)
       <==> (AnyNested(rules, key, v, QTrue) || !AnyNested(rules, key, v, QMaybe) || !AnyNested(rules, key, v, QFalse))
  {
    var negated := Negated(rules);
    forall q ensures AnyNested(negated, key, v, q) <==> AnyNested(rules, key, v, Negate(q)) {
      assert forall i :: 0 <= i < |rules| ==> QSat(negated[i], key, v) == Negate(QSat(rules[i], key, v));
      if i :| 0 <= i < |rules| && QSat(rules[i], key, v) == Negate(q) {
        assert QSat(negated[i], key, v) == q;
      }
    }
    assert AnyNested(negated, key, v, QTrue) <==> AnyNested(rules, key, v, QFalse);
    assert AnyNested(negated, key, v, QFalse) <==> AnyNested(rules, key, v, QTrue);
    assert AnyNested(negated, key, v, QMaybe) <==> AnyNested(rules, key, v, QMaybe);
  }
}
