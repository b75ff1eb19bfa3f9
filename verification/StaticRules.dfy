/**
 * Static rules (rules/static_rule.go): rule trees over concrete keys, their truth in a
 * store, the keys they read, and the two filters that decide whether a written key is
 * worth evaluating the rule for.
 */
module StaticRules {
  import opened Base

  /** The contents of etcd at one revision. */
  type Store = map<string, string>

  /** A nil pointer (no such key) is None. */
  type Value = Option<string>

  /** `readAPI.get`: either a value or a failed read. */
  type ReadAPI = string -> Result<Value>

  datatype Rule =
    | Literal(key: string, cmp: Value -> bool)
    | Equals(keys: seq<string>)
    | And(rules: seq<Rule>)
    | Or(rules: seq<Rule>)
    | Not(rule: Rule)

  datatype Quad = QTrue | QFalse | QMaybe | QNone

  function Get(s: Store, key: string): Value {
    if key in s then Some(s[key]) else None
  }

  /** The store after key is written (Some) or deleted (None). */
  function Put(s: Store, key: string, v: Value): Store {
    if v.Some? then s[key := v.value] else s - {key}
  }

  // ---------------------------------------------------------------------------
  // Truth

  predicate Holds(r: Rule, s: Store) {
    match r
    case Literal(key, cmp) => cmp(Get(s, key))
    case Equals(keys) => forall i :: 0 <= i < |keys| ==> Get(s, keys[i]) == Get(s, keys[0])
    case And(rules) => forall i :: 0 <= i < |rules| ==> Holds(rules[i], s)
    case Or(rules) => exists i :: 0 <= i < |rules| && Holds(rules[i], s)
    case Not(rule) => !Holds(rule, s)
  }

  /** s holds what the api returns for every key that can be read. */
  ghost predicate Reflects(api: ReadAPI, s: Store) {
    forall key :: api(key).Ok? ==> api(key).value == Get(s, key)
  }

  /** Some key that r reads cannot be read through api. */
  ghost predicate CanFail(r: Rule, api: ReadAPI) {
    exists key :: Reads(r, key) && api(key).Err?
  }

  /** Left-to-right evaluation through an api that may fail. */
  function Eval(r: Rule, api: ReadAPI): Result<bool>
    decreases r
  {
    match r
    case Literal(key, cmp) => if api(key).Err? then Err else Ok(cmp(api(key).value))
    case Equals(keys) =>
      if keys == [] then Ok(true) else if api(keys[0]).Err? then Err else EvalSame(keys[1..], api, api(keys[0]).value)
    case And(rules) => EvalUntil(rules, api, false)
    case Or(rules) => EvalUntil(rules, api, true)
    case Not(rule) => if Eval(rule, api).Err? then Err else Ok(!Eval(rule, api).value)
  }

  /** The rules in turn, until one fails or has the truth value that settles the matter. */
  function EvalUntil(rules: seq<Rule>, api: ReadAPI, settles: bool): Result<bool>
    decreases rules
  {
    if rules == [] then Ok(!settles)
    else if Eval(rules[0], api) == Ok(!settles) then EvalUntil(rules[1..], api, settles)
    else Eval(rules[0], api)
  }

  function EvalSame(keys: seq<string>, api: ReadAPI, v: Value): Result<bool> {
    if keys == [] then Ok(true)
    else if api(keys[0]).Err? then Err
    else if api(keys[0]).value != v then Ok(false)
    else EvalSame(keys[1..], api, v)
  }

  /**
   * Short circuits, errors included: the first nested rule that does not have the other truth value
   * decides, whether it fails or not, and what stands behind it is not read.
   */
  lemma {:induction false} FirstDecides(rules: seq<Rule>, api: ReadAPI, settles: bool, j: nat)
    requires j <= |rules| && forall i :: 0 <= i < j ==> Eval(rules[i], api) == Ok(!settles)
    requires j < |rules| ==> Eval(rules[j], api) != Ok(!settles)
    ensures var r := if settles then Or(rules) else And(rules);
      Eval(r, api) == if j < |rules| then Eval(rules[j], api) else Ok(!settles)
    decreases j
  {
    if j > 0 { FirstDecides(rules[1..], api, settles, j - 1); }
  }

  /** The first key that cannot be read, or differs from the first value, decides an equality rule. */
  lemma {:induction false} FirstKeyDecides(keys: seq<string>, api: ReadAPI, v: Value, j: nat)
    requires j < |keys| && (forall i :: 0 <= i < j ==> api(keys[i]) == Ok(v)) && api(keys[j]) != Ok(v)
    ensures EvalSame(keys, api, v) == if api(keys[j]).Err? then Err else Ok(false)
    decreases j
  {
    if j > 0 { FirstKeyDecides(keys[1..], api, v, j - 1); }
  }

  /**
   * `satisfied`, with its left-to-right short circuits and its early error returns. A verdict
   * is the truth of the rule in every store consistent with what could be read, even when
   * other reads would have failed; an error means that a key of the rule is unreadable.
   */
  method Satisfied(r: Rule, api: ReadAPI) returns (res: Result<bool>)
    ensures res == Eval(r, api)
    ensures res.Ok? ==> forall s :: Reflects(api, s) ==> res.value == Holds(r, s)
    ensures res.Err? ==> CanFail(r, api)
    decreases r
  {
    match r {
      case Literal(key, cmp) =>
        var v := api(key);
        if v.Err? {
          res := Err;
        } else {
          res := Ok(cmp(v.value));
        }
      case Equals(keys) =>
        res := SatisfiedEquals(keys, api);
      case And(rules) =>
        res := SatisfiedUntil(rules, api, false);
      case Or(rules) =>
        res := SatisfiedUntil(rules, api, true);
      case Not(rule) =>
        var nested := Satisfied(rule, api);
        if nested.Err? {
          res := Err;
        } else {
          res := Ok(!nested.value);
        }
    }
    VerdictIsTruth(r, api);
  }

  /** The loops of the AND and OR rules: until a nested rule is false, or true. */
  method SatisfiedUntil(rules: seq<Rule>, api: ReadAPI, settles: bool) returns (res: Result<bool>)
    ensures res == EvalUntil(rules, api, settles)
    decreases rules
  {
    for j := 0 to |rules|
      invariant EvalUntil(rules, api, settles) == EvalUntil(rules[j..], api, settles)
    {
      var nested := Satisfied(rules[j], api);
      assert rules[j..][1..] == rules[j + 1..];
      if nested.Err? { return Err; }
      if nested.value == settles { return Ok(settles); }
    }
    return Ok(!settles);
  }

  /** The loop of `equalsRule.satisfied`, comparing every value with the first one. */
  method SatisfiedEquals(keys: seq<string>, api: ReadAPI) returns (res: Result<bool>)
    ensures res == Eval(Equals(keys), api)
    ensures res.Ok? ==> forall s :: Reflects(api, s) ==> res.value == Holds(Equals(keys), s)
    ensures res.Err? ==> CanFail(Equals(keys), api)
  {
    VerdictIsTruth(Equals(keys), api);
    if |keys| == 0 { return Ok(true); }
    var ref := api(keys[0]);
    if ref.Err? { return Err; }
    for j := 1 to |keys|
      invariant Eval(Equals(keys), api) == EvalSame(keys[j..], api, ref.value)
    {
      var v := api(keys[j]);
      assert keys[j..][1..] == keys[j + 1..];
      if v.Err? { return Err; }
      if v.value != ref.value { return Ok(false); }
    }
    return Ok(true);
  }

  /** A verdict is the truth in every store that the readable keys describe; an error has a cause. */
  lemma {:induction false} VerdictIsTruth(r: Rule, api: ReadAPI)
    ensures Eval(r, api).Ok? ==> forall s :: Reflects(api, s) ==> Eval(r, api).value == Holds(r, s)
    ensures Eval(r, api).Err? ==> CanFail(r, api)
    decreases r
  {
    match r {
      case Literal(key, _) => assert Reads(r, key);
      case Equals(keys) => EqualsVerdict(keys, api);
      case And(rules) => UntilVerdict(r, rules, api, false);
      case Or(rules) => UntilVerdict(r, rules, api, true);
      case Not(rule) =>
        VerdictIsTruth(rule, api);
        if Eval(rule, api).Err? {
          var key :| Reads(rule, key) && api(key).Err?;
          assert Reads(r, key);
        }
    }
  }

  lemma {:induction false} UntilVerdict(r: Rule, rules: seq<Rule>, api: ReadAPI, settles: bool)
    requires r == if settles then Or(rules) else And(rules)
    ensures Eval(r, api).Ok? ==> forall s :: Reflects(api, s) ==> Eval(r, api).value == Holds(r, s)
    ensures Eval(r, api).Err? ==> CanFail(r, api)
    decreases rules, 0
  {
    var j := Decider(rules, api, settles);
    FirstDecides(rules, api, settles, j);
    forall i | 0 <= i < |rules| && i <= j
      ensures Eval(rules[i], api).Ok? ==>
        forall s :: Reflects(api, s) ==> Eval(rules[i], api).value == Holds(rules[i], s)
      ensures Eval(rules[i], api).Err? ==> CanFail(rules[i], api)
    {
      VerdictIsTruth(rules[i], api);
    }
    if j < |rules| && Eval(rules[j], api).Err? {
      var key :| Reads(rules[j], key) && api(key).Err?;
      assert Reads(r, key);
    }
    hide Eval, Reflects;
    if Eval(r, api).Ok? {
      forall s | Reflects(api, s) ensures Eval(r, api).value == Holds(r, s) {
        assert forall i :: 0 <= i < j ==> Holds(rules[i], s) == !settles;
        assert j < |rules| ==> Holds(rules[j], s) == settles;
      }
    }
  }

  /** The place of the rule that decides, or the end. */
  lemma {:induction false} Decider(rules: seq<Rule>, api: ReadAPI, settles: bool) returns (j: nat)
    ensures j <= |rules| && forall i :: 0 <= i < j ==> Eval(rules[i], api) == Ok(!settles)
    ensures j < |rules| ==> Eval(rules[j], api) != Ok(!settles)
  {
    j := 0;
    if rules != [] && Eval(rules[0], api) == Ok(!settles) {
      j := Decider(rules[1..], api, settles);
      j := j + 1;
    }
  }

  lemma EqualsVerdict(keys: seq<string>, api: ReadAPI)
    ensures var r := Equals(keys);
      && (Eval(r, api).Ok? ==> forall s :: Reflects(api, s) ==> Eval(r, api).value == Holds(r, s))
      && (Eval(r, api).Err? ==> CanFail(r, api))
  {
    var r := Equals(keys);
    if keys != [] {
      assert Reads(r, keys[0]);
      if api(keys[0]).Ok? { SameVerdict(r, keys, api, 1); }
    }
  }

  lemma {:induction false} SameVerdict(r: Rule, keys: seq<string>, api: ReadAPI, j: nat)
    requires r == Equals(keys) && 0 < j <= |keys| && api(keys[0]).Ok?
    requires forall i :: 0 <= i < j ==> api(keys[i]) == api(keys[0])
    ensures var res := EvalSame(keys[j..], api, api(keys[0]).value);
      && (res.Ok? ==> forall s :: Reflects(api, s) ==> res.value == Holds(r, s))
      && (res.Err? ==> CanFail(r, api))
    decreases |keys| - j
  {
    if j < |keys| {
      assert Reads(r, keys[j]) && keys[j..][1..] == keys[j + 1..];
      if api(keys[j]) == api(keys[0]) {
        SameVerdict(r, keys, api, j + 1);
      }
    }
  }

  // ---------------------------------------------------------------------------
  // Keys

  predicate Reads(r: Rule, key: string) {
    match r
    case Literal(k, _) => k == key
    case Equals(keys) => key in keys
    case And(_) | Or(_) => exists i :: 0 <= i < |r.rules| && Reads(r.rules[i], key)
    case Not(rule) => Reads(rule, key)
  }

  function Keys(r: Rule): seq<string>
    decreases r
  {
    match r
    case Literal(k, _) => [k]
    case Equals(keys) => keys
    case And(_) | Or(_) => AllKeys(r.rules)
    case Not(rule) => Keys(rule)
  }

  function AllKeys(rules: seq<Rule>): seq<string>
    decreases rules
  {
    if rules == [] then [] else AllKeys(rules[..|rules| - 1]) + Keys(rules[|rules| - 1])
  }

  /** `getKeys` collects exactly the keys that evaluation may read. */
  lemma {:induction false} KeysAreReads(r: Rule, key: string)
    ensures key in Keys(r) <==> Reads(r, key)
    decreases r
  {
    match r {
      case And(_) | Or(_) => AllKeysAreReads(r.rules, key);
      case Not(rule) => KeysAreReads(rule, key);
      case _ =>
    }
  }

  lemma {:induction false} AllKeysAreReads(rules: seq<Rule>, key: string)
    ensures key in AllKeys(rules) <==> exists i :: 0 <= i < |rules| && Reads(rules[i], key)
    decreases rules
  {
    if rules != [] {
      var n := |rules| - 1;
      AllKeysAreReads(rules[..n], key);
      KeysAreReads(rules[n], key);
      assert forall i :: 0 <= i < n ==> rules[..n][i] == rules[i];
    }
  }

  method GetKeys(r: Rule) returns (keys: seq<string>)
    ensures keys == Keys(r)
    ensures forall key :: key in keys <==> Reads(r, key)
    decreases r
  {
    keys := [];
    match r {
      case Literal(k, _) => keys := [k];
      case Equals(ks) => keys := ks;
      case And(_) | Or(_) => keys := GetAllKeys(r.rules);
      case Not(rule) => keys := GetKeys(rule);
    }
    forall key ensures key in keys <==> Reads(r, key) { KeysAreReads(r, key); }
  }

  method GetAllKeys(rules: seq<Rule>) returns (keys: seq<string>)
    ensures keys == AllKeys(rules)
    decreases rules
  {
    keys := [];
    for j := 0 to |rules|
      invariant keys == AllKeys(rules[..j])
    {
      var nested := GetKeys(rules[j]);
      keys := keys + nested;
      assert rules[..j + 1][..j] == rules[..j];
    }
    assert rules[..|rules|] == rules;
  }

  /** Evaluation depends on nothing but the keys `getKeys` returns. */
  lemma {:induction false} HoldsDependsOnReads(r: Rule, s: Store, t: Store)
    requires forall key :: Reads(r, key) ==> Get(s, key) == Get(t, key)
    ensures Holds(r, s) == Holds(r, t)
    decreases r
  {
    match r {
      case Literal(k, _) => assert Reads(r, k);
      case Equals(keys) => assert forall i :: 0 <= i < |keys| ==> Reads(r, keys[i]);
      case And(_) | Or(_) =>
        forall i | 0 <= i < |r.rules| ensures Holds(r.rules[i], s) == Holds(r.rules[i], t) {
          assert forall key :: Reads(r.rules[i], key) ==> Reads(r, key);
          HoldsDependsOnReads(r.rules[i], s, t);
        }
      case Not(rule) =>
        assert forall key :: Reads(rule, key) ==> Reads(r, key);
        HoldsDependsOnReads(rule, s, t);
    }
  }

  // ---------------------------------------------------------------------------
  // The plain filter

  predicate KeyMatch(r: Rule, key: string) {
    match r
    case Literal(k, _) => k == key
    case Equals(keys) => |keys| == 0 || key in keys
    case And(_) | Or(_) => exists i :: 0 <= i < |r.rules| && KeyMatch(r.rules[i], key)
    case Not(rule) => KeyMatch(rule, key)
  }

  predicate Satisfiable(r: Rule, key: string) {
    match r
    case Literal(k, _) => key == k
    case Equals(_) => KeyMatch(r, key)
    case And(_) | Or(_) => exists i :: 0 <= i < |r.rules| && Satisfiable(r.rules[i], key)
    case Not(rule) => KeyMatch(rule, key)
  }

  /** The plain filter never looks at the value: it is key membership. */
  lemma {:induction false} SatisfiableIsKeyMatch(r: Rule, key: string)
    ensures Satisfiable(r, key) <==> KeyMatch(r, key)
    decreases r
  {
    match r {
      case And(_) | Or(_) =>
        forall i | 0 <= i < |r.rules| ensures Satisfiable(r.rules[i], key) <==> KeyMatch(r.rules[i], key) {
          SatisfiableIsKeyMatch(r.rules[i], key);
        }
      case _ =>
    }
  }

  /** Some leaf is an equality rule without keys. */
  predicate HasEmptyEquality(r: Rule) {
    match r
    case Literal(_, _) => false
    case Equals(keys) => keys == []
    case And(_) | Or(_) => exists i :: 0 <= i < |r.rules| && HasEmptyEquality(r.rules[i])
    case Not(rule) => HasEmptyEquality(rule)
  }

  /** A key is matched exactly if the rule reads it, or has an equality leaf without keys, which matches all. */
  lemma {:induction false} MatchExact(r: Rule, key: string)
    ensures KeyMatch(r, key) <==> Reads(r, key) || HasEmptyEquality(r)
    decreases r
  {
    match r {
      case And(_) | Or(_) =>
        forall i | 0 <= i < |r.rules|
          ensures KeyMatch(r.rules[i], key) <==> Reads(r.rules[i], key) || HasEmptyEquality(r.rules[i])
        {
          MatchExact(r.rules[i], key);
        }
      case Not(rule) => MatchExact(rule, key);
      case _ =>
    }
  }

  // ---------------------------------------------------------------------------
  // The quad-state filter

  predicate AnyNested(rules: seq<Rule>, key: string, v: Value, q: Quad)
    decreases rules, 1
  {
    exists i :: 0 <= i < |rules| && QSat(rules[i], key, v) == q
  }

  function QSat(r: Rule, key: string, v: Value): Quad
    decreases r
  {
    match r
    case Literal(k, cmp) => if key != k then QNone else if cmp(v) then QTrue else QFalse
    case Equals(_) => if KeyMatch(r, key) then QMaybe else QNone
    case And(rules) =>
      if AnyNested(rules, key, v, QFalse) then QFalse
      else if AnyNested(rules, key, v, QTrue) then QTrue
      else if AnyNested(rules, key, v, QMaybe) then QMaybe
      else QNone
    case Or(rules) =>
      if AnyNested(rules, key, v, QTrue) then QTrue
      else if AnyNested(rules, key, v, QMaybe) then QMaybe
      else if AnyNested(rules, key, v, QFalse) then QFalse
      else QNone
    case Not(rule) => Negate(QSat(rule, key, v))
  }

  function Negate(q: Quad): Quad {
    match q
    case QTrue => QFalse
    case QFalse => QTrue
    case QMaybe => QMaybe
    case QNone => QNone
  }

  /** `qSatisfiable` with the flag loops of the AND and OR rules. */
  method QSatisfiable(r: Rule, key: string, v: Value) returns (q: Quad)
    ensures q == QSat(r, key, v)
    decreases r
  {
    match r {
      case Literal(k, cmp) =>
        if key != k { return QNone; }
        if cmp(v) { return QTrue; }
        return QFalse;
      case Equals(_) =>
        if KeyMatch(r, key) { return QMaybe; }
        return QNone;
      case And(rules) =>
        var anyTrue, anyMaybe, anyFalse := QFlags(rules, key, v);
        if anyFalse { return QFalse; }
        if anyTrue { return QTrue; }
        if anyMaybe { return QMaybe; }
        return QNone;
      case Or(rules) =>
        var anyTrue, anyMaybe, anyFalse := QFlags(rules, key, v);
        if anyTrue { return QTrue; }
        if anyMaybe { return QMaybe; }
        if anyFalse { return QFalse; }
        return QNone;
      case Not(rule) =>
        var nested := QSatisfiable(rule, key, v);
        return Negate(nested);
    }
  }

  method QFlags(rules: seq<Rule>, key: string, v: Value) returns (anyTrue: bool, anyMaybe: bool, anyFalse: bool)
    ensures anyTrue == AnyNested(rules, key, v, QTrue)
    ensures anyMaybe == AnyNested(rules, key, v, QMaybe)
    ensures anyFalse == AnyNested(rules, key, v, QFalse)
    decreases rules
  {
    anyTrue, anyMaybe, anyFalse := false, false, false;
    for j := 0 to |rules|
      invariant anyTrue == exists i :: 0 <= i < j && QSat(rules[i], key, v) == QTrue
      invariant anyMaybe == exists i :: 0 <= i < j && QSat(rules[i], key, v) == QMaybe
      invariant anyFalse == exists i :: 0 <= i < j && QSat(rules[i], key, v) == QFalse
    {
      var nqs := QSatisfiable(rules[j], key, v);
      match nqs {
        case QTrue => anyTrue := true;
        case QFalse => anyFalse := true;
        case QMaybe => anyMaybe := true;
        case QNone =>
      }
    }
  }
}
