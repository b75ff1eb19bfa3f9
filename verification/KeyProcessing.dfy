/**
 * Evaluating keys (rules/key_processor.go, rules/int_crawler.go, rules/etcd.go): the batched
 * deduplicated read, the crawler's snapshot, and the verdicts and work items they lead to.
 */
module KeyProcessing {
  import opened Base
  import opened Paths
  import opened Prefixes
  import opened DynamicRules
  import opened RuleManager
  import S = StaticRules
  import Q = QuadState

  // ---------------------------------------------------------------------------
  // Reads

  ghost function Restricted(s: S.Store, keys: set<string>): S.Store {
    map k | k in s && k in keys :: s[k]
  }

  /** What a cached reader answers; a map lookup cannot fail. */
  function CacheReader(values: S.Store): S.ReadAPI {
    (key: string) => Ok(S.Get(values, key))
  }

  /** `getCachedAPI`: one transaction, at one revision, over the distinct keys. */
  method GetCachedAPI(keys: seq<string>, txn: Result<S.Store>) returns (values: Result<S.Store>)
    ensures values.Err? <==> txn.Err?
    ensures txn.Ok? ==> values.value == Restricted(txn.value, set k | k in keys)
  {
    var uniqueKeys := {};
    for j := 0 to |keys|
      invariant uniqueKeys == set k | k in keys[..j]
    {
      uniqueKeys := uniqueKeys + {keys[j]};
      assert keys[..j + 1] == keys[..j] + [keys[j]];
    }
    assert keys[..|keys|] == keys;
    if txn.Err? { return Err; }
    var store, out, todo := txn.value, map[], uniqueKeys;
    while todo != {}
      invariant todo <= uniqueKeys
      invariant out == Restricted(store, uniqueKeys - todo)
      decreases todo
    {
      var key :| key in todo;
      if key in store { out := out[key := store[key]]; }
      todo := todo - {key};
    }
    assert uniqueKeys - todo == uniqueKeys;
    values := Ok(out);
  }

  /** Evaluating on a cache gives the truth in the cached values. */
  method SatisfiedOnCache(r: S.Rule, values: S.Store) returns (sat: bool)
    ensures sat == S.Holds(r, values)
  {
    var api := CacheReader(values);
    var res := S.Satisfied(r, api);
    assert S.Reflects(api, values);
    sat := res.Ok? && res.value;
  }

  // ---------------------------------------------------------------------------
  // Verdicts

  /** Some rule in scope for the key holds in the store. */
  ghost predicate Work(entries: map<nat, Entry>, key: string, v: S.Value, enhanced: bool, s: S.Store) {
    exists id :: id in Scan(entries, key, v, enhanced) && S.Holds(Scan(entries, key, v, enhanced)[id].inst.rule, s)
  }

  /** A work item: the rule's index, its instance and the key its worker must lock. */
  datatype WorkItem = WorkItem(index: nat, rule: S.Rule, attrs: Attrs, lockKey: string)

  /** The hits that are true in the store and have a lock pattern. */
  ghost function Due(hits: map<nat, Hit>, patterns: map<nat, string>, s: S.Store): set<nat> {
    set id | id in hits && S.Holds(hits[id].inst.rule, s) && hits[id].index in patterns
  }

  function ItemFor(hit: Hit, patterns: map<nat, string>): WorkItem
    requires hit.index in patterns
  {
    WorkItem(hit.index, hit.inst.rule, hit.inst.attrs, Format(patterns[hit.index], hit.inst.attrs))
  }

  ghost predicate ItemsInOrder(items: seq<WorkItem>, order: seq<nat>, hits: map<nat, Hit>, patterns: map<nat, string>) {
    && |items| == |order|
    && forall i :: 0 <= i < |order| ==>
         && order[i] in hits && hits[order[i]].index in patterns
         && items[i] == ItemFor(hits[order[i]], patterns)
  }

  ghost predicate ListsOnce(order: seq<nat>, ids: set<nat>) {
    && (forall id :: id in ids <==> id in order)
    && forall i, j :: 0 <= i < |order| && 0 <= j < |order| && order[i] == order[j] ==> i == j
  }

  class KeyProcessor {
    const rm: Manager
    var lockKeyPatterns: map<nat, string>
    var channel: seq<WorkItem>

    constructor (rm: Manager)
      ensures this.rm == rm && lockKeyPatterns == map[] && channel == []
    {
      this.rm := rm;
      lockKeyPatterns, channel := map[], [];
    }

    method SetLockKeyPattern(index: nat, pattern: string)
      modifies this`lockKeyPatterns
      ensures lockKeyPatterns == old(lockKeyPatterns)[index := pattern]
    {
      lockKeyPatterns := lockKeyPatterns[index := pattern];
    }

    /**
     * `processKey`: one work item for exactly the rules in scope that are true in the one
     * revision that was read, each once, in some order; nothing if the read fails.
     */
    method ProcessKey(key: string, v: S.Value, txn: Result<S.Store>) returns (ghost order: seq<nat>)
      requires rm.Valid()
      modifies this`channel
      ensures txn.Err? ==> channel == old(channel) && order == []
      ensures var hits := Scan(Bucket(rm.rules, Slashes(key)), key, v, rm.enhanced);
        && |channel| >= |old(channel)| && channel[..|old(channel)|] == old(channel)
        && ItemsInOrder(channel[|old(channel)|..], order, hits, lockKeyPatterns)
        && (txn.Ok? ==> ListsOnce(order, Due(hits, lockKeyPatterns, txn.value)))
    {
      order := [];
      var hits := rm.GetStaticRules(key, v);
      var keys := CollectKeys(hits);
      var values := GetCachedAPI(keys, txn);
      if values.Err? { return; }
      var items;
      items, order := EvaluateHits(hits, values.value, lockKeyPatterns);
      channel := channel + items;
      SameDue(hits, lockKeyPatterns, values.value, txn.value, keys);
    }

    /** `isWork`: the first rule in scope that holds on the cache settles it. */
    method IsWork(key: string, v: S.Value, values: S.Store) returns (work: bool)
      requires rm.Valid()
      ensures work == Work(Bucket(rm.rules, Slashes(key)), key, v, rm.enhanced, values)
    {
      hide Bucket, Scan, InScope, S.Holds, Manager.Valid;
      var hits := rm.GetStaticRules(key, v);
      var todo := hits.Keys;
      while todo != {}
        invariant todo <= hits.Keys
        invariant forall id :: id in hits && id !in todo ==> !S.Holds(hits[id].inst.rule, values)
        decreases todo
      {
        var id :| id in todo;
        var sat := SatisfiedOnCache(hits[id].inst.rule, values);
        if sat { return true; }
        todo := todo - {id};
      }
      work := false;
    }
  }

  method CollectKeys(hits: map<nat, Hit>) returns (keys: seq<string>)
    ensures forall k :: k in keys <==> ReadBySome(hits, hits.Keys, k)
  {
    keys := [];
    var todo := hits.Keys;
    while todo != {}
      invariant todo <= hits.Keys
      invariant forall k :: k in keys <==> ReadBySome(hits, hits.Keys - todo, k)
      decreases todo
    {
      hide S.Reads;
      var id :| id in todo;
      var more := S.GetKeys(hits[id].inst.rule);
      keys := keys + more;
      assert hits.Keys - (todo - {id}) == hits.Keys - todo + {id};
      todo := todo - {id};
    }
    assert hits.Keys - {} == hits.Keys;
  }

  /** One of these rules reads the key. */
  ghost predicate ReadBySome(hits: map<nat, Hit>, ids: set<nat>, key: string) {
    exists id :: id in ids && id in hits && S.Reads(hits[id].inst.rule, key)
  }

  method EvaluateHits(hits: map<nat, Hit>, values: S.Store, patterns: map<nat, string>)
    returns (items: seq<WorkItem>, ghost order: seq<nat>)
    ensures ItemsInOrder(items, order, hits, patterns)
    ensures ListsOnce(order, Due(hits, patterns, values))
  {
    items, order := [], [];
    var todo := hits.Keys;
    while todo != {}
      invariant todo <= hits.Keys
      invariant ItemsInOrder(items, order, hits, patterns)
      invariant ListsOnce(order, Due(hits, patterns, values) - todo)
      decreases todo
    {
      hide S.Holds, ItemsInOrder, ListsOnce;
      var id :| id in todo;
      var hit := hits[id];
      var sat := SatisfiedOnCache(hit.inst.rule, values);
      DueStep(order, hits, patterns, values, todo, id);
      if sat && hit.index in patterns {
        ItemsStep(items, order, hits, patterns, id);
        items, order := items + [ItemFor(hit, patterns)], order + [id];
      }
      todo := todo - {id};
    }
  }

  lemma ItemsStep(items: seq<WorkItem>, order: seq<nat>, hits: map<nat, Hit>, patterns: map<nat, string>, id: nat)
    requires ItemsInOrder(items, order, hits, patterns) && id in hits && hits[id].index in patterns
    ensures ItemsInOrder(items + [ItemFor(hits[id], patterns)], order + [id], hits, patterns)
  {
    hide ItemFor;
  }

  /** One more hit evaluated: it joins the list exactly if it is due. */
  lemma DueStep(order: seq<nat>, hits: map<nat, Hit>, patterns: map<nat, string>, values: S.Store, todo: set<nat>,
                id: nat)
    requires id in todo && todo <= hits.Keys && ListsOnce(order, Due(hits, patterns, values) - todo)
    ensures id in Due(hits, patterns, values) <==> S.Holds(hits[id].inst.rule, values) && hits[id].index in patterns
    ensures var due := Due(hits, patterns, values);
      ListsOnce(if id in due then order + [id] else order, due - (todo - {id}))
  {
    hide S.Holds;
    var due := Due(hits, patterns, values);
    assert due - (todo - {id}) == if id in due then due - todo + {id} else due - todo;
    if id in due { assert id !in order; }
  }

  /** The batched read holds every key the rules look at, so it decides like the store. */
  lemma SameDue(hits: map<nat, Hit>, patterns: map<nat, string>, values: S.Store, s: S.Store, keys: seq<string>)
    requires values == Restricted(s, set k | k in keys)
    requires forall id, k :: id in hits && S.Reads(hits[id].inst.rule, k) ==> k in keys
    ensures Due(hits, patterns, values) == Due(hits, patterns, s)
  {
    forall id | id in hits ensures S.Holds(hits[id].inst.rule, values) == S.Holds(hits[id].inst.rule, s) {
      S.HoldsDependsOnReads(hits[id].inst.rule, values, s);
    }
  }

  // ---------------------------------------------------------------------------
  // The crawler

  predicate Under(prefix: string, key: string) { prefix <= key }

  /** Every key is as the read of the prefix above it reported it; other keys are absent. */
  ghost predicate Snapshot(prefixes: seq<string>, responses: seq<Result<S.Store>>, values: S.Store) {
    && |responses| == |prefixes| && (forall i :: 0 <= i < |responses| ==> responses[i].Ok?)
    && (forall i, k :: 0 <= i < |prefixes| && Under(prefixes[i], k) ==>
          S.Get(values, k) == S.Get(responses[i].value, k))
    && forall k :: k in values ==> exists i :: 0 <= i < |prefixes| && Under(prefixes[i], k)
  }

  /** What the reads supply for a key: the last one above it that has the key. */
  ghost function Supplied(prefixes: seq<string>, responses: seq<Result<S.Store>>, key: string): S.Value
    requires |responses| == |prefixes| && forall i :: 0 <= i < |responses| ==> responses[i].Ok?
  {
    if prefixes == [] then None
    else
      var n := |prefixes| - 1;
      if Under(prefixes[n], key) && key in responses[n].value then Some(responses[n].value[key])
      else Supplied(prefixes[..n], responses[..n], key)
  }

  /** Where prefixes overlap, the last read that has the key wins, and a read without it takes nothing away. */
  lemma {:induction false} LastReadWins(prefixes: seq<string>, responses: seq<Result<S.Store>>, key: string, i: nat)
    requires |responses| == |prefixes| && (forall j :: 0 <= j < |responses| ==> responses[j].Ok?) && i < |prefixes|
    requires Under(prefixes[i], key) && key in responses[i].value
    requires forall j :: i < j < |prefixes| ==> !(Under(prefixes[j], key) && key in responses[j].value)
    ensures Supplied(prefixes, responses, key) == Some(responses[i].value[key])
    decreases |prefixes|
  {
    var n := |prefixes| - 1;
    if i < n { LastReadWins(prefixes[..n], responses[..n], key, i); }
  }

  ghost predicate NoneUnderAnother(prefixes: seq<string>) {
    forall i, j :: 0 <= i < |prefixes| && 0 <= j < |prefixes| && Under(prefixes[i], prefixes[j]) ==> i == j
  }

  /**
   * The query loop of the crawler's `singleRun`. Each prefix is read at its own time, and a
   * failed read abandons the run. What one read supplies only a later read of an overlapping
   * prefix can replace, and never remove; without overlaps the result is a snapshot.
   */
  method TakeSnapshot(prefixes: seq<string>, responses: seq<Result<S.Store>>) returns (values: Result<S.Store>)
    requires |responses| == |prefixes|
    ensures values.Ok? <==> forall i :: 0 <= i < |responses| ==> responses[i].Ok?
    ensures values.Ok? ==> forall k :: S.Get(values.value, k) == Supplied(prefixes, responses, k)
    ensures values.Ok? && NoneUnderAnother(prefixes) ==> Snapshot(prefixes, responses, values.value)
  {
    var out: S.Store := map[];
    for j := 0 to |prefixes|
      invariant forall i :: 0 <= i < j ==> responses[i].Ok?
      invariant forall k :: S.Get(out, k) == Supplied(prefixes[..j], responses[..j], k)
    {
      if responses[j].Err? { return Err; }
      var store := responses[j].value;
      out := out + map k | k in store && Under(prefixes[j], k) :: store[k];
      assert prefixes[..j + 1][..j] == prefixes[..j] && responses[..j + 1][..j] == responses[..j];
    }
    assert prefixes[..|prefixes|] == prefixes && responses[..|responses|] == responses;
    values := Ok(out);
    if NoneUnderAnother(prefixes) { SuppliedSnapshot(prefixes, responses, out); }
  }

  lemma {:induction false} SuppliedOnce(prefixes: seq<string>, responses: seq<Result<S.Store>>, key: string)
    requires |responses| == |prefixes| && forall i :: 0 <= i < |responses| ==> responses[i].Ok?
    ensures Supplied(prefixes, responses, key).Some? ==> exists i :: 0 <= i < |prefixes| && Under(prefixes[i], key)
    ensures NoneUnderAnother(prefixes) ==>
      forall i :: 0 <= i < |prefixes| && Under(prefixes[i], key) ==>
        Supplied(prefixes, responses, key) == S.Get(responses[i].value, key)
    decreases |prefixes|
  {
    if prefixes != [] {
      var n := |prefixes| - 1;
      SuppliedOnce(prefixes[..n], responses[..n], key);
      if i :| 0 <= i < n && Under(prefixes[..n][i], key) { assert Under(prefixes[i], key); }
      if NoneUnderAnother(prefixes) {
        assert NoneUnderAnother(prefixes[..n]);
        forall i | 0 <= i < |prefixes| && Under(prefixes[i], key)
          ensures Supplied(prefixes, responses, key) == S.Get(responses[i].value, key)
        {
          OneAbove(prefixes, i, n, key);
          if i < n { assert Under(prefixes[..n][i], key); }
        }
      }
    }
  }

  /** Without overlaps, no two prefixes lie above one key. */
  lemma OneAbove(prefixes: seq<string>, i: nat, n: nat, key: string)
    requires NoneUnderAnother(prefixes) && i < |prefixes| && n < |prefixes| && Under(prefixes[i], key)
    ensures Under(prefixes[n], key) ==> i == n
    ensures forall m :: 0 <= m < |prefixes| && Under(prefixes[m], key) ==> m == i
  {
    forall m | 0 <= m < |prefixes| && Under(prefixes[m], key) ensures m == i {
      Comparable(prefixes[i], prefixes[m], key);
    }
  }

  lemma SuppliedSnapshot(prefixes: seq<string>, responses: seq<Result<S.Store>>, values: S.Store)
    requires |responses| == |prefixes| && forall i :: 0 <= i < |responses| ==> responses[i].Ok?
    requires NoneUnderAnother(prefixes) && forall k :: S.Get(values, k) == Supplied(prefixes, responses, k)
    ensures Snapshot(prefixes, responses, values)
  {
    forall k ensures k in values ==> exists i :: 0 <= i < |prefixes| && Under(prefixes[i], k) {
      SuppliedOnce(prefixes, responses, k);
    }
    forall i, k | 0 <= i < |prefixes| && Under(prefixes[i], k)
      ensures S.Get(values, k) == S.Get(responses[i].value, k)
    {
      SuppliedOnce(prefixes, responses, k);
    }
  }

  lemma Comparable(p: string, q: string, k: string)
    requires Under(p, k) && Under(q, k)
    ensures Under(p, q) || Under(q, p)
  {
    assert p == k[..|p|] && q == k[..|q|];
    if |p| <= |q| { assert p == q[..|p|]; } else { assert q == p[..|q|]; }
  }

  ghost predicate Listed(prefixes: seq<string>, watched: set<string>) {
    forall p :: p in prefixes <==> p in watched
  }

  /**
   * Snapshot agreement: an instance of an added rule has the same truth on the crawl snapshot as
   * in the store s, as long as its own keys did not change while the prefixes were read.
   */
  lemma SnapshotAgreesOnInstance(added: seq<Ref>, i: nat, attrs: Attrs, prefixes: seq<string>,
                                 responses: seq<Result<S.Store>>, values: S.Store, s: S.Store)
    requires i < |added| && PrefixFaithful(added[i].rule)
    requires Listed(prefixes, Minimal(AllPrefixes(added, map[]))) && Snapshot(prefixes, responses, values)
    requires forall k, j :: S.Reads(Instantiate(added[i].rule, attrs), k) && 0 <= j < |responses| ==>
      S.Get(responses[j].value, k) == S.Get(s, k)
    ensures S.Holds(Instantiate(added[i].rule, attrs), values) == S.Holds(Instantiate(added[i].rule, attrs), s)
  {
    hide Instantiate, PrefixFaithful, Minimal, AllPrefixes;
    var sr := Instantiate(added[i].rule, attrs);
    forall k | S.Reads(sr, k) ensures S.Get(values, k) == S.Get(s, k) {
      InstanceKeysWatched(added, i, attrs, k);
      var p :| p in Minimal(AllPrefixes(added, map[])) && p <= k;
      assert p in prefixes && Under(p, k);
    }
    S.HoldsDependsOnReads(sr, values, s);
  }

  /** The crawler's verdict for every key is the verdict on the whole store, in both filter modes. */
  lemma SnapshotVerdict(added: seq<Ref>, prefixes: seq<string>, responses: seq<Result<S.Store>>, values: S.Store,
                        s: S.Store, key: string, v: S.Value, enhanced: bool)
    requires forall i :: 0 <= i < |added| ==>
      Sound(added[i].rule) && SlashFaithful(added[i].rule) && PrefixFaithful(added[i].rule)
    requires Listed(prefixes, Minimal(AllPrefixes(added, map[])))
    requires Snapshot(prefixes, responses, values) && forall i :: 0 <= i < |responses| ==> responses[i] == Ok(s)
    ensures Work(Bucket(added, Slashes(key)), key, v, enhanced, values) <==> Work(Entries(added), key, v, enhanced, s)
  {
    hide Sound, SlashFaithful, PrefixFaithful, Entries, Bucket, Slashes, InScope, Minimal, AllPrefixes, Snapshot;
    AddedTransparent(added, key, v, enhanced);
    var hits := Scan(Entries(added), key, v, enhanced);
    forall id | id in hits ensures S.Holds(hits[id].inst.rule, values) == S.Holds(hits[id].inst.rule, s) {
      EntryIsAdded(added, id);
      var i :| 0 <= i < |added| && added[i].id == id && Entries(added)[id] == Entry(added[i].rule, i);
      assert MakeStatic(added[i].rule, key).Some? by { ScanBuilds(Entries(added), key, v, enhanced, id); }
      InstanceIsInstantiation(added[i].rule, key);
      SnapshotAgreesOnInstance(added, i, hits[id].inst.attrs, prefixes, responses, values, s);
    }
  }

  lemma ScanBuilds(entries: map<nat, Entry>, key: string, v: S.Value, enhanced: bool, id: nat)
    requires id in Scan(entries, key, v, enhanced)
    ensures MakeStatic(entries[id].rule, key).Some?
  {
  }

  /** The keys of a snapshot for which the crawler finds work. */
  ghost function KeysWithWork(added: seq<Ref>, enhanced: bool, values: S.Store): set<string> {
    set k | k in values && Work(Bucket(added, Slashes(k)), k, Some(values[k]), enhanced, values)
  }

  /** The item is one that `processKey` dispatches for the key when it reads the store s. */
  ghost predicate Dispatches(added: seq<Ref>, enhanced: bool, patterns: map<nat, string>, key: string, v: S.Value,
                             s: S.Store, item: WorkItem) {
    var hits := Scan(Bucket(added, Slashes(key)), key, v, enhanced);
    exists id :: id in Due(hits, patterns, s) && item == ItemFor(hits[id], patterns)
  }

  /** The item is dispatched for one of these keys. */
  ghost predicate NewItem(added: seq<Ref>, enhanced: bool, patterns: map<nat, string>, submitted: set<string>,
                          values: S.Store, txn: string -> Result<S.Store>, item: WorkItem) {
    exists k :: k in submitted && k in values && txn(k).Ok? &&
      Dispatches(added, enhanced, patterns, k, Some(values[k]), txn(k).value, item)
  }

  lemma NewItemStep(added: seq<Ref>, enhanced: bool, patterns: map<nat, string>, submitted: set<string>, k: string,
                    values: S.Store, txn: string -> Result<S.Store>)
    requires k in values
    ensures forall item :: NewItem(added, enhanced, patterns, submitted + {k}, values, txn, item) <==>
      (NewItem(added, enhanced, patterns, submitted, values, txn, item)
       || (txn(k).Ok? && Dispatches(added, enhanced, patterns, k, Some(values[k]), txn(k).value, item)))
  {
    hide Dispatches;
    forall item | NewItem(added, enhanced, patterns, submitted, values, txn, item)
      ensures NewItem(added, enhanced, patterns, submitted + {k}, values, txn, item)
    {
      var x :| x in submitted && x in values && txn(x).Ok? &&
        Dispatches(added, enhanced, patterns, x, Some(values[x]), txn(x).value, item);
      assert x in submitted + {k};
    }
    assert k in submitted + {k};
  }

  /**
   * `processData`: exactly the cached keys with work are processed, until a stop is seen, and the
   * channel gains exactly the items dispatched for them, each on its own read of the store.
   */
  method ProcessData(kp: KeyProcessor, values: S.Store, stopping: seq<bool>, txn: string -> Result<S.Store>)
    returns (submitted: set<string>, stopped: bool)
    requires kp.rm.Valid()
    modifies kp`channel
    ensures submitted <= KeysWithWork(kp.rm.rules, kp.rm.enhanced, values)
    ensures !stopped ==> submitted == KeysWithWork(kp.rm.rules, kp.rm.enhanced, values)
    ensures stopped ==> true in stopping
    ensures forall item :: item in kp.channel <==>
      item in old(kp.channel)
        || NewItem(kp.rm.rules, kp.rm.enhanced, kp.lockKeyPatterns, submitted, values, txn, item)
  {
    submitted, stopped := {}, false;
    var todo, round := values.Keys, 0;
    while todo != {}
      invariant todo <= values.Keys
      invariant forall k :: k in submitted ==> k in KeysWithWork(kp.rm.rules, kp.rm.enhanced, values) && k !in todo
      invariant forall k :: k in KeysWithWork(kp.rm.rules, kp.rm.enhanced, values) && k !in todo ==> k in submitted
      invariant forall item :: item in kp.channel <==>
        item in old(kp.channel)
        || NewItem(kp.rm.rules, kp.rm.enhanced, kp.lockKeyPatterns, submitted, values, txn, item)
      decreases todo
    {
      hide Work, Scan, Bucket, Due, Dispatches, Manager.Valid, NewItem;
      var k :| k in todo;
      if round < |stopping| && stopping[round] { return submitted, true; }
      var work := kp.IsWork(k, Some(values[k]), values);
      if work {
        NewItemStep(kp.rm.rules, kp.rm.enhanced, kp.lockKeyPatterns, submitted, k, values, txn);
        ProcessOne(kp, k, Some(values[k]), txn(k));
        submitted := submitted + {k};
      }
      todo, round := todo - {k}, round + 1;
    }
  }

  /** `processKey` seen from the channel. */
  method ProcessOne(kp: KeyProcessor, key: string, v: S.Value, txn: Result<S.Store>)
    requires kp.rm.Valid()
    modifies kp`channel
    ensures forall item :: item in kp.channel <==>
      (item in old(kp.channel)
       || (txn.Ok? && Dispatches(kp.rm.rules, kp.rm.enhanced, kp.lockKeyPatterns, key, v, txn.value, item)))
  {
    ghost var order := kp.ProcessKey(key, v, txn);
    ghost var n := |old(kp.channel)|;
    ghost var hits := Scan(Bucket(kp.rm.rules, Slashes(key)), key, v, kp.rm.enhanced);
    assert kp.channel == old(kp.channel) + kp.channel[n..];
    ItemsDispatched(kp.channel[n..], order, hits, kp.lockKeyPatterns, if txn.Ok? then txn.value else map[], txn.Ok?);
  }

  lemma ItemsDispatched(items: seq<WorkItem>, order: seq<nat>, hits: map<nat, Hit>, patterns: map<nat, string>,
                        s: S.Store, read: bool)
    requires ItemsInOrder(items, order, hits, patterns)
    requires if read then ListsOnce(order, Due(hits, patterns, s)) else order == []
    ensures forall item :: item in items <==>
      read && exists id :: id in Due(hits, patterns, s) && item == ItemFor(hits[id], patterns)
  {
    hide Due, ItemFor;
    forall item
      ensures item in items <==>
        read && exists id :: id in Due(hits, patterns, s) && item == ItemFor(hits[id], patterns)
    {
      if item in items {
        var i :| 0 <= i < |items| && items[i] == item;
        assert order[i] in order;
      }
      if id :| read && id in Due(hits, patterns, s) && item == ItemFor(hits[id], patterns) {
        var i :| 0 <= i < |order| && order[i] == id;
        assert items[i] == item;
      }
    }
  }

  // ---------------------------------------------------------------------------
  // Filter modes

  /** Dynamic rules whose instances are nested ANDs of leaves and negated leaves. */
  ghost predicate ConjunctiveRule(r: Rule) {
    match r
    case And(rules) => forall i :: 0 <= i < |rules| ==> ConjunctiveRule(rules[i])
    case Or(_) => false
    case Not(rule) => rule.IsLeaf()
    case _ => true
  }

  lemma {:induction false} ConjunctiveInstances(r: Rule, attrs: Attrs)
    requires ConjunctiveRule(r)
    ensures Q.Conjunctive(Instantiate(r, attrs))
    decreases r
  {
    if r.And? {
      forall i | 0 <= i < |r.rules| ensures Q.Conjunctive(Instantiate(r.rules[i], attrs)) {
        ConjunctiveInstances(r.rules[i], attrs);
      }
    }
  }

  /** On conjunctive rules both filter modes give the same verdict when the value is the stored one. */
  lemma FilterModesAgree(entries: map<nat, Entry>, key: string, s: S.Store)
    requires forall id :: id in entries ==> Sound(entries[id].rule) && ConjunctiveRule(entries[id].rule)
    ensures Work(entries, key, S.Get(s, key), true, s) <==> Work(entries, key, S.Get(s, key), false, s)
  {
    var v := S.Get(s, key);
    forall id | id in entries
      ensures id in Scan(entries, key, v, true) && S.Holds(Scan(entries, key, v, true)[id].inst.rule, s)
         <==> id in Scan(entries, key, v, false) && S.Holds(Scan(entries, key, v, false)[id].inst.rule, s)
    {
      var r := entries[id].rule;
      if MakeStatic(r, key).Some? {
        InstanceIsInstantiation(r, key);
        ConjunctiveInstances(r, MakeStatic(r, key).value.attrs);
        Q.EnhancedFilterLossless(MakeStatic(r, key).value.rule, key, s);
      }
    }
  }
}
