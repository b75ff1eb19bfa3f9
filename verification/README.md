# A model of go-etcd-rules in Dafny

go-etcd-rules is a rules engine over etcd. Rules are AND/OR/NOT trees over leaves that compare
the value of a key with a literal, or the values of several keys with each other; keys are written
as patterns such as `/servers/:serverid/state`. The engine indexes the rules, filters them for every
key it hears about, evaluates them on a cached snapshot, hands work items to workers, and the workers
of many processes run callbacks under a stack of nested locks.

The project models that path from the pattern text to the callback and proves what holds on all of it:

| file | what it models |
|---|---|
| `StaticRules.dfy`, `QuadState.dfy` | rules over concrete keys, the plain filter and the quad-state filter |
| `Paths.dfy`, `Matching.dfy` | pattern parsing, formatting, the unanchored matcher |
| `Prefixes.dfy` | watched prefixes, constraint enumeration, prefix reduction |
| `DynamicRules.dfy`, `EssentialLeaves.dfy` | rules over patterns, instances, lock keys, essential leaves |
| `Expansion.dfy`, `ExpansionMeaning.dfy`, `ExpansionLimits.dfy` | key expansion, when it keeps the meaning of a rule, and the inputs where it does not |
| `RuleManager.dfy`, `KeyProcessing.dfy`, `Engine.dfy` | the slash-count index, batched reads, the crawler, adding rules |
| `Locks.dfy`, `Sessions.dfy` | the lockers and the session singleton |
| `WorkerProtocol.dfy` | workers and locks of many processes as one interleaved step system |
| `MutualExclusion.dfy`, `AtMostOnce.dfy`, `WorkOrder.dfy` | exclusion, the bound on callbacks, the order of checks and locks |
| `Conservation.dfy`, `Shutdown.dfy` | exact accounts of locks and sessions, and stopping an engine |
| `WorkItems.dfy` | from the dispatched work items to the callbacks |

Main results:

- **At most once per enablement** (`AtMostOnce.AtMostOncePerEnablement`): over every interleaving of any
  number of workers and processes holding any number of duplicate work items, callback starts of a rule
  instance never outnumber the times it became true plus the callbacks that left it true. The bound is
  reached for every number of enablements, and all locks come back (`AtMostOnce.BoundIsReached`). The work
  items of all keys that trigger an instance count together (`WorkItems.AtMostOnceOverTriggers`).
- **Mutual exclusion** globally while sessions live, and per process whatever fails
  (`MutualExclusion.GlobalExclusion`, `MutualExclusion.ProcessExclusion`).
- **What is locked is held** (`Conservation.MapLockExact`, `Conservation.MutexExact`): over every interleaving a map
  lock is taken if and only if a goroutine is past it, whatever failed; an etcd mutex is owned if and only if a
  goroutine holds it, unless an unlock failed or an answer was lost.
- **Every callback was checked twice** (`WorkOrder.CallbackWasChecked`): before the lock, and under the lock it still has.
- **Stopping** is quiet (`Shutdown.StoppedStaysQuiet`) and within reach of every reachable state
  (`Shutdown.EngineCanStop`).
- **From a rule to the crawler** (`Engine.CrawlerExact`): take any rule of an engine and an existing key that
  triggers it in a store where it is true. Processing the key dispatches that instance for one of the expanded,
  indexed rules exactly under a condition on the original rule, and then the crawler finds the key on its own
  partial snapshot. The condition always holds when no parameter of the rule is expanded, and on a shape of rules
  that can be read off (`Engine.CrawlerFindsOriginalWork`). What a crawl can see at all is exact too: an instance
  is met if and only if some existing key triggers it (`Engine.VisibleExactly`). A watched write that makes an
  instance true is dispatched (`Engine.RisingWriteIsDispatched`).
- **Key expansion** gives one rule per choice of values in any map order (`Expansion.Expand`), and keeps the
  instance of a key exactly when a search over the original rule ends with the same attributes
  (`ExpansionMeaning.ExpansionExact` for one choice and `ExpansionMeaning.ExpandExact` for the whole output, for
  every rule tree).
- **The matcher and the formatter undo each other**, with the exact condition for repeated parameters.
- **The quad-state filter** loses a write that makes a rule true exactly when the tree allows the flip and is not
  true once pruned to the key (`QuadState.MissedFlipExact`, over independent leaves); for keys in one leaf it
  loses none in any tree (`QuadState.TriggerCompleteness`).

## How it is modelled

- Go map iteration is an arbitrary choice (`:|`), so results hold for every order.
- A nil `*string` is `None`. A comparator is any total function on optional values.
- The generated regular expression is matched by position; literal segments are taken as plain text, that is,
  free of regular-expression metacharacters. `Matching.MatchAtIsGreedy` and `Matching.MatchAtParses` relate
  the matcher to the language of the expression.
- Rule objects have an identity, because the index is keyed by pointer; adding one object twice moves its index.
- etcd mutexes are a map from keys to owning sessions: a session may take a free key or one it owns. A failed
  acquisition may nevertheless have taken the key, or have released one the session still owned.
- The goroutine of a work item and its worker's loop are separate; the loop waits for the goroutine. Panics are
  failures of the step in which they happen. The cool-off lock in front of the stack is a refusal that can
  happen at any time; its own law is `Locks.CoolOffLocker.Lock`.
- Some laws fail outside their fragments. Each failure is a lemma about a concrete rule, with the exact
  condition beside it: `QuadState.FlipCanBeMissed` (with `QuadState.MissedFlipExact`),
  `ExpansionLimits.ExpansionCanChangeMeaning` and `ExpansionLimits.EqualityCanChangeMeaning` (with
  `ExpansionMeaning.ExpansionExact`), `ExpansionLimits.LockKeysCanDiffer` (with
  `ExpansionMeaning.ExpandedLockKeys`), `EssentialLeaves.SharedTextLosesWork`, and
  `EssentialLeaves.EqualsPruningExact`.

## Model

| member | source | states |
|---|---|---|
| `StaticRules.Satisfied` | rules/static_rule.go:221-318 | left-to-right evaluation; a verdict is the truth in every store consistent with what could be read, in spite of short circuits; an error means a key of the rule is unreadable |
| `StaticRules.SatisfiedEquals` | rules/static_rule.go:352-388 | the same for the loop that compares every value with the first |
| `StaticRules.FirstDecides` | rules/static_rule.go:246-297 | the first nested rule that fails or settles an AND or OR decides it, and what stands behind it is not read |
| `StaticRules.FirstKeyDecides` | rules/static_rule.go:352-388 | the first key that cannot be read or differs decides an equality rule |
| `StaticRules.GetKeys` | rules/static_rule.go:201-207 | returns exactly the keys that evaluation may read |
| `StaticRules.HoldsDependsOnReads` | rules/static_rule.go:130-140 | truth depends on nothing but those keys |
| `StaticRules.SatisfiableIsKeyMatch` | rules/static_rule.go:154-163 | the plain filter is key membership, for every tree |
| `StaticRules.MatchExact` | rules/static_rule.go:333-350 | a key is matched exactly if the rule reads it or has an equality leaf without keys, which matches every key |
| `StaticRules.QSatisfiable` | rules/static_rule.go:165-190 | the flag loops compute the quad-state of the tree |
| `QuadState.QNoneIsUnmatched` | rules/static_rule.go:20-22 | the filter answers none exactly for keys that no leaf matches |
| `QuadState.TriggerCompleteness` | rules/static_rule.go:32-43 | for a key in at most one leaf, a write that makes the rule true is never filtered out, and one that makes it false never reported as making it true |
| `QuadState.FlipCanBeMissed` | rules/static_rule.go:165-190 | the rule And(Or(k = "x", b = "y"), Not(k = "x")), a store and a write of k that makes it true and is filtered out |
| `QuadState.EnhancedFilterLossless` | rules/static_rule.go:165-190 | on nested ANDs of leaves and negated leaves, filtering by quad-state and evaluating equals filtering by key and evaluating |
| `QuadState.ReachableSound` | rules/static_rule.go:32-43 | for every tree and store, what a write does to the truth of the rule is one of the before-and-after pairs that the shape of the tree allows |
| `QuadState.ReachableComplete` | rules/static_rule.go:32-43 | over independent leaves, a store is constructed in which the write does any allowed pair |
| `QuadState.RiseExact` | rules/static_rule.go:32-43 | over independent leaves, a write can make the rule true if and only if the tree allows it |
| `QuadState.PassesIsPrunedTruth` | rules/static_rule.go:165-190 | the filter passes exactly when the tree pruned to the key, its equality leaves on the key taken to be true, is true at the value |
| `QuadState.MissedFlipExact` | rules/static_rule.go:32-43 | over independent leaves, some write from one value to another makes the rule true and is filtered out if and only if the flip is allowed and the pruned tree is not true at the new value |
| `QuadState.FilterExact` | rules/static_rule.go:32-43 | over independent leaves, the filter drops no true evaluation at a value if and only if the pruned tree is true there whenever the rule can be |
| `QuadState.QSatIsPrunedTruth` | rules/static_rule.go:246-272 | where no equality leaf is on the key, in particular over literal leaves, the quad-state is two-valued truth of the tree pruned to the key, never maybe |
| `QuadState.PushNotPreserves` | rules/static_rule.go:299-318 | pushing NOT inward keeps truth on every tree, and the quad-state where no equality leaf is on the key |
| `QuadState.DeMorganExact` | rules/static_rule.go:299-310 | for arbitrary nested rules, exactly when one De Morgan step keeps the quad-state |
| `Paths.ParsePath` | rules/matcher.go:241-260 | the segments and the last capture group of every parameter |
| `Paths.FormatPath` | rules/matcher.go:146-181 | the path with attribute values, and whether every parameter had one |
| `Paths.CapturedByGroup` | rules/matcher.go:99-115 | looking an attribute up by its capture group gives the last capture of that name |
| `Paths.LastCaptureWins` | rules/matcher.go:241-260 | a repeated parameter has the capture of its last occurrence |
| `Paths.MatchIsText` | rules/matcher.go:87-97 | a match captures non-empty values without slash or colon and is exactly the text they spell |
| `Paths.FormattedSlashes` | rules/matcher.go:146-181 | a formatted key has one slash per segment |
| `Matching.MatchAtIsGreedy` | rules/matcher.go:241-260 | whenever the expression has a parse at a position the matcher finds one, and no parse captures more |
| `Matching.MatchAtParses` | rules/matcher.go:241-260 | what the matcher finds is a parse of the expression |
| `Matching.MatchUndoesFormat` | rules/matcher.go:87-97 | matching a formatted path returns the attributes it was formatted with |
| `Matching.FormatInjective` | rules/matcher.go:146-181 | formatted paths are equal if and only if the attributes bind the same parameters of the pattern to the same values |
| `Matching.FormatUndoesMatch` | rules/matcher.go:125-134 | formatting a match gives the matched text if and only if repeated parameters agree |
| `Matching.DistinctIsConsistent` | rules/matcher.go:241-260 | distinct parameters always agree |
| `Matching.WholeKey` | rules/dynamic_rule.go:227-248 | formatting the unanchored match gives the key back exactly when the match is the whole key, and exactly when the pattern spells the key |
| `Matching.ParseOfFormat` | rules/dynamic_rule.go:139-144 | formatting with some of the values and parsing again replaces exactly those parameters by literals |
| `Matching.SpecializedFires` | rules/dynamic_rule.go:139-144 | a specialised pattern fires on a key if and only if the original does with those values, and binds the rest alike |
| `Matching.SpecializedMatches` | rules/dynamic_rule.go:139-144 | the same for unanchored matches: a specialised pattern matches no key that the original does not, and a match with those values keeps its attributes |
| `Prefixes.PrefixExact` | rules/matcher.go:29-35 | every key of a pattern lies under its prefix if and only if the prefix survives normalisation |
| `Prefixes.PrefixIsLongest` | rules/matcher.go:29-35 | for a pattern in normal form, a text is a prefix of all its keys if and only if it is a prefix of the pattern's prefix; without parameters that is the pattern |
| `Prefixes.BuildPrefixes` | rules/matcher.go:62-76 | the recursion appends the product of the character sets |
| `Prefixes.PrefixesWithConstraints` | rules/matcher.go:37-60 | the enumerated prefixes; every key of the pattern whose first parameter meets its constraint lies under exactly one of them |
| `Prefixes.ConstrainedKeys` | rules/matcher.go:37-60 | a key formatted from the pattern lies under exactly one entry if the first parameter meets the constraint, and under none otherwise |
| `Prefixes.UnconstrainedKeys` | rules/matcher.go:37-60 | without a constraint, every key of the pattern lies under the one prefix |
| `Prefixes.ProductAt` | rules/matcher.go:62-76 | the product is listed in lexicographic order of positions, and its size is the product of the sizes |
| `Prefixes.ProductOnly` | rules/matcher.go:62-76 | every entry comes from one choice per set |
| `Prefixes.CoveredOnce` | rules/matcher.go:62-76 | with duplicate-free sets, a key that meets the constraint lies under exactly one entry of the list, any other key under none |
| `Prefixes.SortPrefixesByLength` | rules/rule_manager.go:91-107 | insertion sort gives a permutation sorted by length |
| `Prefixes.Insert` | rules/rule_manager.go:97-105 | one round moves the element to its place and shifts the longer ones |
| `Prefixes.ReducePrefixes` | rules/rule_manager.go:72-89 | keeps exactly the minimal prefixes; they are prefix-free and cover the same keys |
| `Prefixes.MinimalUnique` | rules/rule_manager.go:72-89 | that is the only prefix-free set covering the same keys |
| `Prefixes.MinimalIncremental` | rules/rule_manager.go:63-66 | reducing on every addition equals reducing the union once |
| `DynamicRules.MakeStaticRule` | rules/dynamic_rule.go:227-248 | the search loops build the instance of the first match or first triggered nested rule |
| `DynamicRules.MakeCompoundRule` | rules/dynamic_rule.go:329-351 | the same for compound rules, failing when a parameter is unbound |
| `DynamicRules.StaticRuleFromAttributes` | rules/dynamic_rule.go:250-261 | succeeds exactly when all parameters are bound, and instantiates the tree |
| `DynamicRules.AllFromAttributes` | rules/dynamic_rule.go:353-367 | the same for the nested rules of a compound |
| `DynamicRules.ReadsAreFormats` | rules/dynamic_rule.go:227-261 | an instance reads exactly its formatted patterns |
| `DynamicRules.InstanceIsInstantiation` | rules/dynamic_rule.go:227-248 | every instance is the rule instantiated with its own attributes, which hold plain values |
| `DynamicRules.TriggerIsRead` | rules/dynamic_rule.go:329-351 | a key that an instance matches is one it reads, even beside equality rules without keys |
| `DynamicRules.LeafTriggers` | rules/dynamic_rule.go:227-248 | a literal leaf fires exactly on the keys its pattern formats back |
| `DynamicRules.InstanceBindsAll` | rules/dynamic_rule.go:329-351 | over literal leaves, an instance binds exactly the rule's parameters, all held by one pattern |
| `DynamicRules.LockKeyAgreement` | rules/key_processor.go:61-79 | before expansion, trigger keys whose instances have the same keys yield the same instance, attributes and lock key, for every tree and lock pattern |
| `DynamicRules.LockKeysAgreeExactly` | rules/key_processor.go:61-79 | for every rule, expanded or not, such lock keys are equal if and only if the attributes agree on the lock pattern's parameters that expansion removed |
| `Expansion.Expand` | rules/dynamic_rule.go:122-167 | terminates, and gives exactly one rule per choice of values, each the simultaneous substitution, for every map order |
| `Expansion.ExpandCompoundOn` | rules/dynamic_rule.go:441-460 | one compound per value; expansion is reported exactly when the parameter occurs |
| `Expansion.ExpandWithValue` | rules/dynamic_rule.go:450-457 | expanding a nested rule with one value gives exactly one rule, so its first element exists |
| `Expansion.ExpandEach` | rules/dynamic_rule.go:461-468 | the later rounds complete the choices |
| `Expansion.ExpandLeafOn` | rules/dynamic_rule.go:139-159 | one leaf per value, with the value in every pattern and as an attribute |
| `Expansion.SubstCompose` | rules/dynamic_rule.go:139-159 | substituting one parameter at a time equals substituting all at once |
| `ExpansionMeaning.LeafFires` | rules/dynamic_rule.go:227-248 | an expanded literal leaf fires exactly when the leaf does with those values, with the same instance |
| `ExpansionMeaning.EqualsLeafKept` | rules/dynamic_rule.go:227-248 | an equality leaf that matches a key with those values has the same instance after expansion, although its patterns compete for unanchored matches |
| `ExpansionMeaning.SubstPreserves` | rules/dynamic_rule.go:441-474 | a trigger within the values gives the very same instance, for leaves of both kinds, NOT, and compounds in which only the last nested rule may mix parameters or hold equality leaves |
| `ExpansionMeaning.ExpandPreserves` | rules/dynamic_rule.go:441-474 | so some expanded rule yields the same keys, attributes and truth for every trigger within the values |
| `ExpansionMeaning.ExpandedLeafFiresOnce` | rules/dynamic_rule.go:122-167 | for a literal leaf and duplicate-free values, at most one expanded rule fires, and it is right |
| `ExpansionMeaning.UnderIsSubst` | rules/dynamic_rule.go:329-351 | a search over the original rule finds what the expanded rule fires with |
| `ExpansionMeaning.ExpansionExact` | rules/dynamic_rule.go:329-351 | for every rule tree and trigger, expansion keeps the instance if and only if that search ends with the instance's attributes |
| `ExpansionMeaning.ExpandExact` | rules/dynamic_rule.go:441-474 | for every rule tree and trigger within the expansion values, some expanded rule has the same instance if and only if the search, with the values the trigger has chosen, ends with its attributes |
| `ExpansionLimits.ExpansionCanChangeMeaning` | rules/dynamic_rule.go:329-351 | a concrete rule of literal leaves, a value and a key for which an expanded rule reads other keys |
| `ExpansionLimits.EqualityCanChangeMeaning` | rules/dynamic_rule.go:329-351 | an equality leaf in front of another rule, all with the same parameters, for which an expanded rule binds another value |
| `ExpansionMeaning.ExpandedLockKeys` | rules/dynamic_rule.go:146-151 | triggers of one instance of an expanded rule have the same lock key if and only if they bind the same expanded parameters of the lock pattern |
| `ExpansionMeaning.ExpandedLockKeyAgreement` | rules/key_processor.go:61-79 | so they do whenever every expanded parameter of the lock pattern is in every leaf |
| `ExpansionLimits.LockKeysCanDiffer` | rules/dynamic_rule.go:146-151 | a concrete expanded rule, two keys that trigger the same instance and a lock pattern that gives them different lock keys |
| `EssentialLeaves.EvaluateRule` | rules/dynamic_rule.go:480-486 | the evaluation loops over representations |
| `EssentialLeaves.TableVisitsOnce` | rules/dynamic_rule.go:85-102 | the enumeration visits every assignment exactly once |
| `EssentialLeaves.ProcessBooleanMap` | rules/dynamic_rule.go:85-102 | after the visits, a representation survives exactly if no satisfying assignment had it false |
| `EssentialLeaves.GetEssentialRepresentations` | rules/dynamic_rule.go:54-83 | returns exactly the leaves true in every satisfying assignment |
| `EssentialLeaves.EvaluateIsHolds` | rules/dynamic_rule.go:550-556 | evaluating the leaves' truth values equals evaluating the instance in the store |
| `EssentialLeaves.EssentialLeafHolds` | rules/dynamic_rule.go:54-83 | wherever an instance is satisfied, its essential leaves hold |
| `EssentialLeaves.GetCrawlerPatterns` | rules/dynamic_rule.go:402-425 | the patterns without those of essential leaves that end in nil |
| `EssentialLeaves.CrawlPruningLossless` | rules/dynamic_rule.go:402-425 | wherever an instance is satisfied, no key of a dropped pattern exists |
| `EssentialLeaves.StandardRules` | rules/dynamic_rule.go:266-272 | rules built with the two equality constructors have distinct representations that end in nil only for absence |
| `EssentialLeaves.EqualityRulesHold` | rules/static_rule.go:77-84 | a literal equality rule holds exactly where its key has that value, or is absent for nil; an equality rule exactly where all keys have one value |
| `EssentialLeaves.EqualityRulesText` | rules/dynamic_rule.go:266-272 | the representations of rules made with the two constructors |
| `EssentialLeaves.EqualsPruningExact` | rules/dynamic_rule.go:402-425 | for an equality rule, pruning loses nothing if and only if the joined patterns do not themselves end in the nil text |
| `EssentialLeaves.NilMeansAbsentExact` | rules/dynamic_rule.go:266-272 | for every tree built with the two constructors, the nil text means absence if and only if no equality leaf's joined patterns end in it |
| `EssentialLeaves.SharedTextLosesWork` | rules/dynamic_rule.go:402-425 | a tree in which a pattern with blanks shares its representation with another leaf, and a store where it holds although a key of a dropped pattern exists |
| `RuleManager.Manager.AddRule` | rules/rule_manager.go:52-70 | index, prefixes and counter after adding a rule, with the manager's invariant kept |
| `RuleManager.Manager.GetStaticRules` | rules/rule_manager.go:28-50 | the bucket, instantiated and filtered, equals a scan over all rules |
| `RuleManager.Manager.FilterRule` | rules/rule_manager.go:33-46 | one rule is kept exactly if it is in scope under the active filter |
| `RuleManager.InScopeIsIndexed` | rules/rule_manager.go:28-46 | passing either filter forces the rule into the key's bucket |
| `RuleManager.ScopeExact` | rules/rule_manager.go:33-46 | the plain filter lets through exactly the keys an instance reads, the enhanced one exactly the values at which it, pruned to the key, is true |
| `RuleManager.IndexTransparent` | rules/rule_manager.go:28-50 | the index answers like a scan, in both filter modes |
| `RuleManager.IndexExact` | rules/rule_manager.go:54-62 | for a literal leaf, transparency holds if and only if the pattern has one slash per segment |
| `RuleManager.IndexExactTree` | rules/rule_manager.go:54-62 | for a tree of literal leaves with the same parameters, it holds if and only if every pattern's number of segments is the number of slashes of some raw pattern |
| `RuleManager.InstanceKeysWatched` | rules/rule_manager.go:63-66 | without constraints, every key an instance reads lies under a watched prefix |
| `RuleManager.WellFormedIsFaithful` | rules/matcher.go:241-260 | a pattern with a leading slash and no empty segment meets the slash and prefix conditions |
| `KeyProcessing.GetCachedAPI` | rules/etcd.go:40-80 | the batched read is the store at one revision, restricted to the distinct keys |
| `KeyProcessing.KeyProcessor.ProcessKey` | rules/key_processor.go:154-189 | one work item, with its lock key, for exactly the rules in scope that are true in that revision |
| `KeyProcessing.EvaluateHits` | rules/key_processor.go:171-188 | the dispatch loop, each due rule once |
| `KeyProcessing.KeyProcessor.IsWork` | rules/key_processor.go:191-200 | true exactly if some rule in scope holds on the cache |
| `KeyProcessing.TakeSnapshot` | rules/int_crawler.go:160-175 | every key is as the last read that supplied it reported it; without overlapping prefixes that is the read of the one prefix above it; a failed read abandons the run |
| `KeyProcessing.LastReadWins` | rules/int_crawler.go:165-175 | where prefixes overlap, the last read that has a key supplies it |
| `KeyProcessing.ProcessData` | rules/int_crawler.go:190-204 | exactly the cached keys with work are processed unless a stop is seen, and the channel gains exactly the items dispatched for them |
| `KeyProcessing.SnapshotAgreesOnInstance` | rules/int_crawler.go:165-175 | an instance has the same truth on the snapshot as in the store if its own keys did not change meanwhile |
| `KeyProcessing.SnapshotVerdict` | rules/int_crawler.go:190-200 | the crawler's verdict for every key is the verdict on the whole store |
| `KeyProcessing.FilterModesAgree` | rules/rule_manager.go:33-46 | on conjunctive rules both filter modes give the same verdict |
| `Engine.SubstFits` | rules/engine.go:236-245 | expanded rules meet all conditions of the index and the prefixes |
| `Engine.Engine.AddRule` | rules/engine.go:236-245 | one indexed rule per choice, all with the lock pattern, earlier rules untouched; well-formed rules stay so |
| `Engine.Engine.Crawl` | rules/int_crawler.go:148-188 | one crawler run: snapshot, then exactly the keys with work, or nothing after a failed read |
| `Engine.VisibleExactly` | rules/int_crawler.go:190-204 | a crawl meets an instance that is true in the store if and only if some existing key triggers it, under either filter (the enhanced one on conjunctive instances) |
| `Engine.AbsentKeysUnseen` | rules/int_crawler.go:190-204 | an instance none of whose keys exists is not seen by a crawl |
| `Engine.CrawlerExact` | rules/int_crawler.go:190-204 | for any rule of the engine, an existing key that triggers it where it is true has the rule's instance dispatched, with its lock key, if and only if expansion keeps the instance; then the key is in the snapshot and found |
| `Engine.CrawlerFindsOriginalWork` | rules/int_crawler.go:190-204 | so it is whenever no parameter of the rule is expanded or the rule has the shape that expansion respects |
| `Engine.RisingWriteIsDispatched` | rules/key_processor.go:154-189 | a write that turns an instance true is dispatched when its key is processed, under the enhanced filter for a key in one leaf |
| `Locks.MapLocker.Toggle` | rules/lock/map_locker.go:30-48 | over every history of calls, a lock is granted exactly if the last call on its key was not a lock, and an unlock always |
| `Locks.Etcd.Lock` | rules/lock/lock.go:63-87 | succeeds exactly with an answer, a live session and a key that is free or owned by that session; a failure may leave that key taken or given back, and no other key changed |
| `Locks.Etcd.Unlock` | rules/lock/lock.go:103-136 | up to five attempts, then the session is closed whatever became of them |
| `Locks.NestedLocker.Lock` | rules/lock/nested_lock.go:19-38 | outer before inner; a busy outer lock leaves etcd alone, an inner failure gives the outer lock back |
| `Locks.NestedLocker.Unlock` | rules/lock/nested_lock.go:45-61 | the outer lock is always given back; the inner error takes precedence |
| `Locks.ReentryLosesKey` | rules/lock/lock.go:37-41 | acquiring and releasing restores the owners if and only if the key was free; a key the session owned already is given away |
| `Locks.CoolOffLocker.Lock` | rules/lock/cooloff_lock.go:36-62 | succeeds exactly when every earlier attempt on the key, successful or not, has cooled off |
| `Locks.Purge` | rules/lock/cooloff_lock.go:40-49 | removes exactly the expired entries |
| `Sessions.SessionManager.GetSession` | concurrency/session_manager.go:44-64 | returns the session there is and changes nothing; otherwise stores and returns the new one with its one clearer, or fails and changes nothing |
| `Sessions.SessionManager.Clear` | concurrency/session_manager.go:55-61 | the unconditional clear only ever clears its own session |
| `Sessions.SingletonProtocol` | concurrency/session_manager.go:44-64 | over every interleaving, one clearer for a session and none otherwise |
| `Sessions.SessionIsRenewed` | concurrency/session_manager.go:55-63 | after any history, once the session is cleared the next caller gets a new one, and later callers get that one |
| `MutualExclusion.ReachableInv` | rules/worker.go:79-140 | every reachable state keeps the lock, session and ownership invariants |
| `MutualExclusion.GlobalExclusion` | rules/engine.go:117-140 | at most one goroutine anywhere holds the nested lock of a key with a live session, in both compositions |
| `MutualExclusion.ProcessExclusion` | rules/lock/lock.go:37-41 | at most one goroutine per process is past the outer lock, even if sessions die or unlocks fail |
| `MutualExclusion.ReentryFindsLeftover` | rules/lock/lock.go:37-41 | in every reachable state, a goroutine that finds its key owned by its own session finds no lock that another goroutine holds |
| `MutualExclusion.ReleaseTakesOnlyOwn` | rules/lock/nested_lock.go:45-61 | in every reachable state, releasing a session lock takes no key from another goroutine that holds its lock |
| `Conservation.MapLockExact` | rules/lock/nested_lock.go:19-38 | in every reachable state, whatever has failed, a key is in a process's map lock if and only if one of its goroutines is past that lock |
| `Conservation.RetryAfterFailure` | rules/lock/nested_lock.go:26-33 | after a failed inner acquisition the outer lock is given back and the next goroutine of the process can take it |
| `Conservation.MutexExact` | rules/lock/nested_lock.go:45-61 | without failed unlocks and lost answers, an etcd key is owned if and only if a goroutine holds its lock with a live session, and by that session |
| `Conservation.FailureIsAmbiguous` | rules/lock/lock.go:63-82 | a failed acquisition may have taken the key, or given back one the session owned, and the goroutine goes on without the lock |
| `Conservation.DeathFreesKeys` | rules/lock/lock.go:37-41 | a session that dies is never live again and owns nothing from then on |
| `Conservation.SessionGiven` | concurrency/session_manager.go:44-64 | who asks for a session gets the shared one there is, or a new and live one |
| `Conservation.RunKeepsCurrent` | concurrency/session_manager.go:44-64 | a process keeps its shared session until it is cleared, over every run |
| `Conservation.ClearedIsRenewed` | concurrency/session_manager.go:55-63 | after a clear, the next goroutine of the process to ask gets a new and live session |
| `WorkOrder.StepOrder` | rules/worker.go:79-140 | in whatever step, a goroutine moves only in the order check, lock, check, callback, unlock, passing a check only with the rule true and a stop test only without a stop signal |
| `WorkOrder.CallbackWasChecked` | rules/worker.go:79-140 | a running callback's rule was true before the lock and again under the lock, which has been held since |
| `WorkOrder.NothingStartsWhenStopping` | rules/worker.go:125-131 | under a stop signal no callback starts, no lock is sought and no goroutine is launched |
| `AtMostOnce.StepBalanced` | rules/worker.go:107-139 | no step starts more callbacks than enablements and unhandled ends allow |
| `AtMostOnce.AtMostOncePerEnablement` | rules/worker.go:79-140 | callback starts, counted by goroutines that come to be in a callback, of all work items for an instance and its lock never outnumber enablements plus callbacks that left the rule true |
| `AtMostOnce.BoundIsReached` | rules/worker.go:79-140 | for every number of enablements there is a run in which a lone worker starts a callback for each and gives every lock back |
| `AtMostOnce.LeftoverIsTakenAgain` | rules/lock/lock.go:37-41 | a run in which a failed unlock leaves the key to the shared session and a later goroutine takes it again with that session |
| `WorkItems.TriggersDispatchOneItem` | rules/key_processor.go:61-79 | before expansion, all keys that trigger an instance dispatch equal work items |
| `WorkItems.AtMostOnceOverTriggers` | rules/worker.go:79-140 | for an expanded rule with its lock parameters in every leaf, the work items of all triggers of an instance count as one and obey the bound together |
| `Shutdown.ReachableStop` | rules/worker.go:54-71 | a worker's stopped flag is up exactly when its loop is over; only a stopping engine signals its workers, and it polls only after it has signalled them all |
| `Shutdown.StoppedStaysQuiet` | rules/engine.go:201-230 | once an engine is stopped, its workers have left their loops without a goroutine behind them and take no further step |
| `Shutdown.GoroutineCanEnd` | rules/worker.go:79-140 | from every point and in every state, a goroutine can end by its own steps |
| `Shutdown.EngineCanStop` | rules/engine.go:201-230 | from every reachable state the run can go on so that the engine reports that it has stopped, without a step of another process's workers |

## Left out

- `ExpansionMeaning.ExpandPreserves`: asks for the same shape as `ExpansionMeaning.SubstPreserves`; `ExpansionMeaning.ExpandExact` has the exact condition for all rules.
- `ExpansionMeaning.SubstPreserves`: asks for a shape that can be read off the rule; it is sufficient, and `ExpansionMeaning.ExpansionExact` has the exact condition for all rules.
- `QuadState.MissedFlipExact`: is stated over independent leaves, no key but the written one being read twice, and without a NOT above a compound that has an equality leaf on the key; for arbitrary trees reachability is a satisfiability question. `QuadState.ReachableSound` holds for all trees.
- `QuadState.FilterExact`: is stated on the same trees.
- `QuadState.PassesIsPrunedTruth`: leaves out a NOT above a compound that has an equality leaf on the key, where a maybe beside a definite answer is no two-valued truth; `QuadState.DeMorganExact` says what happens there.
- `Expansion.Expand`: keeps the display string of a leaf unchanged, where the original rewrites parameters inside it.
- `Expansion.ExpandLeafOn`: keeps the display string as well.
- `EssentialLeaves.StandardRules`: excludes patterns with a blank or that end in the nil text, because representations are joined texts; `EssentialLeaves.NilMeansAbsentExact` and `EssentialLeaves.SharedTextLosesWork` show what each exclusion is for.
- `MutualExclusion.GlobalExclusion`: is stated while the sessions live; when a session dies, another process may take its keys.
- `KeyProcessing.SnapshotVerdict`: is stated for engines without constraints, which narrow the watched keys on purpose.
- `RuleManager.IndexExact`: is for one literal leaf; `RuleManager.IndexExactTree` covers compounds whose leaves have the same parameters.
- `Engine.CrawlerExact`: is stated for engines without constraints and for a store that does not change during the run; `KeyProcessing.SnapshotAgreesOnInstance` needs only the instance's own keys unchanged.
- Worker, engine stop and lock acquisition as imperative methods: they are steps of one interleaved system, since their interleaving is what the results are about; the sequential lockers are classes in `Locks.dfy`.
- `Shutdown.EngineCanStop`: says that stopping stays possible, not that it happens: a busy worker can leave the second stop signal waiting on its channel.
- Stopping an engine while its workers are still being created, and the stopping of watchers and crawlers.
- Watch channels, leases, contexts and timeouts, the etcd client and its wrappers.
- Metrics, logging, the callback webhook, rule strings and their formatting, options, jitter and TTL polling.
- Regular-expression metacharacters in literal segments, and patterns that do not compile.
