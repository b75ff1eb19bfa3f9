/**
 * From work items to callbacks: the key processor dispatches one work item per trigger
 * (rules/key_processor.go), and the workers run callbacks for them (rules/worker.go). However many
 * keys trigger an instance, its work items name one lock, so the bound on callbacks covers them all.
 */
module WorkItems {
  import opened Base
  import opened Paths
  import opened DynamicRules
  import opened Expansion
  import opened ExpansionMeaning
  import opened RuleManager
  import opened KeyProcessing
  import opened WorkerProtocol
  import opened AtMostOnce
  import S = StaticRules

  /** What is dispatched for the rule with this index when key triggers it. */
  ghost function ItemOn(r: Rule, index: nat, lockPattern: string, key: string): WorkItem
    requires MakeStatic(r, key).Some?
  {
    ItemFor(Hit(MakeStatic(r, key).value, index), map[index := lockPattern])
  }

  /**
   * Before expansion, triggers of one instance dispatch equal work items; the instance is named by
   * the keys it reads.
   */
  lemma TriggersDispatchOneItem(r: Rule, index: nat, lockPattern: string, key1: string, key2: string)
    requires Unexpanded(r) && MakeStatic(r, key1).Some? && MakeStatic(r, key2).Some?
    requires S.Keys(MakeStatic(r, key1).value.rule) == S.Keys(MakeStatic(r, key2).value.rule)
    ensures ItemOn(r, index, lockPattern, key1) == ItemOn(r, index, lockPattern, key2)
  {
    hide MakeStatic, Format, Unexpanded;
    LockKeyAgreement(r, key1, key2, lockPattern);
  }

  /** The work items that the protocol numbers: those of one expanded rule by trigger, others by None. */
  ghost predicate Dispatched(c: Config, q: Rule, index: nat, lockPattern: string, trigger: nat -> Option<string>) {
    forall i :: trigger(i).Some? ==>
      && MakeStatic(q, trigger(i).value).Some?
      && c.rule(i) == ItemOn(q, index, lockPattern, trigger(i).value).rule
      && c.lockKey(i) == ItemOn(q, index, lockPattern, trigger(i).value).lockKey
  }

  /**
   * At most one callback per enablement, over all triggers of an instance of an expanded rule: every
   * work item whose instance reads the same keys counts as the same work, and together they start no
   * more callbacks than the instance has enablements and unhandled ends.
   */
  lemma AtMostOnceOverTriggers(c: Config, s0: State, actions: seq<Action>, r: Rule, values: Attrs, index: nat,
                               lockPattern: string, trigger: nat -> Option<string>, i: nat)
    requires Init(c, s0) && Run(c, s0, actions).Some? && NoLapse(c, s0, actions)
    requires Unexpanded(r) && PlainAttrs(values) && Dispatched(c, Subst(r, values), index, lockPattern, trigger)
    requires forall n :: n in Names(Segments(lockPattern)) && n in values ==> InEveryLeaf(r, n)
    requires trigger(i).Some?
    ensures forall j :: trigger(j).Some? && S.Keys(c.rule(j)) == S.Keys(c.rule(i)) ==> Same(c, j, i)
    ensures Count(c, s0, actions, CallbackStart, i)
         <= Bit(True(c, s0, i)) + Count(c, s0, actions, Rise, i) + Count(c, s0, actions, Unhandled, i)
  {
    hide MakeStatic, Format, Unexpanded, Subst, Names, Segments, InEveryLeaf, PlainAttrs;
    hide Run, Count, NoLapse, Init, Shaped;
    AtMostOncePerEnablement(c, s0, actions, i);
    forall j | trigger(j).Some? && S.Keys(c.rule(j)) == S.Keys(c.rule(i)) ensures Same(c, j, i) {
      ExpandedLockKeyAgreement(r, values, trigger(j).value, trigger(i).value, lockPattern);
    }
  }
}
