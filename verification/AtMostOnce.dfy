/**
 * At most one callback per enablement (rules/worker.go, README.md): however many duplicate work
 * items the workers of however many processes hold, the check under the lock lets a rule instance
 * start a callback only as often as the instance becomes true.
 */
module AtMostOnce {
  import opened Base
  import opened Locks
  import opened WorkerProtocol
  import opened MutualExclusion
  import S = StaticRules

  // ---------------------------------------------------------------------------
  // What is counted along a run

  /**
   * Two work items are for the same rule instance under the same lock. They need not be equal: the
   * instance may have been triggered by different keys.
   */
  ghost predicate Same(c: Config, j: nat, i: nat) { c.rule(j) == c.rule(i) && c.lockKey(j) == c.lockKey(i) }

  datatype Event =
    | CallbackStart // a callback of the instance starts
    | Rise          // the instance turns from false to true
    | Unhandled     // a callback ends and leaves the instance true

  /** The goroutine was not in a callback, and now is in one for the instance. */
  ghost predicate Starts(c: Config, before: Task, after: Task, i: nat) {
    !before.Running? && after.Running? && Same(c, after.inst, i)
  }

  /** It was in a callback for the instance, and no longer is. */
  ghost predicate Ends(c: Config, before: Task, after: Task, i: nat) {
    before.Running? && !after.Running? && Same(c, before.inst, i)
  }

  ghost predicate Happens(c: Config, s: State, a: Action, e: Event, i: nat)
    requires Shaped(c, s) && Enabled(c, s, a)
  {
    var next := Apply(c, s, a);
    match e
    case CallbackStart => exists w :: w in c.workers && Starts(c, s.task[w], next.task[w], i)
    case Rise => !True(c, s, i) && True(c, next, i)
    case Unhandled => True(c, next, i) && exists w :: w in c.workers && Ends(c, s.task[w], next.task[w], i)
  }

  ghost function Count(c: Config, s0: State, actions: seq<Action>, e: Event, i: nat): nat
    requires Shaped(c, s0) && Run(c, s0, actions).Some?
    decreases |actions|
  {
    if actions == [] then 0
    else
      var n := |actions| - 1;
      Count(c, s0, actions[..n], e, i) + Bit(Happens(c, Run(c, s0, actions[..n]).value, actions[n], e, i))
  }

  function Bit(b: bool): nat { if b then 1 else 0 }

  /** The goroutine relies on its lock. */
  predicate Inside(t: Task) { t.Locked? || t.Committed? || t.Running? }

  /** A session dies while a goroutine relies on a lock taken with it. */
  ghost predicate Lapses(c: Config, s: State, a: Action)
    requires Shaped(c, s)
  {
    a.OfWorld? && a.o.SessionDies? && exists w :: w in c.workers && Inside(s.task[w]) && s.task[w].session == a.o.s
  }

  ghost predicate NoLapse(c: Config, s0: State, actions: seq<Action>)
    requires Shaped(c, s0) && Run(c, s0, actions).Some?
    decreases |actions|
  {
    actions == [] ||
    var n := |actions| - 1;
    NoLapse(c, s0, actions[..n]) && !Lapses(c, Run(c, s0, actions[..n]).value, actions[n])
  }

  // ---------------------------------------------------------------------------
  // Invariants

  /** A goroutine exists only while its worker waits for it. */
  ghost predicate JoinInv(c: Config, s: State)
    requires Shaped(c, s)
  {
    forall w :: w in c.workers ==> s.task[w].NoTask? || s.loop[w].Joining?
  }

  ghost predicate LiveInv(c: Config, s: State)
    requires Shaped(c, s)
  {
    forall w :: w in c.workers && Inside(s.task[w]) ==> s.task[w].session in s.live
  }

  lemma LoopKeepsJoin(c: Config, s: State, w: nat, op: LoopOp)
    requires Shaped(c, s) && JoinInv(c, s) && w in c.workers && LoopEnabled(c, s, w, op)
    ensures JoinInv(c, LoopStep(c, s, w, op))
  {
    assert s.task[w].NoTask?;
  }

  lemma TaskKeepsJoin(c: Config, s: State, w: nat, op: TaskOp)
    requires Shaped(c, s) && JoinInv(c, s) && w in c.workers && TaskEnabled(c, s, w, op)
    ensures JoinInv(c, TaskStep(c, s, w, op))
  {
    hide TaskStep, NextTask;
    assert !s.task[w].NoTask?;
  }

  lemma StepKeepsJoin(c: Config, s: State, a: Action)
    requires Shaped(c, s) && JoinInv(c, s) && Enabled(c, s, a)
    ensures JoinInv(c, Apply(c, s, a))
  {
    hide TaskStep, LoopStep, WorldStep, TaskEnabled, LoopEnabled, WorldEnabled;
    match a {
      case OfLoop(w, op) => LoopKeepsJoin(c, s, w, op);
      case OfTask(w, op) => TaskKeepsJoin(c, s, w, op);
      case OfWorld(op) =>
    }
  }

  lemma TaskKeepsLive(c: Config, s: State, w: nat, op: TaskOp)
    requires Shaped(c, s) && LiveInv(c, s) && w in c.workers && TaskEnabled(c, s, w, op)
    ensures LiveInv(c, TaskStep(c, s, w, op))
  {
    hide TaskStep, NextTask, TaskEnabled;
    if Inside(NextTask(c, s, w, op)) { InsideTasks(c, s, w, op); }
    var next := TaskStep(c, s, w, op);
    forall x | x in c.workers && Inside(next.task[x]) ensures next.task[x].session in next.live {
      if x != w { assert next.task[x] == s.task[x]; }
    }
  }

  lemma InsideTasks(c: Config, s: State, w: nat, op: TaskOp)
    requires Shaped(c, s) && w in c.workers && TaskEnabled(c, s, w, op) && Inside(NextTask(c, s, w, op))
    ensures NextTask(c, s, w, op).session == s.task[w].session
    ensures if op.InnerLock? then s.task[w].session in s.live else Inside(s.task[w])
  {
  }

  lemma WorldKeepsLive(c: Config, s: State, op: WorldOp)
    requires Shaped(c, s) && LiveInv(c, s) && WorldEnabled(c, s, op) && !Lapses(c, s, OfWorld(op))
    ensures LiveInv(c, WorldStep(c, s, op))
  {
  }

  lemma StepKeepsLive(c: Config, s: State, a: Action)
    requires Shaped(c, s) && LiveInv(c, s) && Enabled(c, s, a) && !Lapses(c, s, a)
    ensures LiveInv(c, Apply(c, s, a))
  {
    hide TaskStep, LoopStep, WorldStep, TaskEnabled, LoopEnabled, WorldEnabled, Lapses;
    match a {
      case OfLoop(w, op) =>
      case OfTask(w, op) => TaskKeepsLive(c, s, w, op);
      case OfWorld(op) => WorldKeepsLive(c, s, op);
    }
  }

  lemma {:induction false} ReachableAll(c: Config, s0: State, actions: seq<Action>)
    requires Init(c, s0) && Run(c, s0, actions).Some? && NoLapse(c, s0, actions)
    ensures var s := Run(c, s0, actions).value; Inv(c, s) && JoinInv(c, s) && LiveInv(c, s)
    decreases |actions|
  {
    ReachableInv(c, s0, actions);
    if actions != [] {
      var n := |actions| - 1;
      ReachableAll(c, s0, actions[..n]);
      StepKeepsJoin(c, Run(c, s0, actions[..n]).value, actions[n]);
      StepKeepsLive(c, Run(c, s0, actions[..n]).value, actions[n]);
    }
  }

  // ---------------------------------------------------------------------------
  // The balance

  ghost predicate InFlight(c: Config, t: Task, i: nat) { (t.Committed? || t.Running?) && Same(c, t.inst, i) }

  ghost predicate AnyInFlight(c: Config, s: State, i: nat)
    requires Shaped(c, s)
  {
    exists w :: w in c.workers && InFlight(c, s.task[w], i)
  }

  ghost predicate AnyCommitted(c: Config, s: State, i: nat)
    requires Shaped(c, s)
  {
    exists w :: w in c.workers && s.task[w].Committed? && Same(c, s.task[w].inst, i)
  }

  /** A start that is committed but not yet made, or could still be committed. */
  ghost function Owed(c: Config, s: State, i: nat): nat
    requires Shaped(c, s)
  {
    Bit(AnyCommitted(c, s, i)) + Bit(True(c, s, i) && !AnyInFlight(c, s, i))
  }

  /** What holds the lock holds it alone. */
  lemma Alone(c: Config, s: State, w: nat, x: nat)
    requires Shaped(c, s) && Inv(c, s) && LiveInv(c, s) && w in c.workers && x in c.workers
    requires Inside(s.task[w]) && Inside(s.task[x]) && Same(c, s.task[x].inst, s.task[w].inst)
    ensures w == x
  {
    Exclusive(c, s, w, x);
  }

  /** Steps that neither commit nor uncommit anything and leave the store alone. */
  lemma OwedUnchanged(c: Config, s: State, next: State, i: nat)
    requires Shaped(c, s) && Shaped(c, next) && next.store == s.store
    requires forall x :: x in c.workers && (InFlight(c, s.task[x], i) || InFlight(c, next.task[x], i)) ==>
      next.task[x] == s.task[x]
    ensures Owed(c, next, i) == Owed(c, s, i)
  {
    assert forall x :: x in c.workers ==> (InFlight(c, next.task[x], i) <==> InFlight(c, s.task[x], i));
    assert AnyInFlight(c, next, i) <==> AnyInFlight(c, s, i);
    assert AnyCommitted(c, next, i) <==> AnyCommitted(c, s, i) by {
      if w :| w in c.workers && s.task[w].Committed? && Same(c, s.task[w].inst, i) { assert InFlight(c, s.task[w], i); }
      if w :| w in c.workers && next.task[w].Committed? && Same(c, next.task[w].inst, i) {
        assert InFlight(c, next.task[w], i);
      }
    }
  }

  /** A step of a goroutine starts or ends no callback but its own. */
  lemma TaskHappens(c: Config, s: State, w: nat, op: TaskOp, i: nat)
    requires Shaped(c, s) && w in c.workers && TaskEnabled(c, s, w, op)
    ensures Happens(c, s, OfTask(w, op), CallbackStart, i) <==> Starts(c, s.task[w], NextTask(c, s, w, op), i)
    ensures Happens(c, s, OfTask(w, op), Unhandled, i) <==>
      True(c, s, i) && Ends(c, s.task[w], NextTask(c, s, w, op), i)
    ensures !Happens(c, s, OfTask(w, op), Rise, i)
  {
    hide TaskStep, NextTask, Starts, Ends;
    var next := TaskStep(c, s, w, op);
    assert next.task[w] == NextTask(c, s, w, op) && next.store == s.store;
    forall x | x in c.workers && x != w
      ensures !Starts(c, s.task[x], next.task[x], i) && !Ends(c, s.task[x], next.task[x], i)
    {
      SameTask(c, s.task[x], i);
    }
  }

  lemma SameTask(c: Config, t: Task, i: nat)
    ensures !Starts(c, t, t, i) && !Ends(c, t, t, i)
  {
  }

  /** Steps of loops and of the rest of the world start and end none. */
  lemma OthersHappen(c: Config, s: State, a: Action, i: nat)
    requires Shaped(c, s) && Enabled(c, s, a) && !a.OfTask?
    requires a.OfLoop? && a.l.CheckStop? ==> s.task[a.w].NoTask?
    ensures !Happens(c, s, a, CallbackStart, i) && !Happens(c, s, a, Unhandled, i)
  {
    hide LoopStep, WorldStep, WorldEnabled;
    var next := Apply(c, s, a);
    forall x | x in c.workers ensures !Starts(c, s.task[x], next.task[x], i) && !Ends(c, s.task[x], next.task[x], i) {
      if a.OfLoop? && next.task[x] != s.task[x] { assert s.task[x].NoTask?; }
    }
  }

  /** In one step, starts and what is owed grow by no more than the rises and the unhandled ends. */
  ghost predicate Balanced(c: Config, s: State, a: Action, i: nat)
    requires Shaped(c, s) && Enabled(c, s, a)
  {
    Bit(Happens(c, s, a, CallbackStart, i)) + Owed(c, Apply(c, s, a), i)
      <= Owed(c, s, i) + Bit(Happens(c, s, a, Rise, i)) + Bit(Happens(c, s, a, Unhandled, i))
  }

  ghost predicate Moving(op: TaskOp) { op.Recheck? || op.StartCallback? || op.AbandonCallback? || op.FinishCallback? }

  lemma QuietTaskBalanced(c: Config, s: State, w: nat, op: TaskOp, i: nat)
    requires Shaped(c, s) && w in c.workers && TaskEnabled(c, s, w, op)
    requires !Moving(op) || !Same(c, s.task[w].inst, i)
    ensures Balanced(c, s, OfTask(w, op), i)
  {
    QuietNotInFlight(c, s, w, op, i);
    TaskHappens(c, s, w, op, i);
    hide TaskStep, NextTask, Owed, InFlight, Happens;
    var next := TaskStep(c, s, w, op);
    assert forall x :: x in c.workers && x != w ==> next.task[x] == s.task[x];
    OwedUnchanged(c, s, next, i);
  }

  lemma QuietNotInFlight(c: Config, s: State, w: nat, op: TaskOp, i: nat)
    requires Shaped(c, s) && w in c.workers && TaskEnabled(c, s, w, op)
    requires !Moving(op) || !Same(c, s.task[w].inst, i)
    ensures !InFlight(c, s.task[w], i) && !InFlight(c, NextTask(c, s, w, op), i)
    ensures !Starts(c, s.task[w], NextTask(c, s, w, op), i)
  {
    hide Same;
  }

  lemma MovingTaskBalanced(c: Config, s: State, w: nat, op: TaskOp, i: nat)
    requires Shaped(c, s) && Inv(c, s) && LiveInv(c, s) && w in c.workers && TaskEnabled(c, s, w, op)
    requires Moving(op) && Same(c, s.task[w].inst, i)
    ensures Balanced(c, s, OfTask(w, op), i)
  {
    MovingOwed(c, s, w, op, i);
    MovingHappens(c, s, w, op, i);
    hide TaskStep, Inv, LiveInv, Owed, Happens, Shaped;
  }

  lemma MovingHappens(c: Config, s: State, w: nat, op: TaskOp, i: nat)
    requires Shaped(c, s) && w in c.workers && TaskEnabled(c, s, w, op) && Moving(op) && Same(c, s.task[w].inst, i)
    ensures Happens(c, s, OfTask(w, op), CallbackStart, i) <==> op.StartCallback? && w !in s.stopping
    ensures Happens(c, s, OfTask(w, op), Unhandled, i) <==> op.FinishCallback? && True(c, s, i)
    ensures !Happens(c, s, OfTask(w, op), Rise, i)
  {
    TaskHappens(c, s, w, op, i);
    hide TaskStep, Happens;
  }

  lemma MovingOwed(c: Config, s: State, w: nat, op: TaskOp, i: nat)
    requires Shaped(c, s) && Inv(c, s) && LiveInv(c, s) && w in c.workers && TaskEnabled(c, s, w, op)
    requires Moving(op) && Same(c, s.task[w].inst, i)
    ensures var t, next := s.task[w], NextTask(c, s, w, op);
      && Owed(c, s, i) == Bit(t.Committed?) + Bit(True(c, s, i) && !InFlight(c, t, i))
      && Owed(c, TaskStep(c, s, w, op), i) == Bit(next.Committed?) + Bit(True(c, s, i) && !InFlight(c, next, i))
  {
    hide TaskStep, Inv, LiveInv, Owed;
    forall x | x in c.workers && x != w ensures !InFlight(c, s.task[x], i) {
      if InFlight(c, s.task[x], i) { Alone(c, s, w, x); }
    }
    OwedAlone(c, s, w, i);
    OwedAlone(c, TaskStep(c, s, w, op), w, i);
  }

  /** What is owed when no other goroutine is in flight for the instance. */
  lemma OwedAlone(c: Config, s: State, w: nat, i: nat)
    requires Shaped(c, s) && w in c.workers
    requires forall x :: x in c.workers && x != w ==> !InFlight(c, s.task[x], i)
    requires s.task[w].Committed? ==> Same(c, s.task[w].inst, i)
    ensures Owed(c, s, i) == Bit(s.task[w].Committed?) + Bit(True(c, s, i) && !InFlight(c, s.task[w], i))
  {
    if x :| x in c.workers && s.task[x].Committed? && Same(c, s.task[x].inst, i) { assert InFlight(c, s.task[x], i); }
  }

  lemma StepBalanced(c: Config, s: State, a: Action, i: nat)
    requires Shaped(c, s) && Inv(c, s) && JoinInv(c, s) && LiveInv(c, s) && Enabled(c, s, a)
    ensures Balanced(c, s, a, i)
  {
    hide TaskStep, LoopStep, WorldStep, WorldEnabled, Owed, Inv, LiveInv, Balanced;
    match a {
      case OfLoop(w, op) => LoopBalanced(c, s, w, op, i);
      case OfTask(w, op) =>
        if Moving(op) && Same(c, s.task[w].inst, i) {
          MovingTaskBalanced(c, s, w, op, i);
        } else {
          QuietTaskBalanced(c, s, w, op, i);
        }
      case OfWorld(op) => WorldBalanced(c, s, op, i);
    }
  }

  lemma LoopBalanced(c: Config, s: State, w: nat, op: LoopOp, i: nat)
    requires Shaped(c, s) && JoinInv(c, s) && w in c.workers && LoopEnabled(c, s, w, op)
    ensures Balanced(c, s, OfLoop(w, op), i)
  {
    assert s.task[w].NoTask? || !op.CheckStop?;
    OthersHappen(c, s, OfLoop(w, op), i);
    hide LoopStep, Happens;
    OwedUnchanged(c, s, LoopStep(c, s, w, op), i);
  }

  lemma WorldBalanced(c: Config, s: State, op: WorldOp, i: nat)
    requires Shaped(c, s) && JoinInv(c, s) && WorldEnabled(c, s, op)
    ensures Balanced(c, s, OfWorld(op), i)
  {
    OthersHappen(c, s, OfWorld(op), i);
    hide WorldStep, Starts, Ends;
    var next := WorldStep(c, s, op);
    assert AnyInFlight(c, next, i) <==> AnyInFlight(c, s, i);
    assert AnyCommitted(c, next, i) <==> AnyCommitted(c, s, i);
  }

  lemma {:induction false} RunBalanced(c: Config, s0: State, actions: seq<Action>, i: nat)
    requires Init(c, s0) && Run(c, s0, actions).Some? && NoLapse(c, s0, actions)
    ensures Count(c, s0, actions, CallbackStart, i) + Owed(c, Run(c, s0, actions).value, i)
         <= Bit(True(c, s0, i)) + Count(c, s0, actions, Rise, i) + Count(c, s0, actions, Unhandled, i)
    decreases |actions|
  {
    if actions != [] {
      var n := |actions| - 1;
      RunBalanced(c, s0, actions[..n], i);
      ReachableAll(c, s0, actions[..n]);
      StepBalanced(c, Run(c, s0, actions[..n]).value, actions[n], i);
    }
  }

  /**
   * Over every run in which no session dies under a held lock, the callbacks started for a rule
   * instance never outnumber the times it became true (counting a true start) and the callbacks
   * that ended without making it false. If every callback does make it false, that is at most
   * one callback per enablement.
   */
  lemma AtMostOncePerEnablement(c: Config, s0: State, actions: seq<Action>, i: nat)
    requires Init(c, s0) && Run(c, s0, actions).Some? && NoLapse(c, s0, actions)
    ensures Count(c, s0, actions, CallbackStart, i)
         <= Bit(True(c, s0, i)) + Count(c, s0, actions, Rise, i) + Count(c, s0, actions, Unhandled, i)
    ensures Count(c, s0, actions, Unhandled, i) == 0 ==>
      Count(c, s0, actions, CallbackStart, i) <= Bit(True(c, s0, i)) + Count(c, s0, actions, Rise, i)
  {
    RunBalanced(c, s0, actions, i);
  }

  // ---------------------------------------------------------------------------
  // The bound is reached

  datatype Tally = Tally(starts: nat, rises: nat)

  /** A run without lapses or unhandled ends that leads to s, with its counts. */
  ghost predicate Reached(c: Config, s0: State, actions: seq<Action>, i: nat, s: State, t: Tally)
    requires Shaped(c, s0)
  {
    && Run(c, s0, actions) == Some(s) && NoLapse(c, s0, actions)
    && Count(c, s0, actions, CallbackStart, i) == t.starts && Count(c, s0, actions, Rise, i) == t.rises
    && Count(c, s0, actions, Unhandled, i) == 0
  }

  /** The counts after one more action. */
  ghost function After(c: Config, s: State, a: Action, i: nat, t: Tally): Tally
    requires Shaped(c, s) && Enabled(c, s, a)
  {
    Tally(t.starts + Bit(Happens(c, s, a, CallbackStart, i)), t.rises + Bit(Happens(c, s, a, Rise, i)))
  }

  lemma Advance(c: Config, s0: State, actions: seq<Action>, i: nat, s: State, t: Tally, a: Action, next: State)
    returns (longer: seq<Action>)
    requires Shaped(c, s0) && Shaped(c, s) && Reached(c, s0, actions, i, s, t)
    requires Enabled(c, s, a) && Apply(c, s, a) == next && !Lapses(c, s, a) && !Happens(c, s, a, Unhandled, i)
    ensures Reached(c, s0, longer, i, next, After(c, s, a, i, t)) && actions <= longer
  {
    hide Enabled, Apply, Happens, Lapses;
    longer := actions + [a];
    assert longer[..|actions|] == actions;
  }

  /** Callbacks start and end in their own steps, and none starts under a stop signal. */
  lemma StartsAndEnds(c: Config, s: State, w: nat, op: TaskOp, i: nat)
    requires Shaped(c, s) && w in c.workers && TaskEnabled(c, s, w, op)
    ensures Starts(c, s.task[w], NextTask(c, s, w, op), i) <==>
      op.StartCallback? && Same(c, s.task[w].inst, i) && w !in s.stopping
    ensures Ends(c, s.task[w], NextTask(c, s, w, op), i) ==> op.FinishCallback?
  {
    hide Same;
  }

  /** One step of a goroutine. */
  lemma AdvanceTask(c: Config, s0: State, actions: seq<Action>, i: nat, s: State, t: Tally, w: nat, op: TaskOp)
    returns (longer: seq<Action>, next: State)
    requires Shaped(c, s0) && Shaped(c, s) && Reached(c, s0, actions, i, s, t)
    requires w in c.workers && TaskEnabled(c, s, w, op) && (op.FinishCallback? ==> !True(c, s, i))
    ensures next == TaskStep(c, s, w, op)
    ensures var starting := op.StartCallback? && Same(c, s.task[w].inst, i) && w !in s.stopping;
      Reached(c, s0, longer, i, next, t.(starts := t.starts + Bit(starting))) && actions <= longer
  {
    TaskHappens(c, s, w, op, i);
    StartsAndEnds(c, s, w, op, i);
    hide TaskStep, NextTask, Reached, Happens;
    next := TaskStep(c, s, w, op);
    longer := Advance(c, s0, actions, i, s, t, OfTask(w, op), next);
  }

  /** One step of a worker's loop. */
  lemma AdvanceLoop(c: Config, s0: State, actions: seq<Action>, i: nat, s: State, t: Tally, w: nat, op: LoopOp)
    returns (longer: seq<Action>, next: State)
    requires Shaped(c, s0) && Shaped(c, s) && Reached(c, s0, actions, i, s, t)
    requires w in c.workers && LoopEnabled(c, s, w, op) && (op.CheckStop? ==> s.task[w].NoTask?)
    ensures next == LoopStep(c, s, w, op) && Reached(c, s0, longer, i, next, t) && actions <= longer
  {
    OthersHappen(c, s, OfLoop(w, op), i);
    hide LoopStep, Reached, Starts, Ends;
    next := LoopStep(c, s, w, op);
    longer := Advance(c, s0, actions, i, s, t, OfLoop(w, op), next);
  }

  lemma AdvanceWrite(c: Config, s0: State, actions: seq<Action>, i: nat, s: State, t: Tally, store: S.Store)
    returns (longer: seq<Action>, next: State)
    requires Shaped(c, s0) && Shaped(c, s) && Reached(c, s0, actions, i, s, t)
    ensures next == s.(store := store)
    ensures Reached(c, s0, longer, i, next, t.(rises := t.rises + Bit(!True(c, s, i) && S.Holds(c.rule(i), store))))
  {
    OthersHappen(c, s, OfWorld(Write(store)), i);
    hide Reached, Starts, Ends;
    next := s.(store := store);
    longer := Advance(c, s0, actions, i, s, t, OfWorld(Write(store)), next);
  }

  /** Worker w at the given point, holding these keys in etcd and in the map lock of its process. */
  ghost predicate At(c: Config, s: State, w: nat, loop: Loop, task: Task, owners: Owners, keys: set<string>) {
    && Shaped(c, s) && w in c.workers && s.loop[w] == loop && s.task[w] == task
    && s.stopping == {} && s.owners == owners
    && OuterOnly(c, s.outer, w, keys) && AllLive(s.current, s.live)
  }

  ghost predicate OuterOnly(c: Config, outer: map<nat, set<string>>, w: nat, keys: set<string>) {
    && (forall p :: p in outer ==> outer[p] == if c.shared && p == c.process(w) then keys else {})
    && (c.shared && keys != {} ==> c.process(w) in outer)
  }

  ghost predicate AllLive(current: map<nat, Session>, live: set<Session>) {
    forall p :: p in current ==> current[p] in live
  }

  /** Between work items, no lock taken. */
  ghost predicate Idle(c: Config, s: State, w: nat) { At(c, s, w, Waiting, NoTask, map[], {}) }

  /** What the steps around the session lock do. */
  lemma StepTo(c: Config, s: State, w: nat, op: TaskOp)
    requires Shaped(c, s) && w in c.workers && TaskEnabled(c, s, w, op)
    requires op.InnerLock? || op.Recheck? || op.InnerUnlock?
    ensures var t, next := s.task[w], TaskStep(c, s, w, op);
      && (op.InnerLock? ==>
            var owners := s.owners[c.lockKey(t.inst) := t.session];
            next == s.(task := s.task[w := Locked(t.inst, t.session)], owners := owners))
      && (op.Recheck? ==>
            var then' := if True(c, s, t.inst) then Committed(t.inst, t.session) else ReleaseInner(t.inst, t.session);
            next == s.(task := s.task[w := then']))
      && (op.InnerUnlock? ==>
            var owners := Release(s.owners, c.lockKey(t.inst), t.session);
            next == s.(task := s.task[w := ReleaseOuter(t.inst)], owners := owners))
  {
  }

  lemma Enter(c: Config, s0: State, w: nat, i: nat) returns (actions: seq<Action>, s: State)
    requires Init(c, s0) && w in c.workers
    ensures Reached(c, s0, actions, i, s, Tally(0, 0)) && Idle(c, s, w) && s.store == s0.store
  {
    assert Reached(c, s0, [], i, s0, Tally(0, 0));
    hide Reached, Run;
    actions, s := AdvanceLoop(c, s0, [], i, s0, Tally(0, 0), w, Start);
    actions, s := AdvanceLoop(c, s0, actions, i, s, Tally(0, 0), w, Test);
  }

  lemma Launch(c: Config, s0: State, actions0: seq<Action>, s1: State, t: Tally, w: nat, i: nat, held: Owners)
    returns (actions: seq<Action>, s: State)
    requires Shaped(c, s0) && At(c, s1, w, Waiting, NoTask, held, {}) && Reached(c, s0, actions0, i, s1, t)
    ensures Reached(c, s0, actions, i, s, t) && At(c, s, w, Joining, Check(i), held, {}) && s.store == s1.store
    ensures s.current == s1.current
    ensures actions0 <= actions
  {
    hide Reached, Run, OuterOnly, AllLive;
    actions, s := AdvanceLoop(c, s0, actions0, i, s1, t, w, Receive(i));
    actions, s := AdvanceLoop(c, s0, actions, i, s, t, w, CheckStop);
  }

  lemma CheckRule(c: Config, s0: State, actions0: seq<Action>, s1: State, t: Tally, w: nat, i: nat, held: Owners)
    returns (actions: seq<Action>, s: State)
    requires Shaped(c, s0) && At(c, s1, w, Joining, Check(i), held, {}) && Reached(c, s0, actions0, i, s1, t)
    requires True(c, s1, i)
    ensures Reached(c, s0, actions, i, s, t) && At(c, s, w, Joining, WantOuter(i), held, {}) && s.store == s1.store
    ensures s.current == s1.current
    ensures actions0 <= actions
  {
    hide Reached, Run, OuterOnly, AllLive;
    actions, s := AdvanceTask(c, s0, actions0, i, s1, t, w, PreCheck);
    actions, s := AdvanceTask(c, s0, actions, i, s, t, w, StopTest);
  }

  lemma TakeOuter(c: Config, s0: State, actions0: seq<Action>, s1: State, t: Tally, w: nat, i: nat, held: Owners)
    returns (actions: seq<Action>, s: State)
    requires Shaped(c, s0) && At(c, s1, w, Joining, WantOuter(i), held, {}) && Reached(c, s0, actions0, i, s1, t)
    ensures Reached(c, s0, actions, i, s, t) && At(c, s, w, Joining, WantSession(i), held, {c.lockKey(i)})
    ensures s.store == s1.store
    ensures s.current == s1.current
    ensures actions0 <= actions
  {
    LockOnly(c, s1, w, i);
    hide Reached, Run, AllLive, OuterOnly, TaskStep, NextTask, TaskEnabled;
    actions, s := AdvanceTask(c, s0, actions0, i, s1, t, w, OuterLock);
  }

  lemma LockOnly(c: Config, s: State, w: nat, i: nat)
    requires Shaped(c, s) && w in c.workers && s.task[w] == WantOuter(i) && OuterOnly(c, s.outer, w, {})
    ensures TaskEnabled(c, s, w, OuterLock) && NextTask(c, s, w, OuterLock) == WantSession(i)
    ensures OuterOnly(c, TaskStep(c, s, w, OuterLock).outer, w, {c.lockKey(i)})
  {
    assert {} + {c.lockKey(i)} == {c.lockKey(i)};
  }

  lemma TakeSession(c: Config, s0: State, actions0: seq<Action>, s1: State, t: Tally, w: nat, i: nat, held: Owners)
    returns (actions: seq<Action>, s: State, x: Session)
    requires Shaped(c, s0) && At(c, s1, w, Joining, WantSession(i), held, {c.lockKey(i)})
    requires Reached(c, s0, actions0, i, s1, t)
    ensures Reached(c, s0, actions, i, s, t) && At(c, s, w, Joining, WantInner(i, x), held, {c.lockKey(i)})
    ensures s.store == s1.store
    ensures x in s.live
    ensures c.shared ==> c.process(w) in s.current && s.current[c.process(w)] == x
    ensures c.shared && c.process(w) in s1.current ==> s1.current[c.process(w)] == x
    ensures actions0 <= actions
  {
    hide Reached, Run, OuterOnly;
    x := SessionFor(c, s1, w);
    actions, s := AdvanceTask(c, s0, actions0, i, s1, t, w, GetSession);
  }

  lemma TakeInner(c: Config, s0: State, actions0: seq<Action>, s1: State, t: Tally, w: nat, i: nat, x: Session,
      held: Owners)
    returns (actions: seq<Action>, s: State)
    requires Shaped(c, s0) && At(c, s1, w, Joining, WantInner(i, x), held, {c.lockKey(i)}) && x in s1.live
    requires Reached(c, s0, actions0, i, s1, t) && (c.lockKey(i) in held ==> held[c.lockKey(i)] == x)
    ensures Reached(c, s0, actions, i, s, t)
    ensures At(c, s, w, Joining, Locked(i, x), held[c.lockKey(i) := x], {c.lockKey(i)}) && s.store == s1.store
    ensures s.current == s1.current
    ensures actions0 <= actions
  {
    StepTo(c, s1, w, InnerLock);
    hide Reached, Run, OuterOnly, AllLive, TaskStep, NextTask;
    actions, s := AdvanceTask(c, s0, actions0, i, s1, t, w, InnerLock);
  }

  lemma RecheckRule(c: Config, s0: State, actions0: seq<Action>, s1: State, t: Tally, w: nat, i: nat, x: Session)
    returns (actions: seq<Action>, s: State)
    requires Shaped(c, s0) && At(c, s1, w, Joining, Locked(i, x), map[c.lockKey(i) := x], {c.lockKey(i)})
    requires Reached(c, s0, actions0, i, s1, t)
    requires True(c, s1, i)
    ensures Reached(c, s0, actions, i, s, t)
    ensures At(c, s, w, Joining, Committed(i, x), map[c.lockKey(i) := x], {c.lockKey(i)})
  {
    StepTo(c, s1, w, Recheck);
    hide Reached, Run, OuterOnly, AllLive, TaskStep, NextTask;
    actions, s := AdvanceTask(c, s0, actions0, i, s1, t, w, Recheck);
  }

  lemma RunCallback(c: Config, s0: State, actions0: seq<Action>, s1: State, t: Tally, w: nat, i: nat, x: Session,
                    after: S.Store) returns (actions: seq<Action>, s: State)
    requires Shaped(c, s0) && At(c, s1, w, Joining, Committed(i, x), map[c.lockKey(i) := x], {c.lockKey(i)})
    requires Reached(c, s0, actions0, i, s1, t)
    requires !S.Holds(c.rule(i), after)
    ensures Reached(c, s0, actions, i, s, t.(starts := t.starts + 1)) && s.store == after
    ensures At(c, s, w, Joining, Running(i, x), map[c.lockKey(i) := x], {c.lockKey(i)})
  {
    hide Reached, Run, OuterOnly, AllLive;
    actions, s := AdvanceTask(c, s0, actions0, i, s1, t, w, StartCallback);
    actions, s := AdvanceWrite(c, s0, actions, i, s, t.(starts := t.starts + 1), after);
  }

  lemma EndCallback(c: Config, s0: State, actions0: seq<Action>, s1: State, t: Tally, w: nat, i: nat, x: Session)
    returns (actions: seq<Action>, s: State)
    requires Shaped(c, s0) && At(c, s1, w, Joining, Running(i, x), map[c.lockKey(i) := x], {c.lockKey(i)})
    requires Reached(c, s0, actions0, i, s1, t)
    requires !True(c, s1, i)
    ensures Reached(c, s0, actions, i, s, t) && s.store == s1.store
    ensures At(c, s, w, Joining, ReleaseInner(i, x), map[c.lockKey(i) := x], {c.lockKey(i)})
  {
    hide Reached, Run, OuterOnly, AllLive;
    actions, s := AdvanceTask(c, s0, actions0, i, s1, t, w, FinishCallback);
  }

  lemma ReleaseOnly(key: string, x: Session)
    ensures Release(map[key := x], key, x) == map[]
  {
  }

  lemma GiveBackInner(c: Config, s0: State, actions0: seq<Action>, s1: State, t: Tally, w: nat, i: nat, x: Session)
    returns (actions: seq<Action>, s: State)
    requires Shaped(c, s0) && At(c, s1, w, Joining, ReleaseInner(i, x), map[c.lockKey(i) := x], {c.lockKey(i)})
    requires Reached(c, s0, actions0, i, s1, t)
    ensures Reached(c, s0, actions, i, s, t) && At(c, s, w, Joining, ReleaseOuter(i), map[], {c.lockKey(i)})
    ensures s.store == s1.store
  {
    StepTo(c, s1, w, InnerUnlock);
    hide Reached, Run, OuterOnly, AllLive, TaskStep, NextTask, Release;
    ReleaseOnly(c.lockKey(i), x);
    actions, s := AdvanceTask(c, s0, actions0, i, s1, t, w, InnerUnlock);
  }

  lemma GiveBackOuter(c: Config, s0: State, actions0: seq<Action>, s1: State, t: Tally, w: nat, i: nat, held: Owners)
    returns (actions: seq<Action>, s: State)
    requires Shaped(c, s0) && At(c, s1, w, Joining, ReleaseOuter(i), held, {c.lockKey(i)})
    requires Reached(c, s0, actions0, i, s1, t)
    ensures Reached(c, s0, actions, i, s, t) && At(c, s, w, Joining, NoTask, held, {}) && s.store == s1.store
    ensures s.current == s1.current
    ensures actions0 <= actions
  {
    UnlockOnly(c, s1, w, i);
    hide Reached, Run, AllLive, OuterOnly, TaskStep, NextTask, TaskEnabled;
    actions, s := AdvanceTask(c, s0, actions0, i, s1, t, w, OuterUnlock);
  }

  lemma UnlockOnly(c: Config, s: State, w: nat, i: nat)
    requires Shaped(c, s) && w in c.workers && s.task[w] == ReleaseOuter(i) && OuterOnly(c, s.outer, w, {c.lockKey(i)})
    ensures TaskEnabled(c, s, w, OuterUnlock) && NextTask(c, s, w, OuterUnlock) == NoTask
    ensures OuterOnly(c, TaskStep(c, s, w, OuterUnlock).outer, w, {})
  {
    assert {c.lockKey(i)} - {c.lockKey(i)} == {};
  }

  lemma Rejoin(c: Config, s0: State, actions0: seq<Action>, s1: State, t: Tally, w: nat, i: nat, held: Owners)
    returns (actions: seq<Action>, s: State)
    requires Shaped(c, s0) && At(c, s1, w, Joining, NoTask, held, {}) && Reached(c, s0, actions0, i, s1, t)
    ensures Reached(c, s0, actions, i, s, t) && At(c, s, w, Waiting, NoTask, held, {}) && s.store == s1.store
    ensures s.current == s1.current
    ensures actions0 <= actions
  {
    hide Reached, Run, OuterOnly, AllLive;
    actions, s := AdvanceLoop(c, s0, actions0, i, s1, t, w, Join);
    actions, s := AdvanceLoop(c, s0, actions, i, s, t, w, Test);
  }

  /** One work item from its arrival to the next wait, its callback making the rule false. */
  lemma Serve(c: Config, s0: State, actions0: seq<Action>, s1: State, t: Tally, w: nat, i: nat, after: S.Store)
    returns (actions: seq<Action>, s: State)
    requires Shaped(c, s0) && Idle(c, s1, w) && Reached(c, s0, actions0, i, s1, t) && True(c, s1, i)
    requires !S.Holds(c.rule(i), after)
    ensures Reached(c, s0, actions, i, s, t.(starts := t.starts + 1)) && Idle(c, s, w) && s.store == after
  {
    hide Reached, Run, At;
    var x;
    actions, s := Launch(c, s0, actions0, s1, t, w, i, map[]);
    actions, s := CheckRule(c, s0, actions, s, t, w, i, map[]);
    actions, s := TakeOuter(c, s0, actions, s, t, w, i, map[]);
    actions, s, x := TakeSession(c, s0, actions, s, t, w, i, map[]);
    actions, s := TakeInner(c, s0, actions, s, t, w, i, x, map[]);
    actions, s := RecheckRule(c, s0, actions, s, t, w, i, x);
    actions, s := RunCallback(c, s0, actions, s, t, w, i, x, after);
    var served := t.(starts := t.starts + 1);
    actions, s := EndCallback(c, s0, actions, s, served, w, i, x);
    actions, s := GiveBackInner(c, s0, actions, s, served, w, i, x);
    actions, s := GiveBackOuter(c, s0, actions, s, served, w, i, map[]);
    actions, s := Rejoin(c, s0, actions, s, served, w, i, map[]);
  }

  lemma Enable(c: Config, s0: State, actions0: seq<Action>, s1: State, t: Tally, w: nat, i: nat, before: S.Store)
    returns (actions: seq<Action>, s: State)
    requires Shaped(c, s0) && Idle(c, s1, w) && Reached(c, s0, actions0, i, s1, t) && !True(c, s1, i)
    requires S.Holds(c.rule(i), before)
    ensures Reached(c, s0, actions, i, s, t.(rises := t.rises + 1)) && Idle(c, s, w) && s.store == before
  {
    hide Reached, Run, OuterOnly, AllLive;
    actions, s := AdvanceWrite(c, s0, actions0, i, s1, t, before);
  }

  /** The second check fails. */
  lemma FailRecheck(c: Config, s0: State, actions0: seq<Action>, s1: State, t: Tally, w: nat, i: nat, x: Session)
    returns (actions: seq<Action>, s: State)
    requires Shaped(c, s0) && At(c, s1, w, Joining, Locked(i, x), map[c.lockKey(i) := x], {c.lockKey(i)})
    requires Reached(c, s0, actions0, i, s1, t)
    ensures Reached(c, s0, actions, i, s, t) && s.store == s1.store && s.current == s1.current
    ensures At(c, s, w, Joining, ReleaseInner(i, x), map[c.lockKey(i) := x], {c.lockKey(i)})
    ensures actions0 <= actions
  {
    hide Reached, Run, OuterOnly, AllLive, TaskStep;
    actions, s := AdvanceTask(c, s0, actions0, i, s1, t, w, RecheckFails);
  }

  /** The unlock call fails, and etcd still has the key for the session. */
  lemma FailUnlock(c: Config, s0: State, actions0: seq<Action>, s1: State, t: Tally, w: nat, i: nat, x: Session)
    returns (actions: seq<Action>, s: State)
    requires Shaped(c, s0) && At(c, s1, w, Joining, ReleaseInner(i, x), map[c.lockKey(i) := x], {c.lockKey(i)})
    requires Reached(c, s0, actions0, i, s1, t)
    ensures Reached(c, s0, actions, i, s, t) && s.store == s1.store && s.current == s1.current
    ensures At(c, s, w, Joining, ReleaseOuter(i), map[c.lockKey(i) := x], {c.lockKey(i)})
    ensures actions0 <= actions
  {
    hide Reached, Run, OuterOnly, AllLive, TaskStep;
    actions, s := AdvanceTask(c, s0, actions0, i, s1, t, w, InnerUnlockFails);
  }

  /**
   * Why the session lock is reentrant: there is a run in which an unlock fails and leaves the key to
   * the shared session, and a later goroutine of the process takes it again with that session.
   */
  lemma LeftoverIsTakenAgain(c: Config, s0: State, w: nat, i: nat)
    returns (left: seq<Action>, actions: seq<Action>, x: Session)
    requires Init(c, s0) && w in c.workers && c.shared && True(c, s0, i)
    ensures left <= actions && Run(c, s0, left).Some? && Run(c, s0, actions).Some?
    ensures var s := Run(c, s0, left).value; s.task[w].NoTask? && s.owners == map[c.lockKey(i) := x]
    ensures var s := Run(c, s0, actions).value; s.task[w] == Locked(i, x) && s.owners == map[c.lockKey(i) := x]
  {
    hide Run, Reached, At;
    var t, s, key := Tally(0, 0), s0, c.lockKey(i);
    actions, s := Enter(c, s0, w, i);
    assert At(c, s, w, Waiting, NoTask, map[], {});
    actions, s, x := LockOnce(c, s0, actions, s, t, w, i, map[]);
    actions, s := FailRecheck(c, s0, actions, s, t, w, i, x);
    actions, s := FailUnlock(c, s0, actions, s, t, w, i, x);
    actions, s := GiveBackOuter(c, s0, actions, s, t, w, i, map[key := x]);
    left := actions;
    LeftAt(c, s0, left, i, s, t, w, Joining, NoTask, map[key := x], {});
    actions, s := Rejoin(c, s0, actions, s, t, w, i, map[key := x]);
    var y;
    actions, s, y := LockOnce(c, s0, actions, s, t, w, i, map[key := x]);
    LeftAt(c, s0, actions, i, s, t, w, Joining, Locked(i, y), map[key := y], {key});
  }

  lemma LeftAt(c: Config, s0: State, actions: seq<Action>, i: nat, s: State, t: Tally, w: nat, loop: Loop, task: Task,
               owners: Owners, keys: set<string>)
    requires Shaped(c, s0) && Reached(c, s0, actions, i, s, t) && At(c, s, w, loop, task, owners, keys)
    ensures Run(c, s0, actions) == Some(s) && Shaped(c, s) && w in c.workers && s.task[w] == task && s.owners == owners
  {
    hide Run, NoLapse, Count;
  }

  /** From the arrival of a work item to the lock, with the session that the process has if it has one. */
  lemma LockOnce(c: Config, s0: State, actions0: seq<Action>, s1: State, t: Tally, w: nat, i: nat, held: Owners)
    returns (actions: seq<Action>, s: State, x: Session)
    requires Shaped(c, s0) && At(c, s1, w, Waiting, NoTask, held, {}) && Reached(c, s0, actions0, i, s1, t)
    requires True(c, s1, i) && c.shared
    requires forall k :: k in held ==>
      k == c.lockKey(i) && c.process(w) in s1.current && s1.current[c.process(w)] == held[k]
    ensures actions0 <= actions && Reached(c, s0, actions, i, s, t) && s.store == s1.store
    ensures At(c, s, w, Joining, Locked(i, x), map[c.lockKey(i) := x], {c.lockKey(i)})
    ensures c.process(w) in s.current && s.current[c.process(w)] == x
    ensures c.process(w) in s1.current ==> x == s1.current[c.process(w)]
  {
    hide Run, Reached, At;
    actions, s := Launch(c, s0, actions0, s1, t, w, i, held);
    actions, s := CheckRule(c, s0, actions, s, t, w, i, held);
    actions, s := TakeOuter(c, s0, actions, s, t, w, i, held);
    actions, s, x := TakeSession(c, s0, actions, s, t, w, i, held);
    actions, s := TakeInner(c, s0, actions, s, t, w, i, x, held);
    assert held[c.lockKey(i) := x] == map[c.lockKey(i) := x];
  }

  /** n rounds, each of which makes the rule true and runs its callback. */
  lemma {:induction false} ServeAgain(c: Config, s0: State, actions0: seq<Action>, s1: State, t: Tally, w: nat, i: nat,
                                      before: S.Store, after: S.Store, n: nat) returns (actions: seq<Action>, s: State)
    requires Shaped(c, s0) && Idle(c, s1, w) && Reached(c, s0, actions0, i, s1, t) && !True(c, s1, i)
    requires S.Holds(c.rule(i), before) && !S.Holds(c.rule(i), after)
    ensures Reached(c, s0, actions, i, s, Tally(t.starts + n, t.rises + n)) && Idle(c, s, w)
    decreases n
  {
    hide Reached, Run, Idle, S.Holds;
    actions, s := actions0, s1;
    assert Tally(t.starts + 0, t.rises + 0) == t;
    if n > 0 {
      var up := t.(rises := t.rises + 1);
      actions, s := Enable(c, s0, actions, s, t, w, i, before);
      actions, s := Serve(c, s0, actions, s, up, w, i, after);
      actions, s := ServeAgain(c, s0, actions, s, up.(starts := t.starts + 1), w, i, before, after, n - 1);
    }
  }

  /**
   * The bound is tight for every number of enablements, and the protocol does its work: a single
   * worker can run a callback for each of them, and in the end every lock has been given back.
   */
  lemma BoundIsReached(c: Config, s0: State, w: nat, i: nat, before: S.Store, after: S.Store, n: nat)
    returns (actions: seq<Action>)
    requires Init(c, s0) && w in c.workers && S.Holds(c.rule(i), before) && !S.Holds(c.rule(i), after)
    requires True(c, s0, i) ==> n > 0
    ensures Run(c, s0, actions).Some? && NoLapse(c, s0, actions) && Count(c, s0, actions, Unhandled, i) == 0
    ensures Count(c, s0, actions, CallbackStart, i) == n == Bit(True(c, s0, i)) + Count(c, s0, actions, Rise, i)
    ensures var s := Run(c, s0, actions).value; s.task[w].NoTask? && s.owners == map[] && forall p :: Outer(s, p) == {}
  {
    hide Run, NoLapse, Count, Reached, At;
    var s;
    actions, s := Enter(c, s0, w, i);
    if True(c, s0, i) {
      actions, s := Serve(c, s0, actions, s, Tally(0, 0), w, i, after);
      actions, s := ServeAgain(c, s0, actions, s, Tally(1, 0), w, i, before, after, n - 1);
      Tallied(c, s0, actions, i, s, w, Tally(n, n - 1));
    } else {
      actions, s := ServeAgain(c, s0, actions, s, Tally(0, 0), w, i, before, after, n);
      Tallied(c, s0, actions, i, s, w, Tally(n, n));
    }
  }

  lemma Tallied(c: Config, s0: State, actions: seq<Action>, i: nat, s: State, w: nat, t: Tally)
    requires Shaped(c, s0) && Reached(c, s0, actions, i, s, t) && Idle(c, s, w)
    ensures Run(c, s0, actions) == Some(s) && NoLapse(c, s0, actions) && Count(c, s0, actions, Unhandled, i) == 0
    ensures Count(c, s0, actions, CallbackStart, i) == t.starts && Count(c, s0, actions, Rise, i) == t.rises
    ensures Shaped(c, s) && w in c.workers && s.task[w].NoTask? && s.owners == map[] && forall p :: Outer(s, p) == {}
  {
    hide Run, NoLapse, Count;
  }
}
