/**
 * What the lock stack takes it gives back (rules/lock, rules/worker.go): exact accounts of the map
 * locks and of the etcd mutexes over every interleaving, so that no failure leaves a key locked
 * that nobody is going to unlock.
 */
module Conservation {
  import opened Base
  import opened Locks
  import opened WorkerProtocol
  import opened MutualExclusion
  import opened AtMostOnce

  // ---------------------------------------------------------------------------
  // The map locks

  /** Some goroutine of process p has the map lock of the key. */
  ghost predicate HeldBy(c: Config, s: State, p: nat, key: string)
    requires Shaped(c, s)
  {
    exists w :: w in c.workers && c.process(w) == p && OuterHeld(s.task[w]) && Key(c, s.task[w]) == key
  }

  /** Nothing is locked that no goroutine is going to unlock. */
  ghost predicate OuterAccount(c: Config, s: State)
    requires Shaped(c, s)
  {
    forall p, key :: key in Outer(s, p) ==> c.shared && HeldBy(c, s, p, key)
  }

  /** A goroutine is past the map lock from its acquisition to its release, for one work item. */
  lemma OuterPhases(c: Config, s: State, w: nat, op: TaskOp)
    requires Shaped(c, s) && w in c.workers && TaskEnabled(c, s, w, op)
    ensures var t, next := s.task[w], NextTask(c, s, w, op);
      && (OuterHeld(next) <==> op.OuterLock? || (OuterHeld(t) && !op.OuterUnlock?))
      && (OuterHeld(next) ==> !t.NoTask? && next.inst == t.inst)
  {
  }

  lemma TaskKeepsOuterAccount(c: Config, s: State, w: nat, op: TaskOp)
    requires Shaped(c, s) && OuterAccount(c, s) && w in c.workers && TaskEnabled(c, s, w, op)
    ensures OuterAccount(c, TaskStep(c, s, w, op))
  {
    OuterPhases(c, s, w, op);
    if op.OuterLock? || op.OuterUnlock? { OuterToggled(c, s, w, op); }
    var next := TaskStep(c, s, w, op);
    ToggleUnshared(c, s, w, op);
    hide TaskStep, NextTask, TaskEnabled, OuterHeld, Outer;
    forall p, key | key in Outer(next, p) ensures c.shared && HeldBy(c, next, p, key) {
      if p == c.process(w) && op.OuterLock? && key == Key(c, s.task[w]) {
        assert OuterHeld(next.task[w]) && Key(c, next.task[w]) == key;
      } else {
        assert key in Outer(s, p);
        var x :| x in c.workers && c.process(x) == p && OuterHeld(s.task[x]) && Key(c, s.task[x]) == key;
        assert OuterHeld(next.task[x]) && Key(c, next.task[x]) == key;
      }
    }
  }

  /** Without a shared session there is no map lock; and other steps leave it alone. */
  lemma ToggleUnshared(c: Config, s: State, w: nat, op: TaskOp)
    requires Shaped(c, s) && w in c.workers && TaskEnabled(c, s, w, op)
    ensures !c.shared || !(op.OuterLock? || op.OuterUnlock?) ==>
      forall p :: Outer(TaskStep(c, s, w, op), p) == Outer(s, p)
  {
  }

  lemma LoopKeepsOuterAccount(c: Config, s: State, w: nat, op: LoopOp)
    requires Shaped(c, s) && OuterAccount(c, s) && JoinInv(c, s) && w in c.workers && LoopEnabled(c, s, w, op)
    ensures OuterAccount(c, LoopStep(c, s, w, op))
  {
    LoopMovesNobody(c, s, w, op);
    hide LoopStep, LoopEnabled;
    var next := LoopStep(c, s, w, op);
    forall p, key | key in Outer(next, p) ensures c.shared && HeldBy(c, next, p, key) {
      assert key in Outer(s, p);
      var x :| x in c.workers && c.process(x) == p && OuterHeld(s.task[x]) && Key(c, s.task[x]) == key;
      assert next.task[x] == s.task[x];
    }
  }

  /** A loop touches no goroutine but one that it launches, when there is none. */
  lemma LoopMovesNobody(c: Config, s: State, w: nat, op: LoopOp)
    requires Shaped(c, s) && JoinInv(c, s) && w in c.workers && LoopEnabled(c, s, w, op)
    ensures var next := LoopStep(c, s, w, op);
      forall x :: x in c.workers && !s.task[x].NoTask? ==> next.task[x] == s.task[x]
  {
    hide LoopStep;
    assert op.CheckStop? ==> s.task[w].NoTask?;
  }

  lemma WorldKeepsOuterAccount(c: Config, s: State, op: WorldOp)
    requires Shaped(c, s) && OuterAccount(c, s) && WorldEnabled(c, s, op)
    ensures OuterAccount(c, WorldStep(c, s, op))
  {
    var next := WorldStep(c, s, op);
    assert next.outer == s.outer;
    hide WorldStep, WorldEnabled;
    forall p, key | key in Outer(next, p) ensures c.shared && HeldBy(c, next, p, key) {
      assert key in Outer(s, p);
      assert HeldBy(c, s, p, key);
    }
  }

  lemma {:induction false} ReachableOuterAccount(c: Config, s0: State, actions: seq<Action>)
    requires Init(c, s0) && Run(c, s0, actions).Some?
    ensures var s := Run(c, s0, actions).value; JoinInv(c, s) && OuterAccount(c, s)
    decreases |actions|
  {
    hide JoinInv, OuterAccount, Apply, Enabled;
    if actions == [] {
      InitAccount(c, s0);
    } else {
      var n := |actions| - 1;
      ReachableOuterAccount(c, s0, actions[..n]);
      StepKeepsJoin(c, Run(c, s0, actions[..n]).value, actions[n]);
      StepKeepsOuterAccount(c, Run(c, s0, actions[..n]).value, actions[n]);
    }
  }

  lemma InitAccount(c: Config, s0: State)
    requires Init(c, s0)
    ensures JoinInv(c, s0) && OuterAccount(c, s0)
  {
  }

  lemma StepKeepsOuterAccount(c: Config, s: State, a: Action)
    requires Shaped(c, s) && OuterAccount(c, s) && JoinInv(c, s) && Enabled(c, s, a)
    ensures OuterAccount(c, Apply(c, s, a))
  {
    hide TaskStep, LoopStep, WorldStep, TaskEnabled, LoopEnabled, WorldEnabled, OuterAccount, JoinInv;
    match a {
      case OfLoop(w, op) => LoopKeepsOuterAccount(c, s, w, op);
      case OfTask(w, op) => TaskKeepsOuterAccount(c, s, w, op);
      case OfWorld(op) => WorldKeepsOuterAccount(c, s, op);
    }
  }

  /**
   * The account of the map locks is exact: in every reachable state, whatever has failed on the way,
   * a key is locked in a process if and only if one of its goroutines is past the lock of that key.
   */
  lemma MapLockExact(c: Config, s0: State, actions: seq<Action>, p: nat, key: string)
    requires Init(c, s0) && Run(c, s0, actions).Some?
    ensures var s := Run(c, s0, actions).value; key in Outer(s, p) <==> c.shared && HeldBy(c, s, p, key)
  {
    ReachableInv(c, s0, actions);
    ReachableOuterAccount(c, s0, actions);
    hide Run, Init;
  }

  /**
   * A failed acquisition costs nothing: whatever the failed call left in etcd, once the goroutine has
   * given the map lock back, the next goroutine of the process that wants the key can take it.
   */
  lemma RetryAfterFailure(c: Config, s0: State, actions: seq<Action>, w: nat, after: Owners, x: nat)
    requires Init(c, s0) && Run(c, s0, actions).Some? && w in c.workers && x in c.workers && w != x
    requires var s := Run(c, s0, actions).value; s.task[w].WantInner? && s.task[x].WantOuter?
    requires var s := Run(c, s0, actions).value; TaskEnabled(c, s, w, InnerFails(after))
    requires var s := Run(c, s0, actions).value; Key(c, s.task[x]) == Key(c, s.task[w]) && c.process(x) == c.process(w)
    ensures var failed := TaskStep(c, Run(c, s0, actions).value, w, InnerFails(after));
      && TaskEnabled(c, failed, w, OuterUnlock)
      && TaskEnabled(c, TaskStep(c, failed, w, OuterUnlock), x, OuterLock)
  {
    var s := Run(c, s0, actions).value;
    ReachableInv(c, s0, actions);
    hide Run, Init;
    FailureReleases(c, s, w, after, x);
  }

  lemma FailureReleases(c: Config, s: State, w: nat, after: Owners, x: nat)
    requires Shaped(c, s) && w in c.workers && x in c.workers && w != x
    requires s.task[w].WantInner? && s.task[x].WantOuter? && TaskEnabled(c, s, w, InnerFails(after))
    requires Key(c, s.task[x]) == Key(c, s.task[w]) && c.process(x) == c.process(w)
    ensures var failed := TaskStep(c, s, w, InnerFails(after));
      && TaskEnabled(c, failed, w, OuterUnlock)
      && TaskEnabled(c, TaskStep(c, failed, w, OuterUnlock), x, OuterLock)
  {
    var failed := TaskStep(c, s, w, InnerFails(after));
    OuterToggled(c, failed, w, OuterUnlock);
    hide TaskStep;
    assert TaskStep(c, failed, w, OuterUnlock).task[x] == s.task[x];
  }

  // ---------------------------------------------------------------------------
  // The etcd mutexes

  /** Only live sessions own keys, and sessions are numbered. */
  ghost predicate OwnersLive(s: State) {
    && (forall k :: k in s.owners ==> s.owners[k] in s.live)
    && (forall x :: x in s.live ==> x.id < s.nextSession)
  }

  lemma StepKeepsOwnersLive(c: Config, s: State, a: Action)
    requires Shaped(c, s) && OwnersLive(s) && Enabled(c, s, a)
    ensures OwnersLive(Apply(c, s, a))
  {
    hide LoopStep, TaskStep, WorldStep, TaskEnabled, LoopEnabled, WorldEnabled;
    match a {
      case OfLoop(w, op) =>
      case OfTask(w, op) => TaskKeepsOwnersLive(c, s, w, op);
      case OfWorld(op) => WorldKeepsOwnersLive(c, s, op);
    }
  }

  lemma WorldKeepsOwnersLive(c: Config, s: State, op: WorldOp)
    requires OwnersLive(s) && WorldEnabled(c, s, op)
    ensures OwnersLive(WorldStep(c, s, op))
  {
  }

  lemma TaskKeepsOwnersLive(c: Config, s: State, w: nat, op: TaskOp)
    requires Shaped(c, s) && OwnersLive(s) && w in c.workers && TaskEnabled(c, s, w, op)
    ensures OwnersLive(TaskStep(c, s, w, op))
  {
    if op.GetSession? || op.InnerLock? || op.InnerFails? || op.InnerUnlock? {
      hide NextTask;
    } else {
      hide TaskStep;
    }
  }

  /** A goroutine that holds the mutex of the key with this session. */
  ghost predicate MutexHeld(c: Config, s: State, key: string, x: Session)
    requires Shaped(c, s)
  {
    exists w :: w in c.workers && Holding(s.task[w]) && Key(c, s.task[w]) == key && s.task[w].session == x
  }

  ghost predicate InnerAccount(c: Config, s: State)
    requires Shaped(c, s)
  {
    forall key :: key in s.owners ==> MutexHeld(c, s, key, s.owners[key])
  }

  /** An action that leaves a key owned behind the back of its goroutine: the call failed, or its answer was lost. */
  ghost predicate Leaks(c: Config, s: State, a: Action)
    requires Shaped(c, s) && Enabled(c, s, a)
  {
    a.OfTask? && (a.t.InnerUnlockFails? || (a.t.InnerFails? && !(a.t.after.Keys <= s.owners.Keys)))
  }

  /** A goroutine holds the mutex from its acquisition to its release, with one session for one work item. */
  lemma InnerPhases(c: Config, s: State, w: nat, op: TaskOp)
    requires Shaped(c, s) && w in c.workers && TaskEnabled(c, s, w, op)
    ensures var t, next := s.task[w], NextTask(c, s, w, op);
      && (Holding(next) <==> op.InnerLock? || (Holding(t) && !op.InnerUnlock? && !op.InnerUnlockFails?))
      && (Holding(next) ==> HasSession(t) && next.inst == t.inst && next.session == t.session)
  {
  }

  /** What a step other than a leak does to the owners. */
  lemma OwnersTaken(c: Config, s: State, w: nat, op: TaskOp, key: string)
    requires Shaped(c, s) && w in c.workers && TaskEnabled(c, s, w, op) && !Leaks(c, s, OfTask(w, op))
    requires key in TaskStep(c, s, w, op).owners
    ensures var t, next := s.task[w], TaskStep(c, s, w, op);
      || (op.InnerLock? && key == c.lockKey(t.inst) && next.owners[key] == t.session)
      || (key in s.owners && next.owners[key] == s.owners[key]
          && !(op.InnerUnlock? && key == c.lockKey(t.inst) && s.owners[key] == t.session))
  {
    if op.InnerLock? || op.InnerFails? || op.InnerUnlock? {
      hide NextTask;
    } else {
      hide TaskStep;
    }
  }

  lemma TaskKeepsInnerAccount(c: Config, s: State, w: nat, op: TaskOp)
    requires Shaped(c, s) && InnerAccount(c, s) && w in c.workers && TaskEnabled(c, s, w, op)
    requires !Leaks(c, s, OfTask(w, op))
    ensures InnerAccount(c, TaskStep(c, s, w, op))
  {
    var next := TaskStep(c, s, w, op);
    InnerPhases(c, s, w, op);
    forall key | key in next.owners ensures MutexHeld(c, next, key, next.owners[key]) {
      OwnersTaken(c, s, w, op, key);
      hide TaskStep, NextTask, TaskEnabled, Holding;
      if op.InnerLock? && key == Key(c, s.task[w]) && next.owners[key] == s.task[w].session {
        assert Holding(next.task[w]) && Key(c, next.task[w]) == key;
      } else {
        assert MutexHeld(c, s, key, s.owners[key]);
        var x :| x in c.workers && Holding(s.task[x]) && Key(c, s.task[x]) == key && s.task[x].session == s.owners[key];
        assert Holding(next.task[x]) && Key(c, next.task[x]) == key;
      }
    }
  }

  lemma OthersKeepInnerAccount(c: Config, s: State, a: Action)
    requires Shaped(c, s) && InnerAccount(c, s) && JoinInv(c, s) && Enabled(c, s, a) && !a.OfTask?
    ensures InnerAccount(c, Apply(c, s, a))
  {
    var next := Apply(c, s, a);
    OthersHold(c, s, a);
    hide Apply, Enabled, Holding, JoinInv;
    forall key | key in next.owners ensures MutexHeld(c, next, key, next.owners[key]) {
      assert MutexHeld(c, s, key, s.owners[key]);
      var x :| x in c.workers && Holding(s.task[x]) && Key(c, s.task[x]) == key && s.task[x].session == s.owners[key];
      assert next.task[x] == s.task[x];
    }
  }

  /** Loops and the rest of the world give no key to anyone and leave the holders alone. */
  lemma OthersHold(c: Config, s: State, a: Action)
    requires Shaped(c, s) && JoinInv(c, s) && Enabled(c, s, a) && !a.OfTask?
    ensures var next := Apply(c, s, a);
      forall key :: key in next.owners ==> key in s.owners && next.owners[key] == s.owners[key]
    ensures forall x :: x in c.workers && Holding(s.task[x]) ==> Apply(c, s, a).task[x] == s.task[x]
  {
    if a.OfLoop? {
      LoopMovesNobody(c, s, a.w, a.l);
      hide LoopStep, LoopEnabled;
    } else {
      WorldTakesOnly(c, s, a.o);
      hide WorldStep, WorldEnabled;
    }
  }

  lemma WorldTakesOnly(c: Config, s: State, op: WorldOp)
    requires WorldEnabled(c, s, op)
    ensures var next := WorldStep(c, s, op);
      forall key :: key in next.owners ==> key in s.owners && next.owners[key] == s.owners[key]
  {
  }

  /**
   * Leaks are real: a failed acquisition may have taken a free key for its session, or have given back
   * one that the session owned, and in both cases the goroutine goes on without the lock.
   */
  lemma FailureIsAmbiguous(c: Config, s: State, w: nat)
    requires Shaped(c, s) && w in c.workers && s.task[w].WantInner? && s.task[w].session in s.live
    ensures var key, x := Key(c, s.task[w]), s.task[w].session;
      && (key !in s.owners ==>
            var a := InnerFails(s.owners[key := x]);
            && TaskEnabled(c, s, w, a) && Leaks(c, s, OfTask(w, a)) && !Holding(NextTask(c, s, w, a))
            && TaskStep(c, s, w, a).owners == s.owners[key := x])
      && (key in s.owners && s.owners[key] == x ==>
            var a := InnerFails(s.owners - {key});
            TaskEnabled(c, s, w, a) && key !in TaskStep(c, s, w, a).owners)
  {
  }

  ghost predicate NoLeak(c: Config, s0: State, actions: seq<Action>)
    requires Shaped(c, s0) && Run(c, s0, actions).Some?
    decreases |actions|
  {
    actions == [] ||
    var n := |actions| - 1;
    NoLeak(c, s0, actions[..n]) && !Leaks(c, Run(c, s0, actions[..n]).value, actions[n])
  }

  lemma {:induction false} ReachableOwnersLive(c: Config, s0: State, actions: seq<Action>)
    requires Init(c, s0) && Run(c, s0, actions).Some?
    ensures OwnersLive(Run(c, s0, actions).value)
    decreases |actions|
  {
    hide Apply, Enabled;
    if actions != [] {
      var n := |actions| - 1;
      ReachableOwnersLive(c, s0, actions[..n]);
      StepKeepsOwnersLive(c, Run(c, s0, actions[..n]).value, actions[n]);
    }
  }

  lemma {:induction false} ReachableInnerAccount(c: Config, s0: State, actions: seq<Action>)
    requires Init(c, s0) && Run(c, s0, actions).Some? && NoLeak(c, s0, actions)
    ensures InnerAccount(c, Run(c, s0, actions).value)
    decreases |actions|
  {
    hide Apply, Enabled, Leaks, InnerAccount;
    if actions == [] {
      InitInner(c, s0);
    } else {
      var n := |actions| - 1;
      ReachableInnerAccount(c, s0, actions[..n]);
      ReachableOuterAccount(c, s0, actions[..n]);
      StepKeepsInnerAccount(c, Run(c, s0, actions[..n]).value, actions[n]);
    }
  }

  lemma InitInner(c: Config, s0: State)
    requires Init(c, s0)
    ensures InnerAccount(c, s0)
  {
  }

  lemma StepKeepsInnerAccount(c: Config, s: State, a: Action)
    requires Shaped(c, s) && InnerAccount(c, s) && JoinInv(c, s) && Enabled(c, s, a) && !Leaks(c, s, a)
    ensures InnerAccount(c, Apply(c, s, a))
  {
    hide InnerAccount, JoinInv, Leaks, TaskStep, TaskEnabled;
    if a.OfTask? { TaskKeepsInnerAccount(c, s, a.w, a.t); } else { OthersKeepInnerAccount(c, s, a); }
  }

  /**
   * The account of the etcd mutexes is exact: in every state reached without a failed unlock and
   * without a lost answer, a key is owned if and only if a goroutine holds its lock with a live
   * session, and by that session.
   */
  lemma MutexExact(c: Config, s0: State, actions: seq<Action>, key: string)
    requires Init(c, s0) && Run(c, s0, actions).Some? && NoLeak(c, s0, actions)
    ensures var s := Run(c, s0, actions).value;
      && (key in s.owners <==> exists x :: x in s.live && MutexHeld(c, s, key, x))
      && (key in s.owners ==> MutexHeld(c, s, key, s.owners[key]))
  {
    ReachableInv(c, s0, actions);
    ReachableInnerAccount(c, s0, actions);
    ReachableOwnersLive(c, s0, actions);
    hide Run, Init, NoLeak, OuterInv, SessionInv;
  }

  // ---------------------------------------------------------------------------
  // Sessions

  /** A session that is gone stays gone. */
  lemma StepKeepsDead(c: Config, s: State, a: Action, x: Session)
    requires Shaped(c, s) && Enabled(c, s, a) && x !in s.live && x.id < s.nextSession
    ensures var next := Apply(c, s, a); x !in next.live && x.id < next.nextSession
  {
    hide LoopStep, TaskStep, WorldStep, TaskEnabled, LoopEnabled, WorldEnabled;
    match a {
      case OfLoop(w, op) =>
      case OfTask(w, op) => if op.GetSession? { SessionMade(c, s, w); }
      case OfWorld(op) => WorldMakesNone(c, s, op);
    }
  }

  /** Asking for a session makes at most one, with the next number. */
  lemma SessionMade(c: Config, s: State, w: nat)
    requires Shaped(c, s) && w in c.workers && TaskEnabled(c, s, w, GetSession)
    ensures var next := TaskStep(c, s, w, GetSession);
      && s.nextSession <= next.nextSession && next.owners == s.owners
      && (forall x :: x in next.live && x !in s.live ==> x.id == s.nextSession)
      && (forall p :: p in s.current ==> p in next.current && next.current[p] == s.current[p])
  {
    hide NextTask;
  }

  lemma WorldMakesNone(c: Config, s: State, op: WorldOp)
    requires WorldEnabled(c, s, op)
    ensures var next := WorldStep(c, s, op); next.live <= s.live && next.nextSession == s.nextSession
  {
  }

  lemma {:induction false} DeadStaysDead(c: Config, s0: State, actions: seq<Action>, k: nat, x: Session)
    requires Shaped(c, s0) && Run(c, s0, actions).Some? && k <= |actions| && Run(c, s0, actions[..k]).Some?
    requires var s := Run(c, s0, actions[..k]).value; x !in s.live && x.id < s.nextSession
    ensures var s := Run(c, s0, actions).value; x !in s.live && x.id < s.nextSession
    decreases |actions|
  {
    hide Apply, Enabled;
    if k == |actions| {
      assert actions[..k] == actions;
    } else {
      var n := |actions| - 1;
      assert actions[..n][..k] == actions[..k];
      DeadStaysDead(c, s0, actions[..n], k, x);
      StepKeepsDead(c, Run(c, s0, actions[..n]).value, actions[n], x);
    }
  }

  /**
   * The death of a session frees its keys for good: from the step on in which it dies, the session is
   * never live again and owns nothing, however the run goes on.
   */
  lemma DeathFreesKeys(c: Config, s0: State, actions: seq<Action>, k: nat, x: Session, key: string)
    requires Init(c, s0) && Run(c, s0, actions).Some? && k < |actions| && actions[k] == OfWorld(SessionDies(x))
    ensures var s := Run(c, s0, actions).value; x !in s.live && !(key in s.owners && s.owners[key] == x)
  {
    hide Run;
    Dies(c, s0, actions, k, x);
    DeadStaysDead(c, s0, actions, k + 1, x);
    ReachableOwnersLive(c, s0, actions);
  }

  lemma Dies(c: Config, s0: State, actions: seq<Action>, k: nat, x: Session)
    requires Init(c, s0) && Run(c, s0, actions).Some? && k < |actions| && actions[k] == OfWorld(SessionDies(x))
    ensures Run(c, s0, actions[..k + 1]).Some?
    ensures var s := Run(c, s0, actions[..k + 1]).value; x !in s.live && x.id < s.nextSession
  {
    RunPrefix(c, s0, actions, k + 1);
    assert actions[..k + 1][..k] == actions[..k];
    ReachableOwnersLive(c, s0, actions[..k]);
  }

  /** A process keeps its shared session until it is cleared. */
  lemma StepKeepsCurrent(c: Config, s: State, a: Action, p: nat)
    requires Shaped(c, s) && Enabled(c, s, a) && p in s.current && a != OfWorld(ClearSession(p))
    ensures var next := Apply(c, s, a); p in next.current && next.current[p] == s.current[p]
  {
    hide LoopStep, TaskStep, WorldStep, TaskEnabled, LoopEnabled, WorldEnabled;
    match a {
      case OfLoop(w, op) =>
      case OfTask(w, op) => if op.GetSession? { SessionMade(c, s, w); }
      case OfWorld(op) => WorldClears(c, s, op, p);
    }
  }

  lemma WorldClears(c: Config, s: State, op: WorldOp, p: nat)
    requires WorldEnabled(c, s, op) && p in s.current && op != ClearSession(p)
    ensures var next := WorldStep(c, s, op); p in next.current && next.current[p] == s.current[p]
  {
  }

  /**
   * Who asks for a session gets the process's current one, which it keeps until it is cleared; the
   * first to ask after that, and everyone who does not share, gets a new and live one.
   */
  lemma SessionGiven(c: Config, s: State, w: nat)
    requires Shaped(c, s) && OwnersLive(s) && w in c.workers && TaskEnabled(c, s, w, GetSession)
    ensures var p, next := c.process(w), TaskStep(c, s, w, GetSession);
      && next.task[w].WantInner? && next.task[w].inst == s.task[w].inst
      && (c.shared ==> p in next.current && next.task[w].session == next.current[p])
      && (c.shared && p in s.current ==> next.task[w].session == s.current[p] && next.live == s.live)
      && (!c.shared || p !in s.current ==>
            next.task[w].session !in s.live && next.live == s.live + {next.task[w].session})
  {
  }

  /** Clearing a session lets go of it: the next of the process's goroutines to ask gets a new one. */
  lemma ClearedIsRenewed(c: Config, s: State, p: nat, w: nat)
    requires Shaped(c, s) && OwnersLive(s) && p in s.current && w in c.workers && c.process(w) == p
    requires s.task[w].WantSession?
    ensures var cleared := WorldStep(c, s, ClearSession(p));
      && p !in cleared.current && Shaped(c, cleared) && TaskEnabled(c, cleared, w, GetSession)
      && var next := TaskStep(c, cleared, w, GetSession);
         next.task[w].session !in s.live && next.task[w].session in next.live
  {
    var cleared := WorldStep(c, s, ClearSession(p));
    assert OwnersLive(cleared) && cleared.live == s.live;
    SessionGiven(c, cleared, w);
  }

  lemma {:induction false} RunKeepsCurrent(c: Config, s0: State, actions: seq<Action>, k: nat, p: nat)
    requires Shaped(c, s0) && Run(c, s0, actions).Some? && k <= |actions| && Run(c, s0, actions[..k]).Some?
    requires p in Run(c, s0, actions[..k]).value.current
    requires forall j :: k <= j < |actions| ==> actions[j] != OfWorld(ClearSession(p))
    ensures p in Run(c, s0, actions).value.current
    ensures Run(c, s0, actions).value.current[p] == Run(c, s0, actions[..k]).value.current[p]
    decreases |actions|
  {
    hide Apply, Enabled;
    if k == |actions| {
      assert actions[..k] == actions;
    } else {
      var n := |actions| - 1;
      assert actions[..n][..k] == actions[..k];
      RunKeepsCurrent(c, s0, actions[..n], k, p);
      StepKeepsCurrent(c, Run(c, s0, actions[..n]).value, actions[n], p);
    }
  }
}
