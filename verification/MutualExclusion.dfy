/**
 * Mutual exclusion of the lock stack (rules/lock, composed in rules/engine.go), in every state
 * that any interleaving can reach.
 */
module MutualExclusion {
  import opened Locks
  import opened WorkerProtocol

  ghost function Key(c: Config, t: Task): string
    requires !t.NoTask?
  {
    c.lockKey(t.inst)
  }

  /** Within a process, the map lock admits one goroutine per key, from before the session to after the unlock. */
  ghost predicate OuterInv(c: Config, s: State)
    requires Shaped(c, s)
  {
    c.shared ==>
      && (forall w :: w in c.workers && OuterHeld(s.task[w]) ==> Key(c, s.task[w]) in Outer(s, c.process(w)))
      && (forall w, x ::
            && w in c.workers && x in c.workers && w != x && c.process(w) == c.process(x)
            && OuterHeld(s.task[w]) && OuterHeld(s.task[x]) ==>
            Key(c, s.task[w]) != Key(c, s.task[x]))
  }

  /** Sessions belong to their process; without sharing, every acquisition has its own. */
  ghost predicate SessionInv(c: Config, s: State)
    requires Shaped(c, s)
  {
    && (forall w :: w in c.workers && HasSession(s.task[w]) ==>
          s.task[w].session.id < s.nextSession && s.task[w].session.process == c.process(w))
    && (forall w, x ::
          && w in c.workers && x in c.workers && w != x && !c.shared
          && HasSession(s.task[w]) && HasSession(s.task[x]) ==>
          s.task[w].session != s.task[x].session)
    && (forall p :: p in s.current ==> s.current[p].process == p && s.current[p].id < s.nextSession)
  }

  /** A goroutine that holds the lock with a live session owns the key in etcd. */
  ghost predicate OwnerInv(c: Config, s: State)
    requires Shaped(c, s)
  {
    forall w :: w in c.workers && Holding(s.task[w]) && s.task[w].session in s.live ==>
      Key(c, s.task[w]) in s.owners && s.owners[Key(c, s.task[w])] == s.task[w].session
  }

  ghost predicate Inv(c: Config, s: State)
    requires Shaped(c, s)
  {
    OuterInv(c, s) && SessionInv(c, s) && OwnerInv(c, s)
  }

  /** No two goroutines that could touch the same key's ownership have the same session. */
  lemma SessionsApart(c: Config, s: State, w: nat, x: nat)
    requires Shaped(c, s) && OuterInv(c, s) && SessionInv(c, s)
    requires w in c.workers && x in c.workers && w != x && HasSession(s.task[w]) && HasSession(s.task[x])
    requires Key(c, s.task[w]) == Key(c, s.task[x])
    ensures s.task[w].session != s.task[x].session
  {
  }

  /** Steps that take no outer lock and give none back. */
  lemma OuterUnchanged(c: Config, s: State, next: State)
    requires Shaped(c, s) && Shaped(c, next) && OuterInv(c, s) && next.outer == s.outer
    requires forall x :: x in c.workers && OuterHeld(next.task[x]) ==>
      OuterHeld(s.task[x]) && next.task[x].inst == s.task[x].inst
    ensures OuterInv(c, next)
  {
  }

  lemma TaskKeepsOuter(c: Config, s: State, w: nat, op: TaskOp)
    requires Shaped(c, s) && OuterInv(c, s) && w in c.workers && TaskEnabled(c, s, w, op)
    ensures OuterInv(c, TaskStep(c, s, w, op))
  {
    if op.OuterLock? {
      OuterLockKeeps(c, s, w);
    } else if op.OuterUnlock? {
      OuterUnlockKeeps(c, s, w);
    } else {
      if OuterHeld(NextTask(c, s, w, op)) { OuterTasks(c, s, w, op); }
      hide TaskStep, NextTask, TaskEnabled, OuterHeld, OuterInv;
      OuterUnchanged(c, s, TaskStep(c, s, w, op));
    }
  }

  lemma OuterTasks(c: Config, s: State, w: nat, op: TaskOp)
    requires Shaped(c, s) && w in c.workers && TaskEnabled(c, s, w, op) && !op.OuterLock?
    requires OuterHeld(NextTask(c, s, w, op))
    ensures OuterHeld(s.task[w]) && NextTask(c, s, w, op).inst == s.task[w].inst
  {
  }

  lemma OuterLockKeeps(c: Config, s: State, w: nat)
    requires Shaped(c, s) && OuterInv(c, s) && w in c.workers && TaskEnabled(c, s, w, OuterLock)
    ensures OuterInv(c, TaskStep(c, s, w, OuterLock))
  {
    OuterToggled(c, s, w, OuterLock);
    hide TaskStep, NextTask, TaskEnabled, Outer, OuterHeld;
    var next := TaskStep(c, s, w, OuterLock);
    forall x | x in c.workers && x != w ensures next.task[x] == s.task[x] {}
    if c.shared {
      var p, key := c.process(w), Key(c, s.task[w]);
      forall x | x in c.workers && x != w && OuterHeld(s.task[x]) && c.process(x) == p
        ensures Key(c, s.task[x]) != key {}
    }
  }

  lemma OuterUnlockKeeps(c: Config, s: State, w: nat)
    requires Shaped(c, s) && OuterInv(c, s) && w in c.workers && TaskEnabled(c, s, w, OuterUnlock)
    ensures OuterInv(c, TaskStep(c, s, w, OuterUnlock))
  {
    OuterToggled(c, s, w, OuterUnlock);
    hide TaskStep, NextTask, TaskEnabled, Outer, OuterHeld;
    var next := TaskStep(c, s, w, OuterUnlock);
    assert forall x :: x in c.workers && x != w ==> next.task[x] == s.task[x];
  }

  /** What the two steps at the map lock do to it. */
  lemma OuterToggled(c: Config, s: State, w: nat, op: TaskOp)
    requires Shaped(c, s) && w in c.workers && TaskEnabled(c, s, w, op) && (op.OuterLock? || op.OuterUnlock?)
    ensures !s.task[w].NoTask?
    ensures NextTask(c, s, w, op) == (if op.OuterLock? then WantSession(s.task[w].inst) else NoTask)
    ensures OuterHeld(s.task[w]) == op.OuterUnlock? && OuterHeld(NextTask(c, s, w, op)) == op.OuterLock?
    ensures c.shared ==>
      var p, key := c.process(w), Key(c, s.task[w]);
      && (op.OuterLock? ==> key !in Outer(s, p))
      && forall q :: Outer(TaskStep(c, s, w, op), q) ==
           if q != p then Outer(s, q) else if op.OuterLock? then Outer(s, p) + {key} else Outer(s, p) - {key}
  {
  }

  lemma TaskKeepsSessions(c: Config, s: State, w: nat, op: TaskOp)
    requires Shaped(c, s) && SessionInv(c, s) && w in c.workers && TaskEnabled(c, s, w, op)
    ensures SessionInv(c, TaskStep(c, s, w, op))
  {
    var next := TaskStep(c, s, w, op);
    if op.GetSession? {
      GetSessionKeeps(c, s, w);
    } else {
      assert next.current == s.current && next.nextSession == s.nextSession;
      SessionsUnchanged(c, s, next);
    }
  }

  lemma GetSessionKeeps(c: Config, s: State, w: nat)
    requires Shaped(c, s) && SessionInv(c, s) && w in c.workers && TaskEnabled(c, s, w, GetSession)
    ensures SessionInv(c, TaskStep(c, s, w, GetSession))
  {
    SessionObtained(c, s, w);
    hide TaskStep, NextTask, SessionFor, TaskEnabled, HasSession;
    var next := TaskStep(c, s, w, GetSession);
    forall x | x in c.workers && x != w ensures next.task[x] == s.task[x] {}
    forall x | x in c.workers && HasSession(next.task[x])
      ensures next.task[x].session.id < next.nextSession && next.task[x].session.process == c.process(x)
    {
    }
  }

  /** The session of an acquisition belongs to the process, and is new unless it is shared. */
  lemma SessionObtained(c: Config, s: State, w: nat)
    requires Shaped(c, s) && SessionInv(c, s) && w in c.workers && TaskEnabled(c, s, w, GetSession)
    ensures var x, next := SessionFor(c, s, w), TaskStep(c, s, w, GetSession);
      && next.task[w] == WantInner(s.task[w].inst, x) && x.process == c.process(w) && x.id < next.nextSession
      && s.nextSession <= next.nextSession && (!c.shared ==> x.id == s.nextSession)
      && (forall p :: p in next.current ==> next.current[p].process == p && next.current[p].id < next.nextSession)
  {
  }

  lemma TaskKeepsOwners(c: Config, s: State, w: nat, op: TaskOp)
    requires Shaped(c, s) && Inv(c, s) && w in c.workers && TaskEnabled(c, s, w, op)
    ensures OwnerInv(c, TaskStep(c, s, w, op))
  {
    var next := TaskStep(c, s, w, op);
    forall x | x in c.workers && Holding(next.task[x]) && next.task[x].session in next.live
      ensures Key(c, next.task[x]) in next.owners && next.owners[Key(c, next.task[x])] == next.task[x].session
    {
      if x == w {
        StillOwned(c, s, w, op);
      } else {
        OthersOwned(c, s, w, op, x);
      }
    }
  }

  lemma StillOwned(c: Config, s: State, w: nat, op: TaskOp)
    requires Shaped(c, s) && Inv(c, s) && w in c.workers && TaskEnabled(c, s, w, op)
    requires var t := TaskStep(c, s, w, op).task[w]; Holding(t) && t.session in TaskStep(c, s, w, op).live
    ensures var next := TaskStep(c, s, w, op);
      Key(c, next.task[w]) in next.owners && next.owners[Key(c, next.task[w])] == next.task[w].session
  {
    HoldingSteps(c, s, w, op);
    hide TaskStep, NextTask, TaskEnabled, OuterInv, SessionInv;
  }

  /** How a step of a goroutine can leave it holding the lock. */
  lemma HoldingSteps(c: Config, s: State, w: nat, op: TaskOp)
    requires Shaped(c, s) && w in c.workers && TaskEnabled(c, s, w, op) && Holding(NextTask(c, s, w, op))
    ensures var t, next := s.task[w], TaskStep(c, s, w, op);
      && HasSession(t) && next.task[w].session == t.session && next.task[w].inst == t.inst && next.live == s.live
      && next.owners == (if op.InnerLock? then s.owners[c.lockKey(t.inst) := t.session] else s.owners)
      && (op.InnerLock? || Holding(t))
  {
    HoldingTasks(c, s, w, op);
    hide NextTask, TaskEnabled;
  }

  lemma HoldingTasks(c: Config, s: State, w: nat, op: TaskOp)
    requires Shaped(c, s) && w in c.workers && TaskEnabled(c, s, w, op) && Holding(NextTask(c, s, w, op))
    ensures
      || op.InnerLock? || op.Recheck? || op.RecheckFails?
      || op.StartCallback? || op.AbandonCallback? || op.FinishCallback?
    ensures var t, next := s.task[w], NextTask(c, s, w, op);
      HasSession(t) && next.session == t.session && next.inst == t.inst && (op.InnerLock? || Holding(t))
  {
  }

  /** A step of w leaves alone the ownership of a key that another goroutine holds. */
  lemma OthersOwned(c: Config, s: State, w: nat, op: TaskOp, x: nat)
    requires Shaped(c, s) && Inv(c, s) && w in c.workers && TaskEnabled(c, s, w, op)
    requires x in c.workers && x != w && Holding(s.task[x]) && s.task[x].session in TaskStep(c, s, w, op).live
    ensures var next := TaskStep(c, s, w, op);
      Key(c, s.task[x]) in next.owners && next.owners[Key(c, s.task[x])] == s.task[x].session
  {
    var key := Key(c, s.task[x]);
    LiveBefore(c, s, w, op, s.task[x].session);
    OwnersAfter(c, s, w, op, key);
    hide TaskStep, NextTask, TaskEnabled, OuterInv;
    assert key in s.owners && s.owners[key] == s.task[x].session;
    if HasSession(s.task[w]) && Key(c, s.task[w]) == key { SessionsApart(c, s, w, x); }
  }

  /** A step makes no session live but a new one. */
  lemma LiveBefore(c: Config, s: State, w: nat, op: TaskOp, x: Session)
    requires Shaped(c, s) && w in c.workers && TaskEnabled(c, s, w, op)
    ensures x in TaskStep(c, s, w, op).live && x.id < s.nextSession ==> x in s.live
  {
    if !op.GetSession? { hide TaskStep; }
  }

  /** A step changes the owner of no key but its own, and takes that one from no other session. */
  lemma OwnersAfter(c: Config, s: State, w: nat, op: TaskOp, key: string)
    requires Shaped(c, s) && w in c.workers && TaskEnabled(c, s, w, op)
    ensures var next := TaskStep(c, s, w, op);
      key in s.owners && !(HasSession(s.task[w]) && Key(c, s.task[w]) == key && s.owners[key] == s.task[w].session) ==>
        key in next.owners && next.owners[key] == s.owners[key]
  {
    if op.InnerLock? || op.InnerFails? || op.InnerUnlock? {
      InnerSteps(c, s, w, op, key);
    } else {
      hide TaskStep;
    }
  }

  lemma InnerSteps(c: Config, s: State, w: nat, op: TaskOp, key: string)
    requires Shaped(c, s) && w in c.workers && TaskEnabled(c, s, w, op)
    requires op.InnerLock? || op.InnerFails? || op.InnerUnlock?
    ensures HasSession(s.task[w])
    ensures var next := TaskStep(c, s, w, op);
      key in s.owners && (Key(c, s.task[w]) != key || s.owners[key] != s.task[w].session) ==>
        key in next.owners && next.owners[key] == s.owners[key]
  {
    hide NextTask;
  }

  lemma LoopKeeps(c: Config, s: State, w: nat, op: LoopOp)
    requires Shaped(c, s) && Inv(c, s) && w in c.workers && LoopEnabled(c, s, w, op)
    ensures Inv(c, LoopStep(c, s, w, op))
  {
    hide LoopStep, LoopEnabled, OuterInv, SessionInv, OwnerInv, OuterHeld, Holding, HasSession;
    var next := LoopStep(c, s, w, op);
    CheckHoldsNothing();
    OuterUnchanged(c, s, next);
    SessionsUnchanged(c, s, next);
    OwnersUnchanged(c, s, next);
  }

  lemma CheckHoldsNothing()
    ensures forall t: Task :: t.Check? ==> !OuterHeld(t) && !Holding(t) && !HasSession(t)
  {
  }

  lemma SessionsUnchanged(c: Config, s: State, next: State)
    requires Shaped(c, s) && Shaped(c, next) && SessionInv(c, s) && next.current == s.current
    requires next.nextSession == s.nextSession
    requires forall x :: x in c.workers && HasSession(next.task[x]) ==>
      HasSession(s.task[x]) && next.task[x].session == s.task[x].session
    ensures SessionInv(c, next)
  {
  }

  lemma OwnersUnchanged(c: Config, s: State, next: State)
    requires Shaped(c, s) && Shaped(c, next) && OwnerInv(c, s) && next.owners == s.owners && next.live == s.live
    requires forall x :: x in c.workers && Holding(next.task[x]) ==> next.task[x] == s.task[x]
    ensures OwnerInv(c, next)
  {
  }

  lemma WorldKeeps(c: Config, s: State, op: WorldOp)
    requires Shaped(c, s) && Inv(c, s) && WorldEnabled(c, s, op)
    ensures Shaped(c, WorldStep(c, s, op)) && Inv(c, WorldStep(c, s, op))
  {
    var next := WorldStep(c, s, op);
    assert next.outer == s.outer && next.nextSession == s.nextSession;
  }

  lemma StepKeeps(c: Config, s: State, a: Action)
    requires Shaped(c, s) && Inv(c, s) && Enabled(c, s, a)
    ensures Inv(c, Apply(c, s, a))
  {
    match a {
      case OfLoop(w, op) => LoopKeeps(c, s, w, op);
      case OfTask(w, op) =>
        TaskKeepsOuter(c, s, w, op);
        TaskKeepsSessions(c, s, w, op);
        TaskKeepsOwners(c, s, w, op);
      case OfWorld(op) => WorldKeeps(c, s, op);
    }
  }

  lemma {:induction false} ReachableInv(c: Config, s0: State, actions: seq<Action>)
    requires Init(c, s0) && Run(c, s0, actions).Some?
    ensures Inv(c, Run(c, s0, actions).value)
    decreases |actions|
  {
    if actions != [] {
      var n := |actions| - 1;
      ReachableInv(c, s0, actions[..n]);
      StepKeeps(c, Run(c, s0, actions[..n]).value, actions[n]);
    }
  }

  /**
   * In every reachable state, at most one goroutine of any process holds the nested lock of a key
   * with a live session, in both compositions of the lock stack.
   */
  lemma GlobalExclusion(c: Config, s0: State, actions: seq<Action>, w: nat, x: nat)
    requires Init(c, s0) && Run(c, s0, actions).Some?
    requires w in c.workers && x in c.workers
    requires var s := Run(c, s0, actions).value;
      && Holding(s.task[w]) && s.task[w].session in s.live
      && Holding(s.task[x]) && s.task[x].session in s.live
      && Key(c, s.task[w]) == Key(c, s.task[x])
    ensures w == x
  {
    ReachableInv(c, s0, actions);
    Exclusive(c, Run(c, s0, actions).value, w, x);
  }

  lemma Exclusive(c: Config, s: State, w: nat, x: nat)
    requires Shaped(c, s) && Inv(c, s) && w in c.workers && x in c.workers
    requires Holding(s.task[w]) && s.task[w].session in s.live
    requires Holding(s.task[x]) && s.task[x].session in s.live
    requires Key(c, s.task[w]) == Key(c, s.task[x])
    ensures w == x
  {
    assert s.task[w].session == s.task[x].session;
    if w != x { SessionsApart(c, s, w, x); }
  }

  /**
   * The session lock is reentrant and does not count, but behind the map lock re-entry is harmless:
   * in every reachable state, a goroutine that finds its key owned by its own session finds a
   * leftover of a failed call, not a lock that another goroutine relies on.
   */
  lemma ReentryFindsLeftover(c: Config, s0: State, actions: seq<Action>, w: nat, x: nat)
    requires Init(c, s0) && Run(c, s0, actions).Some? && w in c.workers && x in c.workers && w != x
    requires var s := Run(c, s0, actions).value;
      && s.task[w].WantInner? && Key(c, s.task[w]) in s.owners && s.owners[Key(c, s.task[w])] == s.task[w].session
      && Holding(s.task[x]) && s.task[x].session in s.live
    ensures var s := Run(c, s0, actions).value; Key(c, s.task[x]) != Key(c, s.task[w])
  {
    ReachableInv(c, s0, actions);
    var s := Run(c, s0, actions).value;
    hide Run, Init, OuterInv;
    if Key(c, s.task[x]) == Key(c, s.task[w]) { SessionsApart(c, s, w, x); }
  }

  /** And a release takes no key from another goroutine that holds its lock. */
  lemma ReleaseTakesOnlyOwn(c: Config, s0: State, actions: seq<Action>, w: nat, x: nat)
    requires Init(c, s0) && Run(c, s0, actions).Some? && w in c.workers && x in c.workers && w != x
    requires var s := Run(c, s0, actions).value;
      HasSession(s.task[w]) && Holding(s.task[x]) && s.task[x].session in s.live
    ensures var s := Run(c, s0, actions).value;
      var after := Release(s.owners, Key(c, s.task[w]), s.task[w].session);
      Key(c, s.task[x]) in after && after[Key(c, s.task[x])] == s.task[x].session
  {
    ReachableInv(c, s0, actions);
    var s := Run(c, s0, actions).value;
    hide Run, Init, OuterInv, HasSession;
    OnlyOwnReleased(c, s, w, x);
  }

  lemma OnlyOwnReleased(c: Config, s: State, w: nat, x: nat)
    requires Shaped(c, s) && Inv(c, s) && w in c.workers && x in c.workers && w != x
    requires HasSession(s.task[w]) && Holding(s.task[x]) && s.task[x].session in s.live
    ensures var after := Release(s.owners, Key(c, s.task[w]), s.task[w].session);
      Key(c, s.task[x]) in after && after[Key(c, s.task[x])] == s.task[x].session
  {
    hide OuterInv;
    if Key(c, s.task[x]) == Key(c, s.task[w]) { SessionsApart(c, s, w, x); }
  }

  /**
   * With the shared session, at most one goroutine per process is past the outer lock of a key,
   * even if sessions die, unlocks fail and acquisitions fail halfway.
   */
  lemma ProcessExclusion(c: Config, s0: State, actions: seq<Action>, w: nat, x: nat)
    requires Init(c, s0) && Run(c, s0, actions).Some? && c.shared
    requires w in c.workers && x in c.workers && c.process(w) == c.process(x)
    requires var s := Run(c, s0, actions).value;
      OuterHeld(s.task[w]) && OuterHeld(s.task[x]) && Key(c, s.task[w]) == Key(c, s.task[x])
    ensures w == x
  {
    ReachableInv(c, s0, actions);
  }
}
