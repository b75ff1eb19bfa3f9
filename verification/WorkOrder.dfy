/**
 * The order of a goroutine's steps (rules/worker.go): check, lock, check again, run the callback,
 * unlock. Which steps lead where is stated by their effect, and over whole runs every callback
 * that is running was checked before the lock and again under it.
 */
module WorkOrder {
  import opened Base
  import opened Locks
  import opened WorkerProtocol
  import opened MutualExclusion
  import opened AtMostOnce

  /** From which point, and in which states, a goroutine can come to where it is now. */
  ghost predicate ComesFrom(c: Config, s: State, w: nat, before: Task, after: Task)
    requires Shaped(c, s) && w in c.workers
  {
    match after
    case NoTask => before.Check? || before.Checked? || before.WantOuter? || before.ReleaseOuter?
    case Check(i) => before == NoTask && s.loop[w] == Received(i) && w !in s.stopping
    case Checked(i) => before == Check(i) && True(c, s, i)
    case WantOuter(i) => before == Checked(i) && w !in s.stopping
    case WantSession(i) => before == WantOuter(i) && (c.shared ==> c.lockKey(i) !in Outer(s, c.process(w)))
    case WantInner(i, _) => before == WantSession(i)
    case Locked(i, x) =>
      && before == WantInner(i, x) && x in s.live
      && (c.lockKey(i) in s.owners ==> s.owners[c.lockKey(i)] == x)
    case Committed(i, x) => before == Locked(i, x) && True(c, s, i)
    case Running(i, x) => before == Committed(i, x) && w !in s.stopping
    case ReleaseInner(i, x) => before == Locked(i, x) || before == Committed(i, x) || before == Running(i, x)
    case ReleaseOuter(i) => (before.WantSession? || before.WantInner? || before.ReleaseInner?) && before.inst == i
  }

  lemma TaskOrder(c: Config, s: State, w: nat, op: TaskOp)
    requires Shaped(c, s) && w in c.workers && TaskEnabled(c, s, w, op)
    ensures ComesFrom(c, s, w, s.task[w], NextTask(c, s, w, op))
  {
  }

  /** Whatever step is taken, a goroutine moves only in that order. */
  lemma StepOrder(c: Config, s: State, a: Action, w: nat)
    requires Shaped(c, s) && JoinInv(c, s) && Enabled(c, s, a) && w in c.workers
    ensures Apply(c, s, a).task[w] == s.task[w] || ComesFrom(c, s, w, s.task[w], Apply(c, s, a).task[w])
  {
    match a {
      case OfLoop(x, op) => LoopOrder(c, s, x, op, w);
      case OfTask(x, op) =>
        if x == w { TaskOrder(c, s, w, op); }
        hide TaskStep, NextTask, TaskEnabled, ComesFrom;
      case OfWorld(op) => hide WorldStep, WorldEnabled;
    }
  }

  lemma LoopOrder(c: Config, s: State, x: nat, op: LoopOp, w: nat)
    requires Shaped(c, s) && JoinInv(c, s) && x in c.workers && LoopEnabled(c, s, x, op) && w in c.workers
    ensures LoopStep(c, s, x, op).task[w] == s.task[w] || ComesFrom(c, s, w, s.task[w], LoopStep(c, s, x, op).task[w])
  {
    if x != w || !op.CheckStop? { hide LoopStep, ComesFrom; }
  }

  // ---------------------------------------------------------------------------
  // Over whole runs

  /** The goroutine has passed its first check. */
  predicate PastCheck(t: Task) {
    t.Checked? || t.WantOuter? || t.WantSession? || t.WantInner? || t.Locked? || t.Committed? || t.Running?
  }

  /** The state after the first j actions. */
  ghost function StateAt(c: Config, s0: State, actions: seq<Action>, j: nat): (s: State)
    requires Shaped(c, s0) && Run(c, s0, actions).Some? && j <= |actions|
    ensures Shaped(c, s)
  {
    RunPrefix(c, s0, actions, j);
    Run(c, s0, actions[..j]).value
  }

  lemma StateAtShorter(c: Config, s0: State, actions: seq<Action>, n: nat, j: nat)
    requires Shaped(c, s0) && Run(c, s0, actions).Some? && j <= n <= |actions|
    ensures Run(c, s0, actions[..n]).Some?
    ensures StateAt(c, s0, actions[..n], j) == StateAt(c, s0, actions, j)
  {
    hide Run;
    RunPrefix(c, s0, actions, n);
    assert actions[..n][..j] == actions[..j];
  }

  lemma LastStep(c: Config, s0: State, actions: seq<Action>, w: nat)
    requires Init(c, s0) && Run(c, s0, actions).Some? && actions != [] && w in c.workers
    ensures var n := |actions| - 1;
      var s, next := StateAt(c, s0, actions, n), StateAt(c, s0, actions, n + 1);
      next.task[w] == s.task[w] || ComesFrom(c, s, w, s.task[w], next.task[w])
  {
    hide Apply, Enabled, ComesFrom;
    var n := |actions| - 1;
    RunPrefix(c, s0, actions, n);
    assert actions[..n + 1] == actions;
    Joined(c, s0, actions[..n]);
    StepOrder(c, Run(c, s0, actions[..n]).value, actions[n], w);
  }

  lemma {:induction false} Joined(c: Config, s0: State, actions: seq<Action>)
    requires Init(c, s0) && Run(c, s0, actions).Some?
    ensures JoinInv(c, Run(c, s0, actions).value)
    decreases |actions|
  {
    hide Apply, Enabled;
    if actions != [] {
      var n := |actions| - 1;
      Joined(c, s0, actions[..n]);
      StepKeepsJoin(c, Run(c, s0, actions[..n]).value, actions[n]);
    }
  }

  /** A goroutine past its first check was at that check, with the rule true, at some earlier moment. */
  lemma {:induction false} FirstCheck(c: Config, s0: State, actions: seq<Action>, n: nat, w: nat) returns (j: nat)
    requires Init(c, s0) && Run(c, s0, actions).Some? && n <= |actions| && w in c.workers
    requires PastCheck(StateAt(c, s0, actions, n).task[w])
    ensures j < n
    ensures var i := StateAt(c, s0, actions, n).task[w].inst;
      StateAt(c, s0, actions, j).task[w] == Check(i) && True(c, StateAt(c, s0, actions, j), i)
    decreases n
  {
    hide Init, Run, StateAt, True, PastCheck;
    CheckBack(c, s0, actions, n, w);
    if StateAt(c, s0, actions, n - 1).task[w].Check? {
      j := n - 1;
    } else {
      j := FirstCheck(c, s0, actions, n - 1, w);
    }
  }

  lemma CheckBack(c: Config, s0: State, actions: seq<Action>, n: nat, w: nat)
    requires Init(c, s0) && Run(c, s0, actions).Some? && n <= |actions| && w in c.workers
    requires PastCheck(StateAt(c, s0, actions, n).task[w])
    ensures Shaped(c, s0) && n > 0 && !StateAt(c, s0, actions, n).task[w].NoTask?
    ensures var before, t := StateAt(c, s0, actions, n - 1), StateAt(c, s0, actions, n).task[w];
      if before.task[w].Check? then before.task[w].inst == t.inst && True(c, before, t.inst)
      else PastCheck(before.task[w]) && !before.task[w].NoTask? && before.task[w].inst == t.inst
  {
    StartsIdle(c, s0, actions, w);
    MoveBetween(c, s0, actions, n, w);
    var before, t := StateAt(c, s0, actions, n - 1), StateAt(c, s0, actions, n).task[w];
    hide StateAt, Run, Init, ComesFrom, True;
    CheckedFrom(c, before, w, before.task[w], t);
  }

  lemma CheckedFrom(c: Config, s: State, w: nat, before: Task, after: Task)
    requires Shaped(c, s) && w in c.workers && PastCheck(after)
    requires after == before || ComesFrom(c, s, w, before, after)
    ensures !before.NoTask? && before.inst == after.inst
    ensures if before.Check? then True(c, s, after.inst) else PastCheck(before)
  {
  }

  lemma StartsIdle(c: Config, s0: State, actions: seq<Action>, w: nat)
    requires Init(c, s0) && Run(c, s0, actions).Some? && w in c.workers
    ensures StateAt(c, s0, actions, 0).task[w].NoTask?
  {
  }

  lemma MoveBetween(c: Config, s0: State, actions: seq<Action>, n: nat, w: nat)
    requires Init(c, s0) && Run(c, s0, actions).Some? && n <= |actions| && w in c.workers
    ensures n > 0 ==>
      var s, next := StateAt(c, s0, actions, n - 1), StateAt(c, s0, actions, n);
      next.task[w] == s.task[w] || ComesFrom(c, s, w, s.task[w], next.task[w])
  {
    hide Run, ComesFrom;
    if n > 0 {
      RunPrefix(c, s0, actions, n);
      LastStep(c, s0, actions[..n], w);
      StateAtShorter(c, s0, actions, n, n - 1);
      StateAtShorter(c, s0, actions, n, n);
    }
  }

  /** Between these moments the goroutine has not let go of this lock. */
  ghost predicate InsideThroughout(c: Config, s0: State, actions: seq<Action>, j: nat, n: nat, w: nat, i: nat,
                                   x: Session)
    requires Shaped(c, s0) && Run(c, s0, actions).Some? && w in c.workers && n <= |actions|
  {
    forall m :: j <= m <= n ==>
      var t := StateAt(c, s0, actions, m).task[w]; Inside(t) && t.inst == i && t.session == x
  }

  /** A goroutine that is about to run the callback, or runs it, saw the rule true under the lock it still has. */
  lemma {:induction false} SecondCheck(c: Config, s0: State, actions: seq<Action>, n: nat, w: nat) returns (j: nat)
    requires Init(c, s0) && Run(c, s0, actions).Some? && n <= |actions| && w in c.workers
    requires var t := StateAt(c, s0, actions, n).task[w]; t.Committed? || t.Running?
    ensures j < n
    ensures var t := StateAt(c, s0, actions, n).task[w];
      && StateAt(c, s0, actions, j).task[w] == Locked(t.inst, t.session)
      && True(c, StateAt(c, s0, actions, j), t.inst)
      && InsideThroughout(c, s0, actions, j, n, w, t.inst, t.session)
    decreases n
  {
    hide Init, Run, StateAt, InsideThroughout, True;
    StepBack(c, s0, actions, n, w);
    var t := StateAt(c, s0, actions, n).task[w];
    if StateAt(c, s0, actions, n - 1).task[w].Locked? {
      j := n - 1;
      InsideOnce(c, s0, actions, n - 1, w, t.inst, t.session);
    } else {
      j := SecondCheck(c, s0, actions, n - 1, w);
    }
    InsideLonger(c, s0, actions, j, n, w, t.inst, t.session);
  }

  lemma StepBack(c: Config, s0: State, actions: seq<Action>, n: nat, w: nat)
    requires Init(c, s0) && Run(c, s0, actions).Some? && n <= |actions| && w in c.workers
    requires var t := StateAt(c, s0, actions, n).task[w]; t.Committed? || t.Running?
    ensures Shaped(c, s0) && n > 0
    ensures var before, t := StateAt(c, s0, actions, n - 1), StateAt(c, s0, actions, n).task[w];
      || (before.task[w] == Locked(t.inst, t.session) && True(c, before, t.inst))
      || before.task[w] == Committed(t.inst, t.session) || before.task[w] == Running(t.inst, t.session)
  {
    StartsIdle(c, s0, actions, w);
    MoveBetween(c, s0, actions, n, w);
    var before, t := StateAt(c, s0, actions, n - 1), StateAt(c, s0, actions, n).task[w];
    hide StateAt, Run, Init, ComesFrom, True;
    CommittedFrom(c, before, w, before.task[w], t);
  }

  /** A commitment was made in the step after the second check, or before. */
  lemma CommittedFrom(c: Config, s: State, w: nat, before: Task, after: Task)
    requires Shaped(c, s) && w in c.workers && (after.Committed? || after.Running?)
    requires after == before || ComesFrom(c, s, w, before, after)
    ensures before.Locked? || before.Committed? || before.Running?
    ensures before.inst == after.inst && before.session == after.session
    ensures before.Locked? ==> True(c, s, after.inst)
  {
  }

  lemma InsideOnce(c: Config, s0: State, actions: seq<Action>, n: nat, w: nat, i: nat, x: Session)
    requires Shaped(c, s0) && Run(c, s0, actions).Some? && w in c.workers && n <= |actions|
    requires var t := StateAt(c, s0, actions, n).task[w]; Inside(t) && t.inst == i && t.session == x
    ensures InsideThroughout(c, s0, actions, n, n, w, i, x)
  {
    hide StateAt, Run;
  }

  lemma InsideLonger(c: Config, s0: State, actions: seq<Action>, j: nat, n: nat, w: nat, i: nat, x: Session)
    requires Shaped(c, s0) && Run(c, s0, actions).Some? && w in c.workers && 0 < n <= |actions|
    requires InsideThroughout(c, s0, actions, j, n - 1, w, i, x)
    requires var t := StateAt(c, s0, actions, n).task[w]; Inside(t) && t.inst == i && t.session == x
    ensures InsideThroughout(c, s0, actions, j, n, w, i, x)
  {
    hide StateAt, Run;
  }

  /**
   * Over every run, for every callback that is running: its goroutine found the rule true before it
   * went for the lock, then found it true again under the lock, and has had the lock ever since.
   */
  lemma CallbackWasChecked(c: Config, s0: State, actions: seq<Action>, w: nat) returns (j1: nat, j2: nat)
    requires Init(c, s0) && Run(c, s0, actions).Some? && w in c.workers
    requires StateAt(c, s0, actions, |actions|).task[w].Running?
    ensures j1 < j2 < |actions|
    ensures var t := StateAt(c, s0, actions, |actions|).task[w];
      && StateAt(c, s0, actions, j1).task[w] == Check(t.inst) && True(c, StateAt(c, s0, actions, j1), t.inst)
      && StateAt(c, s0, actions, j2).task[w] == Locked(t.inst, t.session)
      && True(c, StateAt(c, s0, actions, j2), t.inst)
      && InsideThroughout(c, s0, actions, j2, |actions|, w, t.inst, t.session)
  {
    hide StateAt, Init, Run;
    j2 := SecondCheck(c, s0, actions, |actions|, w);
    j1 := FirstCheck(c, s0, actions, j2, w);
  }

  /** No callback starts and no goroutine is launched under a stop signal. */
  lemma NothingStartsWhenStopping(c: Config, s0: State, actions: seq<Action>, a: Action, w: nat)
    requires Init(c, s0) && Run(c, s0, actions).Some? && w in c.workers
    requires var s := Run(c, s0, actions).value; Enabled(c, s, a) && w in s.stopping
    ensures var s := Run(c, s0, actions).value;
      && (Apply(c, s, a).task[w].Running? ==> s.task[w].Running?)
      && (!Apply(c, s, a).task[w].NoTask? ==> !s.task[w].NoTask?)
      && (Apply(c, s, a).task[w].WantOuter? ==> s.task[w].WantOuter?)
  {
    Joined(c, s0, actions);
    hide Run, Init, Apply, Enabled, ComesFrom, JoinInv;
    var s := Run(c, s0, actions).value;
    StepOrder(c, s, a, w);
    StoppingHolds(c, s, w, s.task[w], Apply(c, s, a).task[w]);
  }

  lemma StoppingHolds(c: Config, s: State, w: nat, before: Task, after: Task)
    requires Shaped(c, s) && w in c.workers && w in s.stopping
    requires after == before || ComesFrom(c, s, w, before, after)
    ensures after.Running? ==> before.Running?
    ensures !after.NoTask? ==> !before.NoTask?
    ensures after.WantOuter? ==> before.WantOuter?
  {
  }
}
