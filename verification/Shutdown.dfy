/**
 * Shutdown safety (rules/engine.go, rules/worker.go): once an engine reports that it has stopped,
 * none of its callbacks is running and none starts later.
 */
module Shutdown {
  import opened Base
  import opened WorkerProtocol
  import AtMostOnce

  /**
   * A worker's stopped flag is up exactly when its loop is over; workers are signalled only by a
   * stopping engine, which polls only after it has signalled them all and trusts only the flags.
   */
  ghost predicate StopInv(c: Config, s: State)
    requires Shaped(c, s)
  {
    AtMostOnce.JoinInv(c, s) && FlagInv(c, s) && EngineInv(c, s)
  }

  ghost predicate FlagInv(c: Config, s: State)
    requires Shaped(c, s)
  {
    forall w :: w in c.workers ==> (w in s.stopped <==> s.loop[w].Exited?)
  }

  ghost predicate EngineInv(c: Config, s: State)
    requires Shaped(c, s)
  {
    && (forall w :: w in s.stopping ==> w in c.workers && !EngineOf(s, c.process(w)).Serving?)
    && (forall p, w :: (EngineOf(s, p).Polling? || EngineOf(s, p).Stopped?) && w in TeamOf(c, p) ==> w in s.stopping)
    && (forall p, w :: EngineOf(s, p).Polling? && w in EngineOf(s, p).seen && w in c.workers ==> s.loop[w].Exited?)
    && (forall p, w :: EngineOf(s, p).Stopped? && w in TeamOf(c, p) ==> s.loop[w].Exited?)
  }

  lemma StepKeepsStop(c: Config, s: State, a: Action)
    requires Shaped(c, s) && StopInv(c, s) && Enabled(c, s, a)
    ensures StopInv(c, Apply(c, s, a))
  {
    AtMostOnce.StepKeepsJoin(c, s, a);
    match a {
      case OfLoop(w, op) => LoopKeepsStop(c, s, w, op);
      case OfTask(w, op) => TaskKeepsStop(c, s, w, op);
      case OfWorld(op) => WorldKeepsStop(c, s, op);
    }
  }

  lemma LoopKeepsStop(c: Config, s: State, w: nat, op: LoopOp)
    requires Shaped(c, s) && StopInv(c, s) && w in c.workers && LoopEnabled(c, s, w, op)
    requires AtMostOnce.JoinInv(c, LoopStep(c, s, w, op))
    ensures StopInv(c, LoopStep(c, s, w, op))
  {
    ExitRaisesFlag(c, s, w, op);
    hide LoopStep, LoopEnabled, AtMostOnce.JoinInv;
    SameEngines(c, s, LoopStep(c, s, w, op));
    hide EngineInv;
  }

  /** Where engines and signals are as before and no loop that was over runs again. */
  lemma SameEngines(c: Config, s: State, next: State)
    requires Shaped(c, s) && Shaped(c, next) && EngineInv(c, s)
    requires next.engine == s.engine && next.stopping == s.stopping
    requires forall x :: x in c.workers && s.loop[x].Exited? ==> next.loop[x].Exited?
    ensures EngineInv(c, next)
  {
    hide TeamOf;
    assert forall p :: EngineOf(next, p) == EngineOf(s, p);
  }

  /** Leaving a loop raises its flag, and only that does; a loop that is over stays so. */
  lemma ExitRaisesFlag(c: Config, s: State, w: nat, op: LoopOp)
    requires Shaped(c, s) && w in c.workers && LoopEnabled(c, s, w, op) && (w in s.stopped <==> s.loop[w].Exited?)
    ensures var next := LoopStep(c, s, w, op);
      && !s.loop[w].Exited? && (w in next.stopped <==> next.loop[w].Exited?)
      && (forall x :: x != w ==> (x in next.stopped <==> x in s.stopped))
  {
  }

  lemma TaskKeepsStop(c: Config, s: State, w: nat, op: TaskOp)
    requires Shaped(c, s) && StopInv(c, s) && w in c.workers && TaskEnabled(c, s, w, op)
    requires AtMostOnce.JoinInv(c, TaskStep(c, s, w, op))
    ensures StopInv(c, TaskStep(c, s, w, op))
  {
    hide TaskStep, TaskEnabled, NextTask, AtMostOnce.JoinInv;
    SameEngines(c, s, TaskStep(c, s, w, op));
    hide EngineInv;
  }

  lemma WorldKeepsStop(c: Config, s: State, op: WorldOp)
    requires Shaped(c, s) && StopInv(c, s) && WorldEnabled(c, s, op)
    ensures StopInv(c, WorldStep(c, s, op))
  {
    if op.SignalStop? || OwnStep(op) {
      EngineKeepsStop(c, s, op);
    } else {
      var next := WorldStep(c, s, op);
      assert next.stopped == s.stopped && next.stopping == s.stopping && next.engine == s.engine;
      hide WorldStep, WorldEnabled;
      SameEngines(c, s, next);
      hide EngineInv;
    }
  }

  lemma EngineKeepsStop(c: Config, s: State, op: WorldOp)
    requires Shaped(c, s) && StopInv(c, s) && WorldEnabled(c, s, op) && (op.SignalStop? || OwnStep(op))
    ensures StopInv(c, WorldStep(c, s, op))
  {
    var next := WorldStep(c, s, op);
    assert next.stopped == s.stopped;
    hide AtMostOnce.JoinInv, EngineInv;
    match op {
      case SignalStop(w) => OneSignal(c, s, next, w);
      case Poll(p, w) =>
        SeenExited(c, s, p);
        OneEngine(c, s, next, p);
      case BeginStop(p) => OneEngine(c, s, next, p);
      case StartPoll(p) => OneEngine(c, s, next, p);
      case FinishStop(p) =>
        SeenExited(c, s, p);
        OneEngine(c, s, next, p);
    }
  }

  /** What a polling engine knows. */
  lemma SeenExited(c: Config, s: State, p: nat)
    requires Shaped(c, s) && EngineInv(c, s) && EngineOf(s, p).Polling?
    ensures TeamOf(c, p) <= s.stopping && TeamOf(c, p) <= c.workers
    ensures forall w :: w in EngineOf(s, p).seen && w in c.workers ==> s.loop[w].Exited?
  {
    hide EngineOf;
  }

  lemma OneSignal(c: Config, s: State, next: State, w: nat)
    requires Shaped(c, s) && Shaped(c, next) && EngineInv(c, s)
    requires w in c.workers && EngineOf(s, c.process(w)).Signalling?
    requires next == s.(stopping := s.stopping + {w})
    ensures EngineInv(c, next)
  {
    hide TeamOf;
    assert forall p :: EngineOf(next, p) == EngineOf(s, p);
  }

  /** Where only one engine moves on, only its own clauses are at stake. */
  lemma OneEngine(c: Config, s: State, next: State, p: nat)
    requires Shaped(c, s) && Shaped(c, next) && EngineInv(c, s)
    requires next.loop == s.loop && next.stopping == s.stopping && !EngineOf(next, p).Serving?
    requires forall q :: q != p ==> EngineOf(next, q) == EngineOf(s, q)
    requires EngineOf(next, p).Polling? || EngineOf(next, p).Stopped? ==> TeamOf(c, p) <= s.stopping
    requires EngineOf(next, p).Polling? ==>
      forall w :: w in EngineOf(next, p).seen && w in c.workers ==> s.loop[w].Exited?
    requires EngineOf(next, p).Stopped? ==> forall w :: w in TeamOf(c, p) ==> s.loop[w].Exited?
    ensures EngineInv(c, next)
  {
    hide EngineOf;
  }

  ghost predicate OwnStep(op: WorldOp) { op.BeginStop? || op.StartPoll? || op.Poll? || op.FinishStop? }

  lemma {:induction false} ReachableStop(c: Config, s0: State, actions: seq<Action>)
    requires Init(c, s0) && Run(c, s0, actions).Some?
    ensures StopInv(c, Run(c, s0, actions).value)
    decreases |actions|
  {
    if actions != [] {
      var n := |actions| - 1;
      ReachableStop(c, s0, actions[..n]);
      StepKeepsStop(c, Run(c, s0, actions[..n]).value, actions[n]);
    }
  }

  lemma StoppedHasExited(c: Config, s0: State, actions: seq<Action>, p: nat, w: nat)
    requires Init(c, s0) && Run(c, s0, actions).Some? && w in TeamOf(c, p)
    ensures var s := Run(c, s0, actions).value;
      EngineOf(s, p).Stopped? ==> s.loop[w].Exited? && s.task[w].NoTask?
  {
    hide Run;
    ReachableStop(c, s0, actions);
  }

  lemma {:induction false} StillStopped(c: Config, s0: State, actions: seq<Action>, k: nat, p: nat)
    requires Shaped(c, s0) && Run(c, s0, actions).Some? && k <= |actions| && Run(c, s0, actions[..k]).Some?
    requires EngineOf(Run(c, s0, actions[..k]).value, p).Stopped?
    ensures EngineOf(Run(c, s0, actions).value, p).Stopped?
    decreases |actions|
  {
    hide Apply, Enabled;
    if k == |actions| {
      assert actions[..k] == actions;
    } else {
      var n := |actions| - 1;
      assert actions[..n][..k] == actions[..k];
      StillStopped(c, s0, actions[..n], k, p);
      EngineStaysStopped(c, Run(c, s0, actions[..n]).value, actions[n], p);
    }
  }

  lemma EngineStaysStopped(c: Config, s: State, a: Action, p: nat)
    requires Shaped(c, s) && Enabled(c, s, a) && EngineOf(s, p).Stopped?
    ensures EngineOf(Apply(c, s, a), p).Stopped?
  {
    hide TaskStep, LoopStep, WorldStep, TaskEnabled, LoopEnabled, WorldEnabled;
    if a.OfWorld? {
      WorldKeepsStopped(c, s, a.o, p);
    } else {
      assert Apply(c, s, a).engine == s.engine;
    }
  }

  lemma WorldKeepsStopped(c: Config, s: State, op: WorldOp, p: nat)
    requires WorldEnabled(c, s, op) && EngineOf(s, p).Stopped?
    ensures EngineOf(WorldStep(c, s, op), p).Stopped?
  {
  }

  /**
   * Safety of stopping, over every run: if the engine of a process was stopped after the first k
   * steps, then at the end of the run it still is, every worker of that process has left its loop
   * without a goroutine behind it, and no step from k on was one of theirs, so no callback of
   * theirs ran or started.
   */
  lemma StoppedStaysQuiet(c: Config, s0: State, actions: seq<Action>, k: nat, p: nat, w: nat)
    requires Init(c, s0) && Run(c, s0, actions).Some? && k <= |actions| && w in TeamOf(c, p)
    requires Run(c, s0, actions[..k]).Some? && EngineOf(Run(c, s0, actions[..k]).value, p).Stopped?
    ensures var s := Run(c, s0, actions).value;
      EngineOf(s, p).Stopped? && s.loop[w].Exited? && s.task[w].NoTask?
    ensures forall j :: k <= j < |actions| ==> !OfWorker(actions[j], w)
  {
    hide Run;
    StillStopped(c, s0, actions, k, p);
    StoppedHasExited(c, s0, actions, p, w);
    forall j | k <= j < |actions| ensures !OfWorker(actions[j], w) {
      NoLaterStep(c, s0, actions, k, p, w, j);
    }
  }

  ghost predicate OfWorker(a: Action, w: nat) { (a.OfTask? || a.OfLoop?) && a.w == w }

  lemma NoLaterStep(c: Config, s0: State, actions: seq<Action>, k: nat, p: nat, w: nat, j: nat)
    requires Init(c, s0) && Run(c, s0, actions).Some? && k <= j < |actions| && w in TeamOf(c, p)
    requires Run(c, s0, actions[..k]).Some? && EngineOf(Run(c, s0, actions[..k]).value, p).Stopped?
    ensures !OfWorker(actions[j], w)
  {
    hide Enabled, Apply, Run;
    RunStep(c, s0, actions, j);
    assert actions[..j][..k] == actions[..k];
    StillStopped(c, s0, actions[..j], k, p);
    StoppedHasExited(c, s0, actions[..j], p, w);
    ExitedIsDisabled(c, Run(c, s0, actions[..j]).value, actions[j], w);
  }

  lemma ExitedIsDisabled(c: Config, s: State, a: Action, w: nat)
    requires Shaped(c, s) && Enabled(c, s, a) && w in c.workers && s.loop[w].Exited? && s.task[w].NoTask?
    ensures !OfWorker(a, w)
  {
  }

  // ---------------------------------------------------------------------------
  // An engine can always be stopped

  /** The run leads to s. */
  ghost predicate Leads(c: Config, s0: State, actions: seq<Action>, s: State) {
    Shaped(c, s0) && Shaped(c, s) && Run(c, s0, actions) == Some(s)
  }

  lemma Push(c: Config, s0: State, actions: seq<Action>, s: State, a: Action) returns (longer: seq<Action>)
    requires Leads(c, s0, actions, s) && Enabled(c, s, a)
    ensures actions <= longer && Leads(c, s0, longer, Apply(c, s, a))
  {
    hide Apply, Enabled;
    longer := actions + [a];
    assert longer[..|actions|] == actions;
  }

  /** A step that lets the goroutine end, whatever else would be possible. */
  ghost function WayOut(s: State, t: Task): TaskOp
    requires !t.NoTask?
  {
    match t
    case Check(_) => CheckFails
    case Checked(_) => StopTest
    case WantOuter(_) => OuterRefused
    case WantSession(_) => SessionFails
    case WantInner(_, _) => InnerFails(s.owners)
    case Locked(_, _) => RecheckFails
    case Committed(_, _) => AbandonCallback
    case Running(_, _) => FinishCallback
    case ReleaseInner(_, _) => InnerUnlock
    case ReleaseOuter(_) => OuterUnlock
  }

  function StepsLeft(t: Task): nat {
    match t
    case NoTask => 0
    case Check(_) => 1
    case WantOuter(_) => 1
    case ReleaseOuter(_) => 1
    case Checked(_) => 2
    case WantSession(_) => 2
    case WantInner(_, _) => 2
    case ReleaseInner(_, _) => 2
    case Locked(_, _) => 3
    case Committed(_, _) => 3
    case Running(_, _) => 3
  }

  lemma WayOutLeads(c: Config, s: State, w: nat)
    requires Shaped(c, s) && w in c.workers && !s.task[w].NoTask?
    ensures TaskEnabled(c, s, w, WayOut(s, s.task[w]))
    ensures StepsLeft(NextTask(c, s, w, WayOut(s, s.task[w]))) < StepsLeft(s.task[w])
  {
  }

  /** Nothing but worker w and the locks differs. */
  ghost predicate OnlyWorker(c: Config, s: State, next: State, w: nat)
    requires Shaped(c, s) && Shaped(c, next)
  {
    && next.stopping == s.stopping && next.engine == s.engine
    && (forall x :: x in c.workers && x != w ==> next.loop[x] == s.loop[x] && next.task[x] == s.task[x])
    && (forall x :: x != w ==> (x in next.stopped <==> x in s.stopped))
  }

  /** Every goroutine can end by its own steps, from every point and in every state. */
  lemma {:induction false} GoroutineCanEnd(c: Config, s0: State, actions0: seq<Action>, s1: State, w: nat)
    returns (actions: seq<Action>, s: State)
    requires Leads(c, s0, actions0, s1) && w in c.workers
    ensures actions0 <= actions && Leads(c, s0, actions, s) && OnlyWorker(c, s1, s, w)
    ensures s.task[w].NoTask? && s.loop[w] == s1.loop[w] && s.stopped == s1.stopped
    decreases StepsLeft(s1.task[w])
  {
    hide StepsLeft, WayOut, Leads, OnlyWorker, TaskStep, NextTask, TaskEnabled;
    LeadsShaped(c, s0, actions0, s1, w);
    actions, s := actions0, s1;
    if !s1.task[w].NoTask? {
      WayOutLeads(c, s1, w);
      var op := WayOut(s1, s1.task[w]);
      actions := Push(c, s0, actions0, s1, OfTask(w, op));
      var next := TaskStep(c, s1, w, op);
      TaskOnly(c, s1, w, op);
      actions, s := GoroutineCanEnd(c, s0, actions, next, w);
      LeadsShaped(c, s0, actions, s, w);
      OnlyWorkerTwice(c, s1, next, s, w);
    }
  }

  lemma LeadsShaped(c: Config, s0: State, actions: seq<Action>, s: State, w: nat)
    requires Leads(c, s0, actions, s)
    ensures Shaped(c, s) && OnlyWorker(c, s, s, w)
  {
    hide Run;
  }

  lemma TaskOnly(c: Config, s: State, w: nat, op: TaskOp)
    requires Shaped(c, s) && w in c.workers && TaskEnabled(c, s, w, op)
    ensures var next := TaskStep(c, s, w, op);
      OnlyWorker(c, s, next, w) && next.loop == s.loop && next.stopped == s.stopped
  {
    hide TaskStep, NextTask;
  }

  lemma OnlyWorkerTwice(c: Config, s: State, next: State, last: State, w: nat)
    requires Shaped(c, s) && Shaped(c, next) && Shaped(c, last)
    requires OnlyWorker(c, s, next, w) && OnlyWorker(c, next, last, w)
    ensures OnlyWorker(c, s, last, w)
  {
  }

  function LoopLeft(l: Loop): nat {
    if l.Exited? then 0 else if l.Leaving? then 1 else if l.Top? then 2 else 3
  }

  /** The next step of a worker that has been told to stop and has no goroutine. */
  ghost function NextOut(l: Loop): LoopOp
    requires !l.Exited?
  {
    match l
    case NotStarted => Start
    case Top => Test
    case Waiting => WakeUp
    case Received(_) => CheckStop
    case Joining => Join
    case Leaving => SetStopped
  }

  lemma NextOutLeads(c: Config, s: State, w: nat)
    requires Shaped(c, s) && w in c.workers && w in s.stopping && s.task[w].NoTask? && !s.loop[w].Exited?
    ensures LoopEnabled(c, s, w, NextOut(s.loop[w]))
    ensures var next := LoopStep(c, s, w, NextOut(s.loop[w]));
      && LoopLeft(next.loop[w]) < LoopLeft(s.loop[w]) && next.task[w].NoTask? && OnlyWorker(c, s, next, w)
      && (next.loop[w].Exited? ==> w in next.stopped)
  {
    LoopNext(c, s, w);
    hide LoopStep;
  }

  lemma LoopNext(c: Config, s: State, w: nat)
    requires Shaped(c, s) && w in c.workers && w in s.stopping && s.task[w].NoTask? && !s.loop[w].Exited?
    ensures LoopEnabled(c, s, w, NextOut(s.loop[w]))
    ensures var next := LoopStep(c, s, w, NextOut(s.loop[w]));
      && next.loop[w] == (if s.loop[w].Top? then Leaving else if s.loop[w].Leaving? then Exited else Top)
      && next.task == s.task && (next.loop[w].Exited? ==> w in next.stopped)
      && (forall x :: x != w ==> (x in next.stopped <==> x in s.stopped))
  {
    hide LoopStep, LoopEnabled;
    if s.loop[w].Top? {
      TopNext(c, s, w);
    } else if s.loop[w].Leaving? {
      LeavingNext(c, s, w);
    } else {
      OtherNext(c, s, w);
    }
  }

  lemma TopNext(c: Config, s: State, w: nat)
    requires Shaped(c, s) && w in c.workers && w in s.stopping && s.task[w].NoTask? && !s.loop[w].Exited?
    requires s.loop[w].Top?
    ensures LoopEnabled(c, s, w, NextOut(s.loop[w]))
    ensures var next := LoopStep(c, s, w, NextOut(s.loop[w]));
      && next.loop[w] == Leaving
      && next.task == s.task
      && (forall x :: x != w ==> (x in next.stopped <==> x in s.stopped))
  {
  }

  lemma LeavingNext(c: Config, s: State, w: nat)
    requires Shaped(c, s) && w in c.workers && w in s.stopping && s.task[w].NoTask? && !s.loop[w].Exited?
    requires s.loop[w].Leaving?
    ensures LoopEnabled(c, s, w, NextOut(s.loop[w]))
    ensures var next := LoopStep(c, s, w, NextOut(s.loop[w]));
      && next.loop[w] == Exited
      && next.task == s.task && w in next.stopped
      && (forall x :: x != w ==> (x in next.stopped <==> x in s.stopped))
  {
  }

  lemma OtherNext(c: Config, s: State, w: nat)
    requires Shaped(c, s) && w in c.workers && w in s.stopping && s.task[w].NoTask? && !s.loop[w].Exited?
    requires !s.loop[w].Top? && !s.loop[w].Leaving?
    ensures LoopEnabled(c, s, w, NextOut(s.loop[w]))
    ensures var next := LoopStep(c, s, w, NextOut(s.loop[w]));
      && next.loop[w] == Top
      && next.task == s.task
      && (forall x :: x != w ==> (x in next.stopped <==> x in s.stopped))
  {
  }

  lemma StillSignalled(c: Config, s: State, next: State, w: nat)
    requires Shaped(c, s) && Shaped(c, next) && OnlyWorker(c, s, next, w)
    ensures next.stopping == s.stopping && next.engine == s.engine
  {
  }

  /** A worker that has been told to stop can leave its loop and raise its flag. */
  lemma {:induction false} WorkerCanExit(c: Config, s0: State, actions0: seq<Action>, s1: State, w: nat)
    returns (actions: seq<Action>, s: State)
    requires Leads(c, s0, actions0, s1) && w in c.workers && w in s1.stopping && s1.task[w].NoTask?
    requires s1.loop[w].Exited? ==> w in s1.stopped
    ensures actions0 <= actions && Leads(c, s0, actions, s) && OnlyWorker(c, s1, s, w)
    ensures s.loop[w].Exited? && w in s.stopped && s.task[w].NoTask?
    decreases LoopLeft(s1.loop[w])
  {
    hide LoopStep, LoopEnabled, LoopLeft, NextOut, Leads, OnlyWorker;
    LeadsShaped(c, s0, actions0, s1, w);
    actions, s := actions0, s1;
    if !s1.loop[w].Exited? {
      NextOutLeads(c, s1, w);
      var op := NextOut(s1.loop[w]);
      actions := Push(c, s0, actions0, s1, OfLoop(w, op));
      var next := LoopStep(c, s1, w, op);
      StillSignalled(c, s1, next, w);
      actions, s := WorkerCanExit(c, s0, actions, next, w);
      LeadsShaped(c, s0, actions, s, w);
      OnlyWorkerTwice(c, s1, next, s, w);
    }
  }

  /** Nothing but these workers and the locks differs. */
  ghost predicate OnlyTeam(c: Config, s: State, next: State, team: set<nat>)
    requires Shaped(c, s) && Shaped(c, next)
  {
    && (forall x :: x in c.workers && x !in team ==> next.loop[x] == s.loop[x] && next.task[x] == s.task[x])
    && (forall x :: x !in team ==> (x in next.stopped <==> x in s.stopped) && (x in next.stopping <==> x in s.stopping))
  }

  lemma {:induction false} SignalAll(c: Config, s0: State, actions0: seq<Action>, s1: State, p: nat, todo: set<nat>)
    returns (actions: seq<Action>, s: State)
    requires Leads(c, s0, actions0, s1) && EngineOf(s1, p).Signalling? && todo <= TeamOf(c, p)
    ensures actions0 <= actions && Leads(c, s0, actions, s) && s == s1.(stopping := s1.stopping + todo)
    decreases todo
  {
    actions, s := actions0, s1;
    if todo != {} {
      var w :| w in todo;
      actions, s := SignalOne(c, s0, actions0, s1, p, w);
      hide Leads, TeamOf, EngineOf;
      actions, s := SignalAll(c, s0, actions, s, p, todo - {w});
      assert s1.stopping + {w} + (todo - {w}) == s1.stopping + todo;
    }
  }

  lemma SignalOne(c: Config, s0: State, actions0: seq<Action>, s1: State, p: nat, w: nat)
    returns (actions: seq<Action>, s: State)
    requires Leads(c, s0, actions0, s1) && EngineOf(s1, p).Signalling? && w in TeamOf(c, p)
    ensures actions0 <= actions && Leads(c, s0, actions, s) && s == s1.(stopping := s1.stopping + {w})
    ensures EngineOf(s, p).Signalling?
  {
    hide Leads;
    actions, s := PushWorld(c, s0, actions0, s1, SignalStop(w));
  }

  lemma {:induction false} ExitAll(c: Config, s0: State, actions0: seq<Action>, s1: State, todo: set<nat>)
    returns (actions: seq<Action>, s: State)
    requires Leads(c, s0, actions0, s1) && todo <= c.workers && todo <= s1.stopping
    requires forall w :: w in todo && s1.loop[w].Exited? ==> w in s1.stopped
    ensures actions0 <= actions && Leads(c, s0, actions, s) && todo <= s.stopped
    ensures s.engine == s1.engine && s.stopping == s1.stopping && OnlyTeam(c, s1, s, todo)
    decreases todo
  {
    actions, s := actions0, s1;
    if todo != {} {
      var w :| w in todo;
      hide Leads, OnlyTeam;
      var next;
      actions, next := ExitOne(c, s0, actions0, s1, w, todo);
      actions, s := ExitAll(c, s0, actions, next, todo - {w});
      TeamTwice(c, s1, next, s, w, todo);
    }
  }

  lemma ExitOne(c: Config, s0: State, actions0: seq<Action>, s1: State, w: nat, todo: set<nat>)
    returns (actions: seq<Action>, s: State)
    requires Leads(c, s0, actions0, s1) && w in c.workers && w in s1.stopping && todo <= c.workers
    requires s1.loop[w].Exited? ==> w in s1.stopped
    ensures actions0 <= actions && Leads(c, s0, actions, s) && OnlyWorker(c, s1, s, w) && w in s.stopped
    ensures s.engine == s1.engine && s.stopping == s1.stopping
    ensures forall x :: x in todo && x != w ==> s.loop[x] == s1.loop[x] && (x in s.stopped <==> x in s1.stopped)
  {
    hide Leads, Run;
    var ended;
    actions, ended := GoroutineCanEnd(c, s0, actions0, s1, w);
    LeadsShaped(c, s0, actions, ended, w);
    actions, s := WorkerCanExit(c, s0, actions, ended, w);
    LeadsShaped(c, s0, actions, s, w);
    LeadsShaped(c, s0, actions0, s1, w);
    OnlyWorkerTwice(c, s1, ended, s, w);
  }

  lemma TeamTwice(c: Config, s: State, next: State, last: State, w: nat, todo: set<nat>)
    requires Shaped(c, s) && Shaped(c, next) && Shaped(c, last) && w in todo && w in next.stopped
    requires OnlyWorker(c, s, next, w) && OnlyTeam(c, next, last, todo - {w}) && todo - {w} <= last.stopped
    ensures OnlyTeam(c, s, last, todo) && todo <= last.stopped
  {
    assert w in last.stopped;
  }

  /** One step of the world, with its state. */
  lemma PushWorld(c: Config, s0: State, actions: seq<Action>, s: State, op: WorldOp)
    returns (longer: seq<Action>, next: State)
    requires Leads(c, s0, actions, s) && WorldEnabled(c, s, op)
    ensures actions <= longer && next == WorldStep(c, s, op) && Leads(c, s0, longer, next)
  {
    hide Run, WorldStep, WorldEnabled;
    longer := Push(c, s0, actions, s, OfWorld(op));
    next := WorldStep(c, s, op);
  }

  lemma {:induction false} PollAll(c: Config, s0: State, actions0: seq<Action>, s1: State, p: nat, todo: set<nat>)
    returns (actions: seq<Action>, s: State)
    requires Leads(c, s0, actions0, s1) && EngineOf(s1, p).Polling? && todo <= TeamOf(c, p) <= s1.stopped
    ensures actions0 <= actions && Leads(c, s0, actions, s)
    ensures EngineOf(s, p) == Polling(EngineOf(s1, p).seen + todo) && s == s1.(engine := s.engine)
    decreases todo
  {
    hide Leads, TeamOf;
    actions, s := actions0, s1;
    if todo == {} {
      assert EngineOf(s1, p).seen + {} == EngineOf(s1, p).seen;
    } else {
      var w :| w in todo;
      actions, s := PushWorld(c, s0, actions0, s1, Poll(p, w));
      assert EngineOf(s, p) == Polling(EngineOf(s1, p).seen + {w});
      assert EngineOf(s1, p).seen + {w} + (todo - {w}) == EngineOf(s1, p).seen + todo;
      hide WorldStep, WorldEnabled, EngineOf;
      actions, s := PollAll(c, s0, actions, s, p, todo - {w});
    }
  }

  /** Bring the engine of p to its polling stage, all its workers signalled. */
  lemma ToPolling(c: Config, s0: State, actions0: seq<Action>, s1: State, p: nat)
    returns (actions: seq<Action>, s: State)
    requires Leads(c, s0, actions0, s1) && StopInv(c, s1) && !EngineOf(s1, p).Stopped?
    ensures actions0 <= actions && Leads(c, s0, actions, s) && EngineOf(s, p).Polling? && TeamOf(c, p) <= s.stopping
    ensures s == s1.(engine := s.engine, stopping := s.stopping)
    ensures forall x :: x !in TeamOf(c, p) ==> (x in s.stopping <==> x in s1.stopping)
  {
    hide StopInv, Leads, TeamOf;
    LeadsShaped(c, s0, actions0, s1, 0);
    if EngineOf(s1, p).Polling? {
      PollingSignalled(c, s1, p);
      actions, s := actions0, s1;
    } else if EngineOf(s1, p).Serving? {
      actions, s := PushWorld(c, s0, actions0, s1, BeginStop(p));
      actions, s := SignalThenPoll(c, s0, actions, s, p);
    } else {
      actions, s := SignalThenPoll(c, s0, actions0, s1, p);
    }
  }

  lemma SignalThenPoll(c: Config, s0: State, actions0: seq<Action>, s1: State, p: nat)
    returns (actions: seq<Action>, s: State)
    requires Leads(c, s0, actions0, s1) && EngineOf(s1, p).Signalling?
    ensures actions0 <= actions && Leads(c, s0, actions, s) && EngineOf(s, p).Polling? && TeamOf(c, p) <= s.stopping
    ensures s == s1.(engine := s.engine, stopping := s1.stopping + TeamOf(c, p))
  {
    hide Leads, TeamOf;
    actions, s := SignalAll(c, s0, actions0, s1, p, TeamOf(c, p));
    actions, s := PushWorld(c, s0, actions, s, StartPoll(p));
  }

  lemma PollingSignalled(c: Config, s: State, p: nat)
    requires Shaped(c, s) && StopInv(c, s) && EngineOf(s, p).Polling?
    ensures TeamOf(c, p) <= s.stopping && s == s.(engine := s.engine, stopping := s.stopping)
  {
  }

  /**
   * Stopping is never out of reach: from every state that any run leads to, with whatever work under
   * way and whatever failures behind it, the run can go on so that the engine of p reports that it has
   * stopped, and no worker of another process takes part in that.
   */
  lemma EngineCanStop(c: Config, s0: State, actions0: seq<Action>, p: nat) returns (actions: seq<Action>)
    requires Init(c, s0) && Run(c, s0, actions0).Some?
    ensures actions0 <= actions && Run(c, s0, actions).Some? && EngineOf(Run(c, s0, actions).value, p).Stopped?
    ensures OnlyTeam(c, Run(c, s0, actions0).value, Run(c, s0, actions).value, TeamOf(c, p))
  {
    ReachableStop(c, s0, actions0);
    var s1 := Run(c, s0, actions0).value;
    assert Leads(c, s0, actions0, s1);
    actions := actions0;
    if !EngineOf(s1, p).Stopped? {
      actions := StopFrom(c, s0, actions0, s1, p);
    }
  }

  lemma StopFrom(c: Config, s0: State, actions0: seq<Action>, s1: State, p: nat) returns (actions: seq<Action>)
    requires Leads(c, s0, actions0, s1) && StopInv(c, s1) && !EngineOf(s1, p).Stopped?
    ensures actions0 <= actions && Run(c, s0, actions).Some? && EngineOf(Run(c, s0, actions).value, p).Stopped?
    ensures OnlyTeam(c, s1, Run(c, s0, actions).value, TeamOf(c, p))
  {
    var team := TeamOf(c, p);
    assert forall w :: w in team && s1.loop[w].Exited? ==> w in s1.stopped;
    TeamWorks(c, p);
    hide *;
    var s, polled, last;
    actions, s := ToPolling(c, s0, actions0, s1, p);
    var exited;
    LeadsShaped(c, s0, actions, s, 0);
    actions, exited := ExitAll(c, s0, actions, s, team);
    SameEngine(s, exited, p);
    actions, polled := PollAll(c, s0, actions, exited, p, team);
    AllSeen(c, polled, p, team, EngineOf(exited, p).seen);
    actions, last := PushWorld(c, s0, actions, polled, FinishStop(p));
    Finished(c, s0, actions, polled, last, p);
    LeadsShaped(c, s0, actions, last, 0);
    OnlyTeamTwice(c, s1, s, exited, last, team);
  }

  lemma SameEngine(s: State, next: State, p: nat)
    requires next.engine == s.engine
    ensures EngineOf(next, p) == EngineOf(s, p)
  {
  }

  lemma AllSeen(c: Config, s: State, p: nat, team: set<nat>, seen: set<nat>)
    requires EngineOf(s, p) == Polling(seen + team) && team == TeamOf(c, p)
    ensures WorldEnabled(c, s, FinishStop(p))
  {
  }

  lemma Finished(c: Config, s0: State, actions: seq<Action>, s: State, last: State, p: nat)
    requires WorldEnabled(c, s, FinishStop(p)) && last == WorldStep(c, s, FinishStop(p)) && Leads(c, s0, actions, last)
    ensures EngineOf(last, p).Stopped? && Shaped(c, s0) && Run(c, s0, actions) == Some(last)
    ensures last == s.(engine := last.engine)
  {
    hide Run;
  }

  lemma OnlyTeamTwice(c: Config, s1: State, s: State, exited: State, last: State, team: set<nat>)
    requires Shaped(c, s1) && Shaped(c, s) && Shaped(c, exited) && Shaped(c, last)
    requires s == s1.(engine := s.engine, stopping := s.stopping)
    requires forall x :: x !in team ==> (x in s.stopping <==> x in s1.stopping)
    requires OnlyTeam(c, s, exited, team) && last == exited.(engine := last.engine)
    ensures OnlyTeam(c, s1, last, team)
  {
  }

  lemma TeamWorks(c: Config, p: nat)
    ensures TeamOf(c, p) <= c.workers
  {
  }
}
