/**
 * Workers of many processes as one interleaved step system (rules/worker.go, rules/lock,
 * rules/engine.go). A worker's loop launches one goroutine per work item and waits for it; the
 * goroutine checks the rule, takes the lock stack, rechecks, runs the callback and unlocks. Any
 * goroutine may move next, the store may change at any time, sessions may die at any time, and
 * every remote call may fail.
 */
module WorkerProtocol {
  import opened Base
  import opened Locks
  import S = StaticRules

  /**
   * shared is the engine's default: one session per process, protected by the map lock. Otherwise
   * every acquisition makes its own session and there is no map lock (engine.go:117-132).
   */
  datatype Config = Config(
    workers: set<nat>,
    process: nat -> nat,
    rule: nat -> S.Rule,
    lockKey: nat -> string,
    shared: bool
  )

  /** A worker's loop: `run` and `singleRun`. */
  datatype Loop = NotStarted | Top | Waiting | Received(inst: nat) | Joining | Leaving | Exited

  /** The goroutine of one work item: `doWork`. */
  datatype Task =
    | NoTask
    | Check(inst: nat)
    | Checked(inst: nat)
    | WantOuter(inst: nat)
    | WantSession(inst: nat)
    | WantInner(inst: nat, session: Session)
    | Locked(inst: nat, session: Session)
    | Committed(inst: nat, session: Session)
    | Running(inst: nat, session: Session)
    | ReleaseInner(inst: nat, session: Session)
    | ReleaseOuter(inst: nat)

  /** `stop` of one process's engine. */
  datatype Engine = Serving | Signalling | Polling(seen: set<nat>) | Stopped

  datatype State = State(
    loop: map<nat, Loop>,
    task: map<nat, Task>,
    stopping: set<nat>,
    stopped: set<nat>,
    engine: map<nat, Engine>,
    outer: map<nat, set<string>>,
    owners: Owners,
    live: set<Session>,
    current: map<nat, Session>,
    nextSession: nat,
    store: S.Store
  )

  datatype LoopOp = Start | Test | WakeUp | Receive(inst: nat) | CheckStop | Join | SetStopped

  datatype TaskOp =
    | PreCheck | CheckFails | StopTest
    | OuterLock | OuterRefused
    | GetSession | SessionFails
    | InnerLock | InnerFails(after: Owners)
    | Recheck | RecheckFails
    | StartCallback | AbandonCallback | FinishCallback
    | InnerUnlock | InnerUnlockFails | OuterUnlock

  datatype WorldOp =
    | Write(store: S.Store) | SessionDies(s: Session) | ClearSession(p: nat)
    | BeginStop(p: nat) | SignalStop(w: nat) | StartPoll(p: nat) | Poll(p: nat, w: nat) | FinishStop(p: nat)

  /** One step: of a worker's loop, of its goroutine, or of the rest of the world. */
  datatype Action = OfLoop(w: nat, l: LoopOp) | OfTask(w: nat, t: TaskOp) | OfWorld(o: WorldOp)

  predicate True(c: Config, s: State, inst: nat) { S.Holds(c.rule(inst), s.store) }

  function Outer(s: State, p: nat): set<string> { if p in s.outer then s.outer[p] else {} }

  /** The stage of the engine of process p. */
  function EngineOf(s: State, p: nat): Engine { if p in s.engine then s.engine[p] else Serving }

  ghost function TeamOf(c: Config, p: nat): set<nat> { set w | w in c.workers && c.process(w) == p }

  predicate Shaped(c: Config, s: State) { s.loop.Keys == c.workers && s.task.Keys == c.workers }

  // ---------------------------------------------------------------------------
  // Steps

  ghost predicate LoopEnabled(c: Config, s: State, w: nat, op: LoopOp)
    requires Shaped(c, s) && w in c.workers
  {
    match op
    case Start => s.loop[w].NotStarted?
    case Test => s.loop[w].Top?
    case WakeUp => s.loop[w].Waiting? && w in s.stopping
    case Receive(_) => s.loop[w].Waiting?
    case CheckStop => s.loop[w].Received?
    case Join => s.loop[w].Joining? && s.task[w].NoTask?
    case SetStopped => s.loop[w].Leaving?
  }

  function SetLoop(s: State, w: nat, l: Loop): State { s.(loop := s.loop[w := l]) }

  function SetTask(s: State, w: nat, t: Task): State { s.(task := s.task[w := t]) }

  ghost function LoopStep(c: Config, s: State, w: nat, op: LoopOp): (next: State)
    requires Shaped(c, s) && w in c.workers && LoopEnabled(c, s, w, op)
    ensures Shaped(c, next)
    ensures next == s.(loop := next.loop, task := next.task, stopped := next.stopped)
    ensures forall x :: x in c.workers && x != w ==> next.loop[x] == s.loop[x] && next.task[x] == s.task[x]
    ensures next.task[w] == s.task[w] || (op.CheckStop? && next.loop[w].Joining? && next.task[w].Check?)
  {
    match op
    case Start => SetLoop(s, w, Top).(stopped := s.stopped - {w})
    case Test => SetLoop(s, w, if w in s.stopping then Leaving else Waiting)
    case WakeUp => SetLoop(s, w, Top)
    case Receive(inst) => SetLoop(s, w, Received(inst))
    case CheckStop =>
      if w in s.stopping then SetLoop(s, w, Top) else SetTask(SetLoop(s, w, Joining), w, Check(s.loop[w].inst))
    case Join => SetLoop(s, w, Top)
    case SetStopped => SetLoop(s, w, Exited).(stopped := s.stopped + {w})
  }

  ghost predicate TaskEnabled(c: Config, s: State, w: nat, op: TaskOp)
    requires Shaped(c, s) && w in c.workers
  {
    var t := s.task[w];
    match op
    case PreCheck => t.Check?
    case CheckFails => t.Check?
    case StopTest => t.Checked?
    case OuterLock => t.WantOuter? && (c.shared ==> Toggled(Outer(s, c.process(w)), c.lockKey(t.inst), true).1)
    case OuterRefused => t.WantOuter?
    case GetSession => t.WantSession?
    case SessionFails => t.WantSession?
    case InnerLock => t.WantInner? && t.session in s.live && CanAcquire(s.owners, c.lockKey(t.inst), t.session)
    case InnerFails(after) => t.WantInner? && FailureOutcome(s.owners, s.live, c.lockKey(t.inst), t.session, after)
    case Recheck => t.Locked?
    case RecheckFails => t.Locked?
    case StartCallback => t.Committed?
    case AbandonCallback => t.Committed?
    case FinishCallback => t.Running?
    case InnerUnlock => t.ReleaseInner?
    case InnerUnlockFails => t.ReleaseInner?
    case OuterUnlock => t.ReleaseOuter?
  }

  /** The session that GetSession returns: the process's current one, or a new one. */
  function SessionFor(c: Config, s: State, w: nat): Session {
    if c.shared && c.process(w) in s.current then s.current[c.process(w)] else Session(s.nextSession, c.process(w))
  }

  function ObtainSession(c: Config, s: State, w: nat): State {
    if c.shared && c.process(w) in s.current then s
    else
      var x := Session(s.nextSession, c.process(w));
      s.(live := s.live + {x}, nextSession := s.nextSession + 1,
         current := if c.shared then s.current[c.process(w) := x] else s.current)
  }

  /** The outer lock, toggled; without a shared session there is none. */
  function ToggleOuter(c: Config, s: State, w: nat, key: string, lock: bool): State {
    var p := c.process(w);
    if c.shared then s.(outer := s.outer[p := Toggled(Outer(s, p), key, lock).0]) else s
  }

  /** Where the goroutine goes next. */
  ghost function NextTask(c: Config, s: State, w: nat, op: TaskOp): Task
    requires Shaped(c, s) && w in c.workers && TaskEnabled(c, s, w, op)
  {
    var t := s.task[w];
    match op
    case PreCheck => if True(c, s, t.inst) then Checked(t.inst) else NoTask
    case CheckFails => NoTask
    case StopTest => if w in s.stopping then NoTask else WantOuter(t.inst)
    case OuterLock => WantSession(t.inst)
    case OuterRefused => NoTask
    case GetSession => WantInner(t.inst, SessionFor(c, s, w))
    case SessionFails => ReleaseOuter(t.inst)
    case InnerLock => Locked(t.inst, t.session)
    case InnerFails(_) => ReleaseOuter(t.inst)
    case Recheck => if True(c, s, t.inst) then Committed(t.inst, t.session) else ReleaseInner(t.inst, t.session)
    case RecheckFails => ReleaseInner(t.inst, t.session)
    case StartCallback => if w in s.stopping then ReleaseInner(t.inst, t.session) else Running(t.inst, t.session)
    case AbandonCallback => ReleaseInner(t.inst, t.session)
    case FinishCallback => ReleaseInner(t.inst, t.session)
    case InnerUnlock => ReleaseOuter(t.inst)
    case InnerUnlockFails => ReleaseOuter(t.inst)
    case OuterUnlock => NoTask
  }

  ghost function TaskStep(c: Config, s: State, w: nat, op: TaskOp): (next: State)
    requires Shaped(c, s) && w in c.workers && TaskEnabled(c, s, w, op)
    ensures Shaped(c, next)
    ensures next == s.(task := next.task, outer := next.outer, owners := next.owners, live := next.live,
                       current := next.current, nextSession := next.nextSession)
    ensures next.task == s.task[w := NextTask(c, s, w, op)] && s.live <= next.live
    ensures !op.GetSession? ==> next.live == s.live && next.current == s.current && next.nextSession == s.nextSession
    ensures !op.OuterLock? && !op.OuterUnlock? ==> next.outer == s.outer
    ensures !op.InnerLock? && !op.InnerFails? && !op.InnerUnlock? ==> next.owners == s.owners
  {
    var t := s.task[w];
    var moved := SetTask(s, w, NextTask(c, s, w, op));
    match op
    case OuterLock => ToggleOuter(c, moved, w, c.lockKey(t.inst), true)
    case GetSession => ObtainSession(c, moved, w)
    case InnerLock => moved.(owners := s.owners[c.lockKey(t.inst) := t.session])
    case InnerFails(after) => moved.(owners := after)
    case InnerUnlock => moved.(owners := Release(s.owners, c.lockKey(t.inst), t.session))
    case OuterUnlock => ToggleOuter(c, moved, w, c.lockKey(t.inst), false)
    case _ => moved
  }

  ghost predicate WorldEnabled(c: Config, s: State, op: WorldOp) {
    match op
    case Write(_) => true
    case SessionDies(x) => x in s.live
    case ClearSession(p) => p in s.current
    case BeginStop(p) => EngineOf(s, p).Serving?
    case SignalStop(w) => w in c.workers && EngineOf(s, c.process(w)).Signalling?
    case StartPoll(p) => EngineOf(s, p).Signalling? && TeamOf(c, p) <= s.stopping
    case Poll(p, w) => EngineOf(s, p).Polling? && w in TeamOf(c, p)
    case FinishStop(p) => EngineOf(s, p).Polling? && TeamOf(c, p) <= EngineOf(s, p).seen
  }

  ghost function WorldStep(c: Config, s: State, op: WorldOp): (next: State)
    requires WorldEnabled(c, s, op)
    ensures next.loop == s.loop && next.task == s.task
  {
    match op
    case Write(store) => s.(store := store)
    case SessionDies(x) => s.(live := s.live - {x}, owners := map k | k in s.owners && s.owners[k] != x :: s.owners[k])
    case ClearSession(p) => s.(current := s.current - {p})
    case BeginStop(p) => s.(engine := s.engine[p := Signalling])
    case SignalStop(w) => s.(stopping := s.stopping + {w})
    case StartPoll(p) => s.(engine := s.engine[p := Polling({})])
    case Poll(p, w) => s.(engine := s.engine[p := Polling(if w in s.stopped then EngineOf(s, p).seen + {w} else {})])
    case FinishStop(p) => s.(engine := s.engine[p := Stopped])
  }

  ghost predicate Enabled(c: Config, s: State, a: Action)
    requires Shaped(c, s)
  {
    match a
    case OfLoop(w, op) => w in c.workers && LoopEnabled(c, s, w, op)
    case OfTask(w, op) => w in c.workers && TaskEnabled(c, s, w, op)
    case OfWorld(op) => WorldEnabled(c, s, op)
  }

  ghost function Apply(c: Config, s: State, a: Action): (next: State)
    requires Shaped(c, s) && Enabled(c, s, a)
    ensures Shaped(c, next)
  {
    match a
    case OfLoop(w, op) => LoopStep(c, s, w, op)
    case OfTask(w, op) => TaskStep(c, s, w, op)
    case OfWorld(op) => WorldStep(c, s, op)
  }

  // ---------------------------------------------------------------------------
  // Runs

  ghost predicate Init(c: Config, s: State) {
    && Shaped(c, s)
    && (forall w :: w in c.workers ==> s.loop[w] == NotStarted && s.task[w] == NoTask)
    && s.stopping == {} && s.stopped == {} && s.engine == map[] && s.outer == map[] && s.owners == map[]
    && s.live == {} && s.current == map[]
  }

  /** The state after a run; None if some action of it was not enabled. */
  ghost function Run(c: Config, s0: State, actions: seq<Action>): (s: Option<State>)
    requires Shaped(c, s0)
    ensures s.Some? ==> Shaped(c, s.value)
    decreases |actions|
  {
    if actions == [] then Some(s0)
    else
      var n := |actions| - 1;
      var before := Run(c, s0, actions[..n]);
      if before.Some? && Enabled(c, before.value, actions[n]) then Some(Apply(c, before.value, actions[n])) else None
  }

  /** Prefixes of a run are runs. */
  lemma {:induction false} RunPrefix(c: Config, s0: State, actions: seq<Action>, k: nat)
    requires Shaped(c, s0) && Run(c, s0, actions).Some? && k <= |actions|
    ensures Run(c, s0, actions[..k]).Some?
    decreases |actions|
  {
    if k == |actions| {
      assert actions[..k] == actions;
    } else {
      var n := |actions| - 1;
      RunPrefix(c, s0, actions[..n], k);
      assert actions[..n][..k] == actions[..k];
    }
  }

  lemma RunStep(c: Config, s0: State, actions: seq<Action>, j: nat)
    requires Shaped(c, s0) && Run(c, s0, actions).Some? && j < |actions|
    ensures Run(c, s0, actions[..j]).Some? && Enabled(c, Run(c, s0, actions[..j]).value, actions[j])
  {
    hide Enabled, Apply;
    RunPrefix(c, s0, actions, j + 1);
    assert actions[..j + 1][..j] == actions[..j];
  }

  // ---------------------------------------------------------------------------
  // Lock phases

  /** The goroutine has taken the outer lock and not given it back. */
  predicate OuterHeld(t: Task) {
    t.WantSession? || t.WantInner? || t.Locked? || t.Committed? || t.Running? || t.ReleaseInner? || t.ReleaseOuter?
  }

  /** It has obtained a session for this acquisition. */
  predicate HasSession(t: Task) {
    t.WantInner? || t.Locked? || t.Committed? || t.Running? || t.ReleaseInner?
  }

  /** It holds the nested lock as a whole. */
  predicate Holding(t: Task) { t.Locked? || t.Committed? || t.Running? || t.ReleaseInner? }
}
