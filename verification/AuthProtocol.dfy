/**
 The authentication protocol: logins, refreshes, logout and cancellation, interleaved at every point
 where the service waits. A section under the lifecycle lock is one step, except that a login holds
 the lock across saving its tokens and looking at its cancellation again.
 */
module AuthProtocol {
  import opened Text
  import opened AuthCore

  datatype Event = Authenticated | Failed | Cancelled

  datatype Stage =
    | Registered            // entered in the job registry, `begin` not started
    | Requesting            // between the two sections of `begin`
    | Ready                 // filed; `run` not started
    | Polling               // `run` holds the pending authorization
    | Granted               // grant and user known, not yet under the lock
    | Saving                // tokens saved, lock still held
    | Announcing            // lock released, Authenticated about to be emitted
    | Ending(event: Event)  // job removed, terminal event about to be emitted
    | CleaningUp            // Authenticated was refused
    | Done

  datatype Refreshing = Started | Loaded(found: Option<Tokens>) | Exchanged(tokens: Tokens)

  datatype Task =
    | LoginTask(id: Id, generation: nat, stage: Stage)
    | RefreshTask(generation: nat, progress: Refreshing)

  datatype Phase = Running | Cancelling

  datatype JobEntry = JobEntry(phase: Phase, task: TaskNo)

  datatype Notice = Notice(task: TaskNo, event: Event)

  datatype State = State(
    core: Core,
    holder: Option<TaskNo>,        // who holds the lifecycle lock between steps
    jobs: map<Id, JobEntry>,       // the command layer's job registry
    tasks: map<TaskNo, Task>,
    next: TaskNo,
    outbox: seq<Notice>,           // terminal events forwarded to the client
    cancelWon: set<TaskNo>,        // attempts whose cancellation was accepted
    deleteFailed: set<TaskNo>)     // attempts whose own clean-up delete failed

  const START := State(INITIAL, None, map[], map[], 0, [], {}, {})

  datatype Step =
    | Register(id: Id)
    | BeginFirst(t: TaskNo)
    | BeginSecond(t: TaskNo)
    | Abandon(t: TaskNo)
    | Take(t: TaskNo)
    | Grant(t: TaskNo)
    | Stop(t: TaskNo, event: Event)
    | Save(t: TaskNo, secret: nat, ok: bool)
    | Decide(t: TaskNo, ok: bool)
    | Emit(t: TaskNo)
    | CleanUp(t: TaskNo, ok: bool)
    | Cancel(id: Id)
    | CancelAll
    | SignOut(ok: bool)
    | RefreshBegin
    | RefreshLoad(t: TaskNo, ok: bool)
    | RefreshExchange(t: TaskNo, secret: nat)
    | RefreshSave(t: TaskNo, ok: bool)
    | RefreshDelete(t: TaskNo, ok: bool)
    | RefreshFinish(t: TaskNo)
    | RefreshDrop(t: TaskNo)

  predicate LoginAt(s: State, t: TaskNo, stage: Stage) {
    t in s.tasks && s.tasks[t].LoginTask? && s.tasks[t].stage == stage
  }

  predicate RefreshIn(s: State, t: TaskNo) {
    t in s.tasks && s.tasks[t].RefreshTask?
  }

  function MoveTo(s: State, t: TaskNo, stage: Stage): State
    requires t in s.tasks && s.tasks[t].LoginTask?
  {
    s.(tasks := s.tasks[t := s.tasks[t].(stage := stage)])
  }

  /** Whether the attempt has been told to stop, by the client or by a later generation. */
  predicate ToldToStop(s: State, t: TaskNo) {
    t in s.cancelWon || t in s.core.cancelled
  }

  predicate Enabled(s: State, step: Step) {
    match step
    case Register(id) => id !in s.jobs
    case BeginFirst(t) => s.holder.None? && LoginAt(s, t, Registered)
    case BeginSecond(t) => s.holder.None? && LoginAt(s, t, Requesting)
    case Abandon(t) => LoginAt(s, t, Registered) || LoginAt(s, t, Requesting)
    case Take(t) => s.holder.None? && LoginAt(s, t, Ready)
    case Grant(t) => LoginAt(s, t, Polling)
    case Stop(t, event) =>
      && s.holder.None?
      && (LoginAt(s, t, Polling) || LoginAt(s, t, Granted))
      && (event == Failed || (event == Cancelled && ToldToStop(s, t)))
    case Save(t, _, _) => s.holder.None? && LoginAt(s, t, Granted)
    case Decide(t, _) => LoginAt(s, t, Saving)
    case Emit(t) => t in s.tasks && s.tasks[t].LoginTask? && (s.tasks[t].stage.Ending? || s.tasks[t].stage.Announcing?)
    case CleanUp(t, _) => s.holder.None? && LoginAt(s, t, CleaningUp)
    case Cancel(id) => id in s.jobs && s.jobs[id].phase == Running
    case CancelAll => true
    case SignOut(_) => s.holder.None?
    case RefreshBegin => s.holder.None? && RefreshAllowed(s.core)
    case RefreshLoad(t, _) => s.holder.None? && RefreshIn(s, t) && s.tasks[t].progress.Started?
    case RefreshExchange(t, _) => RefreshIn(s, t) && s.tasks[t].progress.Loaded? && s.tasks[t].progress.found.Some?
    case RefreshSave(t, _) => s.holder.None? && RefreshIn(s, t) && s.tasks[t].progress.Exchanged?
    case RefreshDelete(t, _) => s.holder.None? && RefreshIn(s, t) && s.tasks[t].progress.Loaded?
    case RefreshFinish(t) => s.holder.None? && RefreshIn(s, t) && s.tasks[t].progress.Loaded?
    case RefreshDrop(t) => RefreshIn(s, t)
  }

  /** The registry's verdict on a terminal event: the entry goes, and an accepted cancel wins. */
  function Publish(s: State, t: TaskNo, event: Event): State
    requires t in s.tasks && s.tasks[t].LoginTask?
  {
    var id := s.tasks[t].id;
    if id !in s.jobs then s
    else
      var event := if s.jobs[id].phase == Cancelling then Cancelled else event;
      s.(jobs := s.jobs - {id}, outbox := s.outbox + [Notice(t, event)])
  }

  function DoRegister(s: State, id: Id): State {
    s.(jobs := s.jobs[id := JobEntry(Running, s.next)],
       tasks := s.tasks[s.next := LoginTask(id, 0, Registered)],
       next := s.next + 1)
  }

  function DoBeginFirst(s: State, t: TaskNo): State
    requires LoginAt(s, t, Registered)
  {
    var core := Reserve(s.core, s.tasks[t].id);
    s.(core := core, tasks := s.tasks[t := LoginTask(s.tasks[t].id, core.generation, Requesting)])
  }

  /** The attempt never ran: its reservation and its registration are given up. */
  function GiveUp(s: State, t: TaskNo): State
    requires t in s.tasks && s.tasks[t].LoginTask?
  {
    var task := s.tasks[t];
    var core := if task.stage.Requesting? then Release(s.core, task.id, task.generation) else s.core;
    s.(core := core, jobs := s.jobs - {task.id}, tasks := s.tasks - {t})
  }

  function DoBeginSecond(s: State, t: TaskNo): State
    requires LoginAt(s, t, Requesting)
  {
    var task := s.tasks[t];
    if s.core.generation == task.generation
    then MoveTo(s.(core := File(s.core, task.id, task.generation, t)), t, Ready)
    else GiveUp(s, t)
  }

  /** The attempt's job is removed and it is about to emit its terminal event. */
  function End(s: State, t: TaskNo, event: Event): State
    requires t in s.tasks && s.tasks[t].LoginTask?
  {
    MoveTo(s.(core := Finish(s.core, LoginKey(s.tasks[t].id))), t, Ending(event))
  }

  function DoTake(s: State, t: TaskNo): State
    requires LoginAt(s, t, Ready)
  {
    var id := s.tasks[t].id;
    if id in s.core.pending then MoveTo(s.(core := s.core.(pending := s.core.pending - {id})), t, Polling)
    else if t in s.cancelWon then End(s, t, Cancelled)
    else MoveTo(s, t, Ending(Failed))
  }

  function DoSave(s: State, t: TaskNo, secret: nat, ok: bool): State
    requires LoginAt(s, t, Granted)
  {
    if !IsCurrent(s.core, LoginKey(s.tasks[t].id), s.tasks[t].generation) || ToldToStop(s, t) then End(s, t, Cancelled)
    else if !ok then End(s, t, Failed)
    else MoveTo(s.(core := s.core.(store := Some(Tokens(t, secret))), holder := Some(t)), t, Saving)
  }

  function DoDecide(s: State, t: TaskNo, ok: bool): State
    requires LoginAt(s, t, Saving)
  {
    if t in s.cancelWon then
      var e := End(s.(holder := None), t, Cancelled);
      if ok then e.(core := e.core.(store := None)) else e.(deleteFailed := e.deleteFailed + {t})
    else MoveTo(s.(core := Finish(s.core, LoginKey(s.tasks[t].id)), holder := None), t, Announcing)
  }

  function DoEmit(s: State, t: TaskNo): State
    requires t in s.tasks && s.tasks[t].LoginTask?
  {
    var task := s.tasks[t];
    if task.stage.Ending? then MoveTo(Publish(s, t, task.stage.event), t, Done)
    else
      var won := task.id in s.jobs && s.jobs[task.id].phase == Running;
      MoveTo(Publish(s, t, Authenticated), t, if won then Done else CleaningUp)
  }

  function DoCleanUp(s: State, t: TaskNo, ok: bool): State
    requires LoginAt(s, t, CleaningUp)
  {
    var c := s.core;
    var d := MoveTo(s, t, Done);
    if c.generation == s.tasks[t].generation && !HasReservation(c, c.generation) && !HasLogin(c) then
      if ok then d.(core := c.(store := None)) else d.(deleteFailed := d.deleteFailed + {t})
    else d
  }

  function DoCancel(s: State, id: Id): State
    requires id in s.jobs
  {
    s.(jobs := s.jobs[id := s.jobs[id].(phase := Cancelling)], cancelWon := s.cancelWon + {s.jobs[id].task})
  }

  function DoCancelAll(s: State): State {
    s.(jobs := map id | id in s.jobs :: s.jobs[id].(phase := Cancelling),
       cancelWon := s.cancelWon + set id | id in s.jobs && s.jobs[id].phase == Running :: s.jobs[id].task)
  }

  function DoSignOut(s: State, ok: bool): State {
    s.(core := Logout(s.core, ok))
  }

  function DoRefreshBegin(s: State): State {
    s.(core := StartRefresh(s.core, s.next),
       tasks := s.tasks[s.next := RefreshTask(s.core.generation, Started)],
       next := s.next + 1)
  }

  function Progress(s: State, t: TaskNo, progress: Refreshing): State
    requires RefreshIn(s, t)
  {
    s.(tasks := s.tasks[t := s.tasks[t].(progress := progress)])
  }

  function DoRefreshDrop(s: State, t: TaskNo): State {
    s.(tasks := s.tasks - {t})
  }

  function DoRefreshFinish(s: State, t: TaskNo): State {
    s.(core := Finish(s.core, RefreshKey(t)), tasks := s.tasks - {t})
  }

  function DoRefreshLoad(s: State, t: TaskNo, ok: bool): State
    requires RefreshIn(s, t)
  {
    if !IsCurrent(s.core, RefreshKey(t), s.tasks[t].generation) then DoRefreshDrop(s, t)
    else if !ok then DoRefreshFinish(s, t)
    else Progress(s, t, Loaded(s.core.store))
  }

  /** The new tokens descend from the login whose tokens were exchanged. */
  function DoRefreshExchange(s: State, t: TaskNo, secret: nat): State
    requires RefreshIn(s, t) && s.tasks[t].progress.Loaded? && s.tasks[t].progress.found.Some?
  {
    Progress(s, t, Exchanged(Tokens(s.tasks[t].progress.found.value.origin, secret)))
  }

  function DoRefreshSave(s: State, t: TaskNo, ok: bool): State
    requires RefreshIn(s, t) && s.tasks[t].progress.Exchanged?
  {
    var f := DoRefreshFinish(s, t);
    if IsCurrent(s.core, RefreshKey(t), s.tasks[t].generation) && t !in s.core.cancelled && ok
    then f.(core := f.core.(store := Some(s.tasks[t].progress.tokens)))
    else f
  }

  function DoRefreshDelete(s: State, t: TaskNo, ok: bool): State
    requires RefreshIn(s, t)
  {
    var f := DoRefreshFinish(s, t);
    if !IsCurrent(s.core, RefreshKey(t), s.tasks[t].generation) then DoRefreshDrop(s, t)
    else if ok then f.(core := f.core.(store := None))
    else f
  }

  function Apply(s: State, step: Step): State
    requires Enabled(s, step)
  {
    match step
    case Register(id) => DoRegister(s, id)
    case BeginFirst(t) => DoBeginFirst(s, t)
    case BeginSecond(t) => DoBeginSecond(s, t)
    case Abandon(t) => GiveUp(s, t)
    case Take(t) => DoTake(s, t)
    case Grant(t) => MoveTo(s, t, Granted)
    case Stop(t, event) => End(s, t, event)
    case Save(t, secret, ok) => DoSave(s, t, secret, ok)
    case Decide(t, ok) => DoDecide(s, t, ok)
    case Emit(t) => DoEmit(s, t)
    case CleanUp(t, ok) => DoCleanUp(s, t, ok)
    case Cancel(id) => DoCancel(s, id)
    case CancelAll => DoCancelAll(s)
    case SignOut(ok) => DoSignOut(s, ok)
    case RefreshBegin => DoRefreshBegin(s)
    case RefreshLoad(t, ok) => DoRefreshLoad(s, t, ok)
    case RefreshExchange(t, secret) => DoRefreshExchange(s, t, secret)
    case RefreshSave(t, ok) => DoRefreshSave(s, t, ok)
    case RefreshDelete(t, ok) => DoRefreshDelete(s, t, ok)
    case RefreshFinish(t) => DoRefreshFinish(s, t)
    case RefreshDrop(t) => DoRefreshDrop(s, t)
  }

  // ---- Runs ----

  /** States and the steps between them: `states[i]` goes to `states[i + 1]` by `steps[i]`. */
  ghost predicate IsRun(states: seq<State>, steps: seq<Step>) {
    && |states| == |steps| + 1
    && states[0] == START
    && forall i | 0 <= i < |steps| :: Enabled(states[i], steps[i]) && states[i + 1] == Apply(states[i], steps[i])
  }
}
