/**
 Previewing and initializing a workspace, and signing in and out meanwhile: commands that share the
 context registry and the settings file, and serialize on the mutation lock. A command may wait
 between any two steps here, and every settings write may fail.
 */
module InitializationProtocol {
  import opened Text
  import opened InitializationCore

  type TaskNo = nat

  /** What the settings file holds. */
  datatype Stored = Stored(context: Context) | Tombstone

  datatype Stage =
    // a preview being saved
    | Previewed(generation: nat) // waits for the lock
    | Replacing
    | Written
    // an initialization
    | Asking                     // waits for the lock
    | Absent                     // not in memory
    | Found                      // in the settings file
    | Ready                      // about to be put in memory and claimed
    | Working(completed: bool)   // claim live
    | Finishing                  // claim live, completion recorded; waits for the lock
    | Clearing                   // claim live, lock held
    | Settled                    // claim live, settings cleared, lock released
    | Rejecting                  // claim live, wrong account; waits for the lock
    | RejectClearing             // claim live, lock held
    | RejectCleared              // claim live, lock held, settings cleared
    | Dropping(sweep: bool)      // claim about to be dropped
    | Sweeping                   // waits for the lock to clear an expired or finished preview
    | SweepClearing
    | SweepCleared
    // a login or a logout
    | Arriving                   // waits for the lock
    | Invalidating
    | Invalidated
    | Committed
    | Over

  datatype Task = Task(id: PreviewId, stage: Stage)

  datatype State = State(
    registry: Registry,
    persisted: Option<Stored>,
    generation: nat,             // of the authentication service
    lock: Option<TaskNo>,        // the mutation lock
    claimant: Option<TaskNo>,    // whose claim is live
    tasks: seq<Task>)

  /** A new process: whatever the settings file was left with, nothing is in memory. */
  predicate Initial(s: State) {
    s.registry == Registry(None, None, false) && s.lock.None? && s.claimant.None? && s.tasks == []
  }

  datatype Step =
    | StartPreview(id: PreviewId)
    | BeginReplace(n: TaskNo)
    | WritePreview(n: TaskNo, ok: bool)
    | CommitReplace(n: TaskNo)
    | StartInitialize(id: PreviewId)
    | Claim(n: TaskNo)
    | Load(n: TaskNo, ok: bool)
    | Sanitize(n: TaskNo, ok: bool)
    | InsertAndClaim(n: TaskNo)
    | Skip(n: TaskNo)
    | Succeed(n: TaskNo)
    | Reject(n: TaskNo)
    | Fail(n: TaskNo, sweep: bool)
    | LockToFinish(n: TaskNo)
    | WriteFinish(n: TaskNo, ok: bool)
    | Complete(n: TaskNo)
    | LockToReject(n: TaskNo)
    | WriteReject(n: TaskNo, ok: bool)
    | ClearReject(n: TaskNo)
    | DropClaim(n: TaskNo)
    | LockToSweep(n: TaskNo)
    | WriteSweep(n: TaskNo, ok: bool)
    | ClearSweep(n: TaskNo)
    | Abandon(n: TaskNo)
    | StartTransition
    | BeginClear(n: TaskNo)
    | Invalidate(n: TaskNo, ok: bool)
    | CommitClear(n: TaskNo)
    | ChangeGeneration(n: TaskNo)
    | RemoveTombstone(n: TaskNo, ok: bool)
    | EndTransition(n: TaskNo)

  predicate At(s: State, n: TaskNo, stage: Stage) {
    n < |s.tasks| && s.tasks[n].stage == stage
  }

  predicate Free(s: State) {
    s.lock.None?
  }

  predicate PersistedFor(s: State, id: PreviewId) {
    s.persisted.Some? && s.persisted.value.Stored? && s.persisted.value.context.id == id
  }

  /** A command that waits for the lock can be dropped there. */
  predicate WaitsForLock(stage: Stage) {
    || stage.Previewed? || stage.Asking? || stage.Finishing? || stage.Rejecting? || stage.Sweeping? || stage.Arriving?
  }

  predicate Enabled(s: State, step: Step) {
    match step
    case StartPreview(_) => true
    case BeginReplace(n) => Free(s) && n < |s.tasks| && s.tasks[n].stage.Previewed?
    case WritePreview(n, _) => At(s, n, Replacing)
    case CommitReplace(n) => At(s, n, Written)
    case StartInitialize(_) => true
    case Claim(n) => Free(s) && At(s, n, Asking)
    case Load(n, _) => At(s, n, Absent)
    case Sanitize(n, _) => At(s, n, Found) && PersistedFor(s, s.tasks[n].id)
    case InsertAndClaim(n) => At(s, n, Ready)
    case Skip(n) => At(s, n, Working(true))
    case Succeed(n) => At(s, n, Working(false))
    case Reject(n) => At(s, n, Working(false))
    case Fail(n, _) => At(s, n, Working(false))
    case LockToFinish(n) => Free(s) && At(s, n, Finishing)
    case WriteFinish(n, _) => At(s, n, Clearing)
    case Complete(n) => At(s, n, Settled)
    case LockToReject(n) => Free(s) && At(s, n, Rejecting)
    case WriteReject(n, _) => At(s, n, RejectClearing)
    case ClearReject(n) => At(s, n, RejectCleared)
    case DropClaim(n) => n < |s.tasks| && s.tasks[n].stage.Dropping?
    case LockToSweep(n) => Free(s) && At(s, n, Sweeping)
    case WriteSweep(n, _) => At(s, n, SweepClearing)
    case ClearSweep(n) => At(s, n, SweepCleared)
    case Abandon(n) => n < |s.tasks| && WaitsForLock(s.tasks[n].stage)
    case StartTransition => true
    case BeginClear(n) => Free(s) && At(s, n, Arriving)
    case Invalidate(n, _) => At(s, n, Invalidating)
    case CommitClear(n) => At(s, n, Invalidated)
    case ChangeGeneration(n) => At(s, n, Committed)
    case RemoveTombstone(n, _) => At(s, n, Committed)
    case EndTransition(n) => At(s, n, Committed)
  }

  function To(s: State, n: TaskNo, stage: Stage): State
    requires n < |s.tasks|
  {
    s.(tasks := s.tasks[n := s.tasks[n].(stage := stage)])
  }

  /** Takes the lock and goes on. */
  function Locked(s: State, n: TaskNo, stage: Stage): State
    requires n < |s.tasks|
  {
    To(s, n, stage).(lock := Some(n))
  }

  /** Gives the lock back and goes on. */
  function Unlocked(s: State, n: TaskNo, stage: Stage): State
    requires n < |s.tasks|
  {
    To(s, n, stage).(lock := None)
  }

  function DoBeginReplace(s: State, n: TaskNo): State
    requires n < |s.tasks| && s.tasks[n].stage.Previewed?
  {
    if s.tasks[n].stage.generation != s.generation || Busy(s.registry) then To(s, n, Over)
    else Locked(s, n, Replacing).(registry := s.registry.(replacing := true))
  }

  function DoWritePreview(s: State, n: TaskNo, ok: bool): State
    requires n < |s.tasks|
  {
    if ok then To(s, n, Written).(persisted := Some(Stored(Context(s.tasks[n].id, false))))
    else Unlocked(s, n, Over).(registry := s.registry.(replacing := false))
  }

  function DoCommitReplace(s: State, n: TaskNo): State
    requires n < |s.tasks|
  {
    Unlocked(s, n, Over).(registry := Registry(Some(Context(s.tasks[n].id, false)), s.registry.active, false))
  }

  function DoClaim(s: State, n: TaskNo): State
    requires n < |s.tasks|
  {
    var id := s.tasks[n].id;
    if Busy(s.registry) then To(s, n, Over)
    else if InMemory(s.registry, id) then
      To(s, n, Working(s.registry.context.value.completed)).(registry := Claimed(s.registry, id), claimant := Some(n))
    else Locked(s, n, Absent)
  }

  function DoLoad(s: State, n: TaskNo, ok: bool): State
    requires n < |s.tasks|
  {
    if ok && PersistedFor(s, s.tasks[n].id) then To(s, n, Found) else Unlocked(s, n, Over)
  }

  /** A completion that was recorded by an earlier process is not trusted. */
  function DoSanitize(s: State, n: TaskNo, ok: bool): State
    requires n < |s.tasks| && PersistedFor(s, s.tasks[n].id)
  {
    if !s.persisted.value.context.completed then To(s, n, Ready)
    else if ok then To(s, n, Ready).(persisted := Some(Stored(Context(s.tasks[n].id, false))))
    else Unlocked(s, n, Over)
  }

  function DoInsertAndClaim(s: State, n: TaskNo): State
    requires n < |s.tasks|
  {
    var id := s.tasks[n].id;
    if Busy(s.registry) then Unlocked(s, n, Over)
    else Unlocked(s, n, Working(false)).(
      registry := Claimed(s.registry.(context := Some(Context(id, false))), id), claimant := Some(n))
  }

  function DoWriteFinish(s: State, n: TaskNo, ok: bool): State
    requires n < |s.tasks|
  {
    if ok then Unlocked(s, n, Settled).(persisted := None) else Unlocked(s, n, Dropping(false))
  }

  function DoWriteReject(s: State, n: TaskNo, ok: bool): State
    requires n < |s.tasks|
  {
    if ok then To(s, n, RejectCleared).(persisted := None) else Unlocked(s, n, Dropping(false))
  }

  function DoDropClaim(s: State, n: TaskNo): State
    requires n < |s.tasks| && s.tasks[n].stage.Dropping?
  {
    var after := if s.tasks[n].stage.sweep then Sweeping else Over;
    To(s, n, after).(registry := Dropped(s.registry, s.tasks[n].id), claimant := None)
  }

  /** Dropping a command drops its claim, if it has one. */
  function DoAbandon(s: State, n: TaskNo): State
    requires n < |s.tasks|
  {
    To(s, n, if s.tasks[n].stage.Finishing? || s.tasks[n].stage.Rejecting? then Dropping(false) else Over)
  }

  function DoWriteSweep(s: State, n: TaskNo, ok: bool): State
    requires n < |s.tasks|
  {
    if ok then To(s, n, SweepCleared).(persisted := None) else Unlocked(s, n, Over)
  }

  function DoBeginClear(s: State, n: TaskNo): State
    requires n < |s.tasks|
  {
    if Busy(s.registry) then To(s, n, Over)
    else Locked(s, n, Invalidating).(registry := s.registry.(replacing := true))
  }

  function DoInvalidate(s: State, n: TaskNo, ok: bool): State
    requires n < |s.tasks|
  {
    if ok then To(s, n, Invalidated).(persisted := Some(Tombstone))
    else Unlocked(s, n, Over).(registry := s.registry.(replacing := false))
  }

  function Apply(s: State, step: Step): State
    requires Enabled(s, step)
  {
    match step
    case StartPreview(id) => s.(tasks := s.tasks + [Task(id, Previewed(s.generation))])
    case BeginReplace(n) => DoBeginReplace(s, n)
    case WritePreview(n, ok) => DoWritePreview(s, n, ok)
    case CommitReplace(n) => DoCommitReplace(s, n)
    case StartInitialize(id) => s.(tasks := s.tasks + [Task(id, Asking)])
    case Claim(n) => DoClaim(s, n)
    case Load(n, ok) => DoLoad(s, n, ok)
    case Sanitize(n, ok) => DoSanitize(s, n, ok)
    case InsertAndClaim(n) => DoInsertAndClaim(s, n)
    case Skip(n) => To(s, n, Finishing)
    case Succeed(n) => To(s, n, Finishing).(registry := Recorded(s.registry, s.tasks[n].id))
    case Reject(n) => To(s, n, Rejecting)
    case Fail(n, sweep) => To(s, n, Dropping(sweep))
    case LockToFinish(n) => Locked(s, n, Clearing)
    case WriteFinish(n, ok) => DoWriteFinish(s, n, ok)
    case Complete(n) => To(s, n, Over).(registry := Completed(s.registry, s.tasks[n].id), claimant := None)
    case LockToReject(n) => Locked(s, n, RejectClearing)
    case WriteReject(n, ok) => DoWriteReject(s, n, ok)
    case ClearReject(n) => Unlocked(s, n, Dropping(false)).(registry := Cleared(s.registry))
    case DropClaim(n) => DoDropClaim(s, n)
    case LockToSweep(n) => Locked(s, n, SweepClearing)
    case WriteSweep(n, ok) => DoWriteSweep(s, n, ok)
    case ClearSweep(n) => Unlocked(s, n, Over).(registry := Cleared(s.registry))
    case Abandon(n) => DoAbandon(s, n)
    case StartTransition => s.(tasks := s.tasks + [Task(0, Arriving)])
    case BeginClear(n) => DoBeginClear(s, n)
    case Invalidate(n, ok) => DoInvalidate(s, n, ok)
    case CommitClear(n) => To(s, n, Committed).(registry := Cleared(s.registry))
    case ChangeGeneration(n) => s.(generation := s.generation + 1)
    case RemoveTombstone(n, ok) => if ok then s.(persisted := None) else s
    case EndTransition(n) => Unlocked(s, n, Over)
  }

  ghost predicate IsRun(states: seq<State>, steps: seq<Step>) {
    && |states| == |steps| + 1
    && Initial(states[0])
    && forall i | 0 <= i < |steps| :: Enabled(states[i], steps[i]) && states[i + 1] == Apply(states[i], steps[i])
  }

  /** These steps lead from one state to the other. */
  ghost predicate Leads(s: State, steps: seq<Step>, t: State)
    decreases |steps|
  {
    if steps == [] then s == t else Enabled(s, steps[0]) && Leads(Apply(s, steps[0]), steps[1..], t)
  }
}
