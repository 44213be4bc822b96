/** What a whole command of workspace initialization achieves when nobody comes between its steps. */
module InitializationFlows {
  import opened Text
  import opened InitializationCore
  import opened InitializationProtocol

  lemma {:induction false} LeadsFurther(s: State, steps: seq<Step>, mid: State, more: seq<Step>, t: State)
    requires Leads(s, steps, mid) && Leads(mid, more, t)
    ensures Leads(s, steps + more, t)
    decreases |steps|
  {
    if steps == [] {
      assert steps + more == more;
    } else {
      assert (steps + more)[0] == steps[0] && (steps + more)[1..] == steps[1..] + more;
      LeadsFurther(Apply(s, steps[0]), steps[1..], mid, more, t);
    }
  }

  /** One step more. */
  lemma Then(s: State, steps: seq<Step>, mid: State, step: Step) returns (more: seq<Step>, e: State)
    requires Leads(s, steps, mid) && Enabled(mid, step)
    ensures more == steps + [step] && e == Apply(mid, step) && Leads(s, more, e)
  {
    more, e := steps + [step], Apply(mid, step);
    assert [step][0] == step && [step][1..] == [] && Leads(e, [], e);
    LeadsFurther(s, steps, mid, [step], e);
  }

  /** Nobody holds the lock, and no claim or change is under way. */
  predicate Idle(s: State) {
    s.lock.None? && !s.registry.replacing && s.registry.active.None? && s.claimant.None?
  }

  /** The state of a process between commands: what is in memory, and what is in the settings file. */
  predicate Rests(e: State, s: State, context: Option<Context>, persisted: Option<Stored>) {
    Idle(e) && e.registry.context == context && e.persisted == persisted && e.generation == s.generation
  }

  /** A task more, which is over. */
  predicate OneOver(e: State, s: State) {
    |e.tasks| == |s.tasks| + 1 && e.tasks[..|s.tasks|] == s.tasks && e.tasks[|s.tasks|].stage == Over
  }

  // ---- Previews ----

  /** A preview is put in memory and in the settings file, or in neither, as the write goes. */
  lemma UndisturbedPreview(s: State, id: PreviewId, ok: bool) returns (steps: seq<Step>, e: State)
    requires Idle(s)
    ensures Leads(s, steps, e) && OneOver(e, s)
    ensures if ok then Rests(e, s, Some(Context(id, false)), Some(Stored(Context(id, false))))
            else Rests(e, s, s.registry.context, s.persisted)
  {
    var n := |s.tasks|;
    steps, e := [], s;
    steps, e := Then(s, steps, e, StartPreview(id));
    steps, e := Then(s, steps, e, BeginReplace(n));
    steps, e := Then(s, steps, e, WritePreview(n, ok));
    if ok {
      steps, e := Then(s, steps, e, CommitReplace(n));
    }
  }

  /** A preview that was made for another account, or that meets a claim or a change, is not saved. */
  lemma LatePreviewIsRefused(s: State, n: TaskNo)
    requires Enabled(s, BeginReplace(n))
    requires s.tasks[n].stage.generation != s.generation || s.registry.active.Some? || s.registry.replacing
    ensures At(Apply(s, BeginReplace(n)), n, Over)
    ensures Apply(s, BeginReplace(n)).(tasks := s.tasks) == s
  {
  }

  // ---- Initialization ----

  /** The command works on the preview with this id, and has the only claim. */
  predicate WorksOn(e: State, s: State, id: PreviewId, completed: bool, persisted: Option<Stored>) {
    && |e.tasks| == |s.tasks| + 1 && e.tasks[..|s.tasks|] == s.tasks
    && e.tasks[|s.tasks|] == Task(id, Stage.Working(completed)) && e.claimant == Some(|s.tasks|)
    && e.registry == Registry(Some(Context(id, completed)), Some(id), false)
    && e.persisted == persisted && e.lock.None? && e.generation == s.generation
  }

  lemma ClaimsFromMemory(s: State, id: PreviewId) returns (steps: seq<Step>, e: State)
    requires Idle(s) && InMemory(s.registry, id)
    ensures Leads(s, steps, e) && WorksOn(e, s, id, s.registry.context.value.completed, s.persisted)
  {
    var n := |s.tasks|;
    steps, e := [], s;
    steps, e := Then(s, steps, e, StartInitialize(id));
    steps, e := Then(s, steps, e, Claim(n));
  }

  /** The state in which a preview was found in the settings, with the lock held. */
  lemma FindsInSettings(s: State, id: PreviewId) returns (steps: seq<Step>, e: State)
    requires Idle(s) && !InMemory(s.registry, id) && PersistedFor(s, id)
    ensures Leads(s, steps, e)
    ensures e == s.(tasks := s.tasks + [Task(id, Found)], lock := Some(|s.tasks|))
  {
    var n := |s.tasks|;
    steps, e := [], s;
    steps, e := Then(s, steps, e, StartInitialize(id));
    steps, e := Then(s, steps, e, Claim(n));
    steps, e := Then(s, steps, e, Load(n, true));
  }

  /**
   A preview that only the settings file has is worked on as if it had not been completed. Only if it was recorded
   as completed does that take a write.
   */
  lemma ClaimsFromSettings(s: State, id: PreviewId, ok: bool) returns (steps: seq<Step>, e: State)
    requires Idle(s) && !InMemory(s.registry, id) && PersistedFor(s, id)
    requires ok || !s.persisted.value.context.completed
    ensures Leads(s, steps, e) && WorksOn(e, s, id, false, Some(Stored(Context(id, false))))
  {
    var n := |s.tasks|;
    steps, e := FindsInSettings(s, id);
    steps, e := Then(s, steps, e, Sanitize(n, ok));
    steps, e := Then(s, steps, e, InsertAndClaim(n));
  }

  /** If that write fails the initialization is refused, and nothing changes. */
  lemma UnsanitizedIsRefused(s: State, id: PreviewId) returns (steps: seq<Step>, e: State)
    requires Idle(s) && !InMemory(s.registry, id) && PersistedFor(s, id) && s.persisted.value.context.completed
    ensures Leads(s, steps, e) && OneOver(e, s) && Rests(e, s, s.registry.context, s.persisted)
  {
    steps, e := FindsInSettings(s, id);
    steps, e := Then(s, steps, e, Sanitize(|s.tasks|, false));
  }

  /** A preview that is nowhere, or that cannot be read, is refused, and nothing changes. */
  lemma UnknownPreviewIsRefused(s: State, id: PreviewId, ok: bool) returns (e: State)
    requires Idle(s) && !InMemory(s.registry, id) && !(ok && PersistedFor(s, id))
    ensures var n := |s.tasks|;
      Leads(s, [StartInitialize(id), Claim(n), Load(n, ok)], e)
    ensures OneOver(e, s) && Rests(e, s, s.registry.context, s.persisted)
  {
    var n := |s.tasks|;
    var steps;
    steps, e := [], s;
    steps, e := Then(s, steps, e, StartInitialize(id));
    steps, e := Then(s, steps, e, Claim(n));
    steps, e := Then(s, steps, e, Load(n, ok));
    assert steps == [StartInitialize(id), Claim(n), Load(n, ok)];
  }

  /** An initialization that is working on `id`, with nobody else about. */
  predicate Working(s: State, n: TaskNo, id: PreviewId, completed: bool) {
    && n < |s.tasks| && s.tasks[n] == Task(id, Stage.Working(completed)) && s.claimant == Some(n)
    && s.registry == Registry(Some(Context(id, completed)), Some(id), false) && s.lock.None?
  }

  function EndedAt(s: State, n: TaskNo, id: PreviewId): seq<Task>
    requires n < |s.tasks|
  {
    s.tasks[n := Task(id, Over)]
  }

  /** The work is done, unless it was done before, and the completion is recorded in memory; then the lock is taken. */
  lemma DoesItsWork(s: State, n: TaskNo, id: PreviewId, completed: bool) returns (steps: seq<Step>, e: State)
    requires Working(s, n, id, completed)
    ensures Leads(s, steps, e) && steps == [if completed then Skip(n) else Succeed(n), LockToFinish(n)]
    ensures e == s.(tasks := s.tasks[n := Task(id, Clearing)], lock := Some(n),
                    registry := Registry(Some(Context(id, true)), Some(id), false))
  {
    steps, e := [], s;
    steps, e := Then(s, steps, e, if completed then Skip(n) else Succeed(n));
    steps, e := Then(s, steps, e, LockToFinish(n));
  }

  /** The settings are cleared, and with them the context in memory; or neither, and the claim is dropped. */
  lemma SettlesItsWork(s: State, n: TaskNo, id: PreviewId, ok: bool) returns (steps: seq<Step>, e: State)
    requires n < |s.tasks| && s.tasks[n] == Task(id, Clearing)
    requires s.registry == Registry(Some(Context(id, true)), Some(id), false)
    ensures Leads(s, steps, e)
    ensures steps == [WriteFinish(n, ok), if ok then Complete(n) else DropClaim(n)]
    ensures e.tasks == EndedAt(s, n, id)
    ensures if ok then Rests(e, s, None, None) else Rests(e, s, Some(Context(id, true)), s.persisted)
  {
    steps, e := [], s;
    steps, e := Then(s, steps, e, WriteFinish(n, ok));
    steps, e := Then(s, steps, e, if ok then Complete(n) else DropClaim(n));
  }

  /**
   The work done, or found done before: the preview is forgotten everywhere. If the settings cannot be written
   it stays in both places, in memory as completed, so that a second try in this process does no work twice.
   */
  lemma FinishesItsWork(s: State, n: TaskNo, id: PreviewId, completed: bool, ok: bool)
    returns (steps: seq<Step>, e: State)
    requires Working(s, n, id, completed)
    ensures Leads(s, steps, e) && e.tasks == EndedAt(s, n, id)
    ensures Succeed(n) in steps <==> !completed
    ensures if ok then Rests(e, s, None, None) else Rests(e, s, Some(Context(id, true)), s.persisted)
  {
    var mid;
    steps, mid := DoesItsWork(s, n, id, completed);
    var last;
    last, e := SettlesItsWork(mid, n, id, ok);
    LeadsFurther(s, steps, mid, last, e);
    steps := steps + last;
  }

  /** The work failed: the claim is dropped; a preview of no more use is also forgotten, if the write succeeds. */
  lemma FailsItsWork(s: State, n: TaskNo, id: PreviewId, sweep: bool, ok: bool) returns (steps: seq<Step>, e: State)
    requires Working(s, n, id, false)
    ensures Leads(s, steps, e) && e.tasks == EndedAt(s, n, id)
    ensures if sweep && ok then Rests(e, s, None, None) else Rests(e, s, Some(Context(id, false)), s.persisted)
  {
    steps, e := [], s;
    steps, e := Then(s, steps, e, Fail(n, sweep));
    steps, e := Then(s, steps, e, DropClaim(n));
    if sweep {
      steps, e := Then(s, steps, e, LockToSweep(n));
      steps, e := Then(s, steps, e, WriteSweep(n, ok));
      if ok {
        steps, e := Then(s, steps, e, ClearSweep(n));
      }
    }
  }

  /** The preview is of another account: the lock is taken. */
  lemma LocksForRejection(s: State, n: TaskNo, id: PreviewId) returns (steps: seq<Step>, e: State)
    requires Working(s, n, id, false)
    ensures Leads(s, steps, e) && e == s.(tasks := s.tasks[n := Task(id, RejectClearing)], lock := Some(n))
  {
    steps, e := [], s;
    steps, e := Then(s, steps, e, Reject(n));
    steps, e := Then(s, steps, e, LockToReject(n));
  }

  /** The settings are written. */
  lemma WritesRejection(s: State, n: TaskNo, id: PreviewId, ok: bool) returns (steps: seq<Step>, e: State)
    requires Working(s, n, id, false)
    ensures Leads(s, steps, e) && e.tasks == s.tasks[n := Task(id, if ok then RejectCleared else Dropping(false))]
    ensures e == s.(tasks := e.tasks, persisted := e.persisted, lock := if ok then Some(n) else None)
    ensures e.persisted == if ok then None else s.persisted
  {
    steps, e := LocksForRejection(s, n, id);
    steps, e := Then(s, steps, e, WriteReject(n, ok));
  }

  /** Then it is forgotten, or nothing has changed, as the write went, and the claim is dropped either way. */
  lemma RejectsItsPreview(s: State, n: TaskNo, id: PreviewId, ok: bool) returns (steps: seq<Step>, e: State)
    requires Working(s, n, id, false)
    ensures Leads(s, steps, e) && e.tasks == EndedAt(s, n, id)
    ensures if ok then Rests(e, s, None, None) else Rests(e, s, Some(Context(id, false)), s.persisted)
  {
    steps, e := WritesRejection(s, n, id, ok);
    if ok {
      steps, e := Then(s, steps, e, ClearReject(n));
    }
    steps, e := Then(s, steps, e, DropClaim(n));
  }

  /** A command that is dropped while it waits for the lock with a claim gives the claim back. */
  lemma AbandonedClaimIsDropped(s: State, n: TaskNo) returns (e: State)
    requires n < |s.tasks| && (s.tasks[n].stage.Finishing? || s.tasks[n].stage.Rejecting?)
    requires s.registry.active == Some(s.tasks[n].id)
    ensures Leads(s, [Abandon(n), DropClaim(n)], e)
    ensures e == s.(registry := s.registry.(active := None), claimant := None, tasks := e.tasks)
    ensures e.tasks == EndedAt(s, n, s.tasks[n].id)
  {
    var steps;
    steps, e := [], s;
    steps, e := Then(s, steps, e, Abandon(n));
    steps, e := Then(s, steps, e, DropClaim(n));
    assert steps == [Abandon(n), DropClaim(n)];
  }

  /** And one that is dropped without a claim leaves everything as it was. */
  lemma AbandonedWaitIsNothing(s: State, n: TaskNo)
    requires Enabled(s, Abandon(n)) && !s.tasks[n].stage.Finishing? && !s.tasks[n].stage.Rejecting?
    ensures Apply(s, Abandon(n)) == s.(tasks := EndedAt(s, n, s.tasks[n].id))
  {
  }

  // ---- Changing the account ----

  /** The first half of a login or logout: a tombstone is written, under the lock, or nothing changes. */
  lemma WritesTombstone(s: State, written: bool) returns (steps: seq<Step>, e: State)
    requires Idle(s)
    ensures Leads(s, steps, e)
    ensures e.tasks == s.tasks + [Task(0, if written then Invalidated else Over)]
    ensures if written
      then e == s.(tasks := e.tasks, lock := Some(|s.tasks|), persisted := Some(Tombstone),
                   registry := s.registry.(replacing := true))
      else e == s.(tasks := e.tasks)
  {
    var n := |s.tasks|;
    steps, e := [], s;
    steps, e := Then(s, steps, e, StartTransition);
    assert e == s.(tasks := s.tasks + [Task(0, Arriving)]);
    steps, e := Then(s, steps, e, BeginClear(n));
    assert e.tasks == s.tasks + [Task(0, Invalidating)];
    steps, e := Then(s, steps, e, Invalidate(n, written));
  }

  /** The second: what is in memory is forgotten, and the account changes. */
  lemma ForgetsAndChanges(s: State, n: TaskNo) returns (steps: seq<Step>, e: State)
    requires At(s, n, Invalidated)
    ensures Leads(s, steps, e)
    ensures e == s.(tasks := s.tasks[n := s.tasks[n].(stage := Committed)], generation := s.generation + 1,
                    registry := Registry(None, s.registry.active, false))
  {
    steps, e := [], s;
    steps, e := Then(s, steps, e, CommitClear(n));
    assert e == s.(tasks := e.tasks, registry := e.registry) && e.tasks[n] == s.tasks[n].(stage := Committed);
    steps, e := Then(s, steps, e, ChangeGeneration(n));
  }

  /** And the last: the tombstone is removed, if it can be. */
  lemma EndsTransition(s: State, n: TaskNo, removed: bool) returns (steps: seq<Step>, e: State)
    requires At(s, n, Committed)
    ensures Leads(s, steps, e)
    ensures e == s.(tasks := s.tasks[n := s.tasks[n].(stage := Over)], lock := None,
                    persisted := if removed then None else s.persisted)
  {
    steps, e := [], s;
    steps, e := Then(s, steps, e, RemoveTombstone(n, removed));
    steps, e := Then(s, steps, e, EndTransition(n));
  }

  /**
   A login or logout: the preview is forgotten and the generation changes; the settings keep a tombstone if it
   cannot be removed, and if it cannot even be written nothing changes at all.
   */
  lemma UndisturbedTransition(s: State, written: bool, removed: bool) returns (steps: seq<Step>, e: State)
    requires Idle(s)
    ensures Leads(s, steps, e) && OneOver(e, s) && Idle(e)
    ensures if written then e.generation == s.generation + 1 && e.registry.context.None?
                            && e.persisted == if removed then None else Some(Tombstone)
            else Rests(e, s, s.registry.context, s.persisted)
  {
    steps, e := WritesTombstone(s, written);
    if written {
      var more, late := ForgetsAndChanges(e, |s.tasks|);
      LeadsFurther(s, steps, e, more, late);
      var last, end := EndsTransition(late, |s.tasks|, removed);
      LeadsFurther(s, steps + more, late, last, end);
      steps, e := steps + more + last, end;
    }
  }
}
