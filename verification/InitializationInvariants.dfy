/** What every step of the initialization protocol keeps. */
module InitializationInvariants {
  import opened Text
  import opened InitializationCore
  import opened InitializationProtocol

  predicate Live(stage: Stage) {
    stage.Working? || stage.Finishing? || stage.Clearing? || stage.Settled? || stage.Rejecting? || stage.RejectClearing?
    || stage.RejectCleared? || stage.Dropping?
  }

  predicate Changing(stage: Stage) {
    stage.Replacing? || stage.Written? || stage.Invalidating? || stage.Invalidated?
  }

  predicate ClaimingNow(stage: Stage) {
    stage.Absent? || stage.Found? || stage.Ready?
  }

  predicate Holding(stage: Stage) {
    Changing(stage) || ClaimingNow(stage) || stage.Clearing? || stage.RejectClearing? || stage.RejectCleared?
    || stage.SweepClearing? || stage.SweepCleared? || stage.Committed?
  }

  /** The lock's holder is the one task in a section under the lock. */
  ghost predicate OneHolder(s: State) {
    && (forall n | 0 <= n < |s.tasks| && Holding(s.tasks[n].stage) :: s.lock == Some(n))
    && (s.lock.Some? ==> s.lock.value < |s.tasks| && Holding(s.tasks[s.lock.value].stage))
  }

  /** The live claim is the one the registry knows. */
  ghost predicate OneClaim(s: State) {
    && (forall n | 0 <= n < |s.tasks| && Live(s.tasks[n].stage) :: s.claimant == Some(n))
    && (if s.claimant.None? then s.registry.active.None?
        else
          && s.claimant.value < |s.tasks| && Live(s.tasks[s.claimant.value].stage)
          && s.registry.active == Some(s.tasks[s.claimant.value].id))
  }

  /**
   The registry is being changed exactly while some section under the lock says so; and no claim is live
   then, nor while one is being made or an account changes.
   */
  ghost predicate ChangesExclude(s: State) {
    && (s.registry.replacing <==> s.lock.Some? && s.lock.value < |s.tasks| && Changing(s.tasks[s.lock.value].stage))
    && (s.lock.Some? && s.lock.value < |s.tasks| ==>
          var stage := s.tasks[s.lock.value].stage;
          && (Changing(stage) || ClaimingNow(stage) || stage.Committed? ==> s.claimant.None?)
          && (stage.Written? || stage.Found? || stage.Ready? ==> PersistedFor(s, s.tasks[s.lock.value].id))
          && (stage.Committed? ==> s.registry.context.None?))
  }

  /** A claim that has its completion recorded leaves no other context in memory. */
  ghost predicate CompletionRecorded(s: State) {
    s.claimant.Some? && s.claimant.value < |s.tasks| ==>
      var task := s.tasks[s.claimant.value];
      task.stage == Working(true) || task.stage.Finishing? || task.stage.Clearing? || task.stage.Settled? ==>
        s.registry.context.None? || s.registry.context.value == Context(task.id, true)
  }

  /** The settings file was changed by the section under way, and memory will follow. */
  predicate MemoryFollows(s: State) {
    s.lock.Some? && s.lock.value < |s.tasks|
    && var stage := s.tasks[s.lock.value].stage;
      stage.Written? || stage.Invalidated? || stage.RejectCleared? || stage.SweepCleared?
  }

  /** A context in memory is the stored one, or records a completion. */
  predicate Backed(s: State) {
    s.registry.context.Some? ==>
      PersistedFor(s, s.registry.context.value.id) || s.registry.context.value.completed || MemoryFollows(s)
  }

  ghost predicate Inv(s: State) {
    OneHolder(s) && OneClaim(s) && ChangesExclude(s) && CompletionRecorded(s) && Backed(s)
  }

  lemma InvInitially(s: State)
    requires Initial(s)
    ensures Inv(s)
  {
  }

  predicate IsPreviewing(step: Step) {
    step.BeginReplace? || step.WritePreview? || step.CommitReplace?
  }

  predicate IsClaiming(step: Step) {
    step.Claim? || step.Load? || step.Sanitize? || step.InsertAndClaim?
  }

  predicate IsWorking(step: Step) {
    || step.Skip? || step.Succeed? || step.Reject? || step.Fail? || step.LockToFinish?
    || step.WriteFinish? || step.Complete?
  }

  predicate IsRejecting(step: Step) {
    step.LockToReject? || step.WriteReject? || step.ClearReject? || step.DropClaim?
  }

  predicate IsSweeping(step: Step) {
    step.LockToSweep? || step.WriteSweep? || step.ClearSweep? || step.Abandon?
  }

  predicate IsTransiting(step: Step) {
    || step.BeginClear? || step.Invalidate? || step.CommitClear? || step.ChangeGeneration? || step.RemoveTombstone?
    || step.EndTransition?
  }

  /** The steps of previews and of initializations up to the work itself. */
  predicate IsEarly(step: Step) {
    || step.StartPreview? || step.StartInitialize? || IsPreviewing(step) || IsClaiming(step)
    || step.Skip? || step.Succeed? || step.Reject? || step.Fail?
  }

  predicate Starts(step: Step) {
    step.StartPreview? || step.StartInitialize? || step.StartTransition?
  }

  /** How the lock and the claim go with the stage of the one task that moves. */
  predicate Moves(s: State, after: State, n: TaskNo) {
    && n < |s.tasks| == |after.tasks|
    && after.tasks == s.tasks[n := after.tasks[n]]
    && after.tasks[n].id == s.tasks[n].id
    && (if Holding(after.tasks[n].stage) then after.lock == Some(n) && (s.lock.None? || s.lock == Some(n))
        else after.lock == if Holding(s.tasks[n].stage) then None else s.lock)
    && (if Live(after.tasks[n].stage) then after.claimant == Some(n) && (s.claimant.None? || s.claimant == Some(n))
        else after.claimant == if Live(s.tasks[n].stage) then None else s.claimant)
    && after.registry.active ==
         (if Live(after.tasks[n].stage) then Some(s.tasks[n].id)
          else if Live(s.tasks[n].stage) then None else s.registry.active)
  }

  lemma OneStays(s: State, after: State, n: TaskNo)
    requires OneHolder(s) && OneClaim(s) && Moves(s, after, n)
    ensures OneHolder(after) && OneClaim(after)
  {
  }

  predicate Placed(s: State, n: TaskNo) {
    && n < |s.tasks|
    && (Holding(s.tasks[n].stage) ==> s.lock == Some(n))
    && (Live(s.tasks[n].stage) ==> s.claimant == Some(n) && s.registry.active == Some(s.tasks[n].id))
    && (s.claimant.None? ==> s.registry.active.None?)
    && (s.lock == Some(n) ==> Holding(s.tasks[n].stage))
    && (s.claimant.Some? ==> s.registry.active.Some?)
  }

  lemma MovesPreviewing(s: State, step: Step)
    requires Enabled(s, step) && IsPreviewing(step)
    requires Placed(s, step.n)
    ensures Moves(s, Apply(s, step), step.n)
  {
    if step.BeginReplace? {
    } else if step.WritePreview? {
    } else {
    }
  }

  lemma MovesClaiming(s: State, step: Step)
    requires Enabled(s, step) && IsClaiming(step)
    requires Placed(s, step.n)
    ensures Moves(s, Apply(s, step), step.n)
  {
    if step.Claim? {
    } else if step.Load? {
    } else if step.Sanitize? {
    } else {
    }
  }

  lemma MovesWorking(s: State, step: Step)
    requires Enabled(s, step) && IsWorking(step)
    requires Placed(s, step.n)
    ensures Moves(s, Apply(s, step), step.n)
  {
    if step.Skip? {
    } else if step.Succeed? {
    } else if step.Reject? {
    } else if step.Fail? {
    } else if step.LockToFinish? {
    } else if step.WriteFinish? {
    } else {
    }
  }

  lemma MovesRejecting(s: State, step: Step)
    requires Enabled(s, step) && IsRejecting(step) && Placed(s, step.n)
    ensures Moves(s, Apply(s, step), step.n)
  {
    if step.LockToReject? {
    } else if step.WriteReject? {
    } else if step.ClearReject? {
    } else {
    }
  }

  lemma MovesSweeping(s: State, step: Step)
    requires Enabled(s, step) && IsSweeping(step) && Placed(s, step.n)
    ensures Moves(s, Apply(s, step), step.n)
  {
    if step.LockToSweep? {
    } else if step.WriteSweep? {
    } else if step.ClearSweep? {
    } else {
    }
  }

  lemma MovesTransiting(s: State, step: Step)
    requires Enabled(s, step) && IsTransiting(step)
    requires Placed(s, step.n)
    ensures Moves(s, Apply(s, step), step.n)
  {
    if step.BeginClear? {
    } else if step.Invalidate? {
    } else if step.CommitClear? {
    } else if step.ChangeGeneration? {
    } else if step.RemoveTombstone? {
    } else {
    }
  }

  lemma OneStarts(s: State, step: Step)
    requires OneHolder(s) && OneClaim(s) && Starts(step)
    ensures OneHolder(Apply(s, step)) && OneClaim(Apply(s, step))
  {
  }

  lemma ChangesExcludeEarly(s: State, step: Step)
    requires Inv(s) && Enabled(s, step) && IsEarly(step)
    ensures ChangesExclude(Apply(s, step))
  {
    if step.StartPreview? {
    } else if step.BeginReplace? {
    } else if step.WritePreview? {
    } else if step.CommitReplace? {
    } else if step.StartInitialize? {
    } else if step.Claim? {
    } else if step.Load? {
    } else if step.Sanitize? {
    } else if step.InsertAndClaim? {
    } else if step.Skip? {
    } else if step.Succeed? {
    } else if step.Reject? {
    } else {
    }
  }

  lemma ChangesExcludeEnding(s: State, step: Step)
    requires Inv(s) && Enabled(s, step) && !IsEarly(step) && (IsWorking(step) || IsRejecting(step) || IsSweeping(step))
    ensures ChangesExclude(Apply(s, step))
  {
    if step.LockToFinish? || step.LockToReject? || step.LockToSweep? {
    } else if step.WriteFinish? || step.WriteReject? || step.WriteSweep? {
    } else if step.Complete? || step.DropClaim? || step.Abandon? {
    } else {
    }
  }

  lemma ChangesExcludeTransiting(s: State, step: Step)
    requires Inv(s) && Enabled(s, step) && (step.StartTransition? || IsTransiting(step))
    ensures ChangesExclude(Apply(s, step))
  {
    if step.StartTransition? {
    } else if step.BeginClear? {
    } else if step.Invalidate? {
    } else if step.CommitClear? {
    } else {
    }
  }

  lemma CompletionRecordedEarly(s: State, step: Step)
    requires Inv(s) && Enabled(s, step) && IsEarly(step)
    ensures CompletionRecorded(Apply(s, step))
  {
    if step.StartPreview? {
    } else if step.BeginReplace? {
    } else if step.WritePreview? {
    } else if step.CommitReplace? {
    } else if step.StartInitialize? {
    } else if step.Claim? {
    } else if step.Load? {
    } else if step.Sanitize? {
    } else if step.InsertAndClaim? {
    } else if step.Skip? {
    } else if step.Succeed? {
    } else if step.Reject? {
    } else {
    }
  }

  lemma CompletionRecordedLate(s: State, step: Step)
    requires Inv(s) && Enabled(s, step) && !IsEarly(step)
    ensures CompletionRecorded(Apply(s, step))
  {
    if step.LockToFinish? {
    } else if step.WriteFinish? {
    } else if step.Complete? {
    } else if step.LockToReject? {
    } else if step.WriteReject? {
    } else if step.ClearReject? {
    } else if step.DropClaim? {
    } else if step.LockToSweep? {
    } else if step.WriteSweep? {
    } else if step.ClearSweep? {
    } else if step.Abandon? {
    } else if step.StartTransition? {
    } else if step.BeginClear? {
    } else if step.Invalidate? {
    } else if step.CommitClear? {
    } else if step.ChangeGeneration? {
    } else if step.RemoveTombstone? {
    } else {
    }
  }

  lemma BackedEarly(s: State, step: Step)
    requires Inv(s) && Enabled(s, step) && IsEarly(step)
    ensures Backed(Apply(s, step))
  {
    if step.StartPreview? {
    } else if step.BeginReplace? {
    } else if step.WritePreview? {
    } else if step.CommitReplace? {
    } else if step.StartInitialize? {
    } else if step.Claim? {
    } else if step.Load? {
    } else if step.Sanitize? {
    } else if step.InsertAndClaim? {
    } else if step.Skip? {
    } else if step.Succeed? {
    } else if step.Reject? {
    } else {
    }
  }

  lemma BackedLate(s: State, step: Step)
    requires Inv(s) && Enabled(s, step) && !IsEarly(step)
    ensures Backed(Apply(s, step))
  {
    if step.LockToFinish? {
    } else if step.WriteFinish? {
    } else if step.Complete? {
    } else if step.LockToReject? {
    } else if step.WriteReject? {
    } else if step.ClearReject? {
    } else if step.DropClaim? {
    } else if step.LockToSweep? {
    } else if step.WriteSweep? {
    } else if step.ClearSweep? {
    } else if step.Abandon? {
    } else if step.StartTransition? {
    } else if step.BeginClear? {
    } else if step.Invalidate? {
    } else if step.CommitClear? {
    } else if step.ChangeGeneration? {
    } else if step.RemoveTombstone? {
    } else {
    }
  }

  lemma InvKept(s: State, step: Step)
    requires Inv(s) && Enabled(s, step)
    ensures Inv(Apply(s, step))
  {
    if Starts(step) {
      OneStarts(s, step);
    } else {
      if IsPreviewing(step) {
        MovesPreviewing(s, step);
      } else if IsClaiming(step) {
        MovesClaiming(s, step);
      } else if IsWorking(step) {
        MovesWorking(s, step);
      } else if IsRejecting(step) {
        MovesRejecting(s, step);
      } else if IsSweeping(step) {
        MovesSweeping(s, step);
      } else {
        MovesTransiting(s, step);
      }
      OneStays(s, Apply(s, step), step.n);
    }
    if IsEarly(step) {
      ChangesExcludeEarly(s, step);
      CompletionRecordedEarly(s, step);
      BackedEarly(s, step);
    } else {
      if step.StartTransition? || IsTransiting(step) {
        ChangesExcludeTransiting(s, step);
      } else {
        ChangesExcludeEnding(s, step);
      }
      CompletionRecordedLate(s, step);
      BackedLate(s, step);
    }
  }
}
