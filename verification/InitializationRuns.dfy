/** Main results about runs of the initialization protocol. */
module InitializationRuns {
  import opened Text
  import opened InitializationCore
  import opened InitializationProtocol
  import opened InitializationInvariants

  lemma {:induction false} ReachableInv(states: seq<State>, steps: seq<Step>, i: nat)
    requires IsRun(states, steps) && i < |states|
    ensures Inv(states[i])
  {
    if i == 0 {
      InvInitially(states[0]);
    } else {
      ReachableInv(states, steps, i - 1);
      InvKept(states[i - 1], steps[i - 1]);
    }
  }

  /** At most one claim is live, and the registry knows which. */
  lemma OneClaimAtATime(states: seq<State>, steps: seq<Step>, i: nat, m: TaskNo, n: TaskNo)
    requires IsRun(states, steps) && i < |states|
    requires m < |states[i].tasks| && n < |states[i].tasks|
    requires Live(states[i].tasks[m].stage) && Live(states[i].tasks[n].stage)
    ensures m == n && states[i].registry.active == Some(states[i].tasks[n].id)
  {
    ReachableInv(states, steps, i);
  }

  /** While a claim is live the account does not change: neither a login nor a logout gets as far as its generation. */
  lemma NoAccountChangeDuringClaim(states: seq<State>, steps: seq<Step>, i: nat)
    requires IsRun(states, steps) && i < |steps| && states[i].claimant.Some?
    ensures states[i + 1].generation == states[i].generation
    ensures !steps[i].CommitClear? && !steps[i].CommitReplace? && !steps[i].Invalidate? && !steps[i].WritePreview?
  {
    ReachableInv(states, steps, i);
    var step := steps[i];
    if step.CommitClear? || step.CommitReplace? || step.Invalidate? || step.WritePreview?
       || states[i + 1].generation != states[i].generation {
      ChangesNeedNoClaim(states[i], steps[i]);
    }
  }

  lemma ChangesNeedNoClaim(s: State, step: Step)
    requires OneHolder(s) && ChangesExclude(s) && Enabled(s, step)
    requires step.CommitClear? || step.CommitReplace? || step.Invalidate? || step.WritePreview?
      || Apply(s, step).generation != s.generation
    ensures s.claimant.None?
  {
  }

  /** While one claim is live, the generation is the one it started with. */
  lemma {:induction false} GenerationDuringClaim(states: seq<State>, steps: seq<Step>, i: nat, j: nat)
    requires IsRun(states, steps) && i <= j < |states|
    requires forall k | i <= k < j :: states[k].claimant.Some?
    ensures states[j].generation == states[i].generation
  {
    if i < j {
      GenerationDuringClaim(states, steps, i, j - 1);
      NoAccountChangeDuringClaim(states, steps, j - 1);
    }
  }

  /** Nobody is in a section under the lock and no claim is live. */
  predicate Quiet(s: State) {
    s.lock.None? && s.claimant.None?
  }

  /** The context in memory is the stored one. */
  predicate Agree(s: State) {
    s.registry.context.Some? ==> PersistedFor(s, s.registry.context.value.id)
  }

  /** Whichever writes failed, in a quiet state a context in memory is the stored one or records a completion. */
  lemma QuietContextIsStoredOrCompleted(states: seq<State>, steps: seq<Step>, i: nat)
    requires IsRun(states, steps) && i < |states| && Quiet(states[i])
    ensures states[i].registry.context.Some? ==> Agree(states[i]) || states[i].registry.context.value.completed
  {
    ReachableInv(states, steps, i);
  }

  // ---- Clearing a preview that another initialization is using ----

  /**
   A failed initialization clears the settings after its claim was dropped, even if another one is at work on
   the same preview by then.
   */
  predicate Stray(s: State, step: Step) {
    step.WriteSweep? && step.ok && s.claimant.Some? && s.claimant.value < |s.tasks|
      && s.tasks[s.claimant.value].stage == Working(false)
  }

  /** Without such a step: the settings keep what a claim is at work on, until it clears them itself. */
  ghost predicate Kept(s: State) {
    && (s.claimant.Some? && s.claimant.value < |s.tasks| && s.tasks[s.claimant.value].stage == Working(false) ==>
          PersistedFor(s, s.tasks[s.claimant.value].id))
    && (s.registry.context.Some? ==>
          || PersistedFor(s, s.registry.context.value.id)
          || MemoryFollows(s)
          || (s.claimant.Some? && s.claimant.value < |s.tasks| && s.tasks[s.claimant.value].stage.Settled?
              && s.registry.context.value.id == s.tasks[s.claimant.value].id))
  }

  lemma KeptStarting(s: State, step: Step)
    requires Kept(s) && Enabled(s, step) && Starts(step)
    ensures Kept(Apply(s, step))
  {
    if step.StartPreview? {
    } else if step.StartInitialize? {
    } else {
    }
  }

  lemma KeptPreviewing(s: State, step: Step)
    requires Inv(s) && Kept(s) && Enabled(s, step) && IsPreviewing(step)
    ensures Kept(Apply(s, step))
  {
    if step.BeginReplace? {
    } else if step.WritePreview? {
    } else {
    }
  }

  lemma KeptClaiming(s: State, step: Step)
    requires Inv(s) && Kept(s) && Enabled(s, step) && IsClaiming(step)
    ensures Kept(Apply(s, step))
  {
    if step.Claim? {
    } else if step.Load? {
    } else if step.Sanitize? {
    } else {
    }
  }

  lemma KeptWorking(s: State, step: Step)
    requires Inv(s) && Kept(s) && Enabled(s, step) && IsWorking(step)
    ensures Kept(Apply(s, step))
  {
    if step.Skip? {
    } else if step.Succeed? {
    } else if step.Reject? {
    } else if step.Fail? {
    } else if step.LockToFinish? {
    } else if step.WriteFinish? {
    } else {
    }
  }

  lemma KeptRejecting(s: State, step: Step)
    requires Inv(s) && Kept(s) && Enabled(s, step) && IsRejecting(step) && !Stray(s, step)
    ensures Kept(Apply(s, step))
  {
    if step.LockToReject? {
    } else if step.WriteReject? {
    } else if step.ClearReject? {
    } else {
    }
  }

  lemma KeptSweeping(s: State, step: Step)
    requires Inv(s) && Kept(s) && Enabled(s, step) && IsSweeping(step) && !Stray(s, step)
    ensures Kept(Apply(s, step))
  {
    if step.LockToSweep? {
    } else if step.WriteSweep? {
    } else if step.ClearSweep? {
    } else {
    }
  }

  lemma KeptTransiting(s: State, step: Step)
    requires Inv(s) && Kept(s) && Enabled(s, step) && IsTransiting(step)
    ensures Kept(Apply(s, step))
  {
    if step.BeginClear? {
    } else if step.Invalidate? {
    } else if step.CommitClear? {
    } else if step.ChangeGeneration? {
    } else if step.RemoveTombstone? {
    } else {
    }
  }

  lemma {:induction false} KeptWithoutStrays(states: seq<State>, steps: seq<Step>, i: nat)
    requires IsRun(states, steps) && i < |states|
    requires forall k | 0 <= k < i :: !Stray(states[k], steps[k])
    ensures Kept(states[i])
  {
    if i > 0 {
      KeptWithoutStrays(states, steps, i - 1);
      ReachableInv(states, steps, i - 1);
      var s, step := states[i - 1], steps[i - 1];
      if Starts(step) {
        KeptStarting(s, step);
      } else if IsPreviewing(step) {
        KeptPreviewing(s, step);
      } else if IsClaiming(step) {
        KeptClaiming(s, step);
      } else if IsWorking(step) {
        KeptWorking(s, step);
      } else if IsRejecting(step) {
        KeptRejecting(s, step);
      } else if IsSweeping(step) {
        KeptSweeping(s, step);
      } else {
        KeptTransiting(s, step);
      }
    }
  }

  /**
   Whichever writes failed: unless a sweep hit an initialization at work, the context in memory of a quiet
   state is the stored one.
   */
  lemma QuietStatesAgree(states: seq<State>, steps: seq<Step>, i: nat)
    requires IsRun(states, steps) && i < |states| && Quiet(states[i])
    requires forall k | 0 <= k < i :: !Stray(states[k], steps[k])
    ensures Agree(states[i])
  {
    KeptWithoutStrays(states, steps, i);
  }

  /**
   Where the initialization hit by the sweep of task `n` ends up if it then succeeds but cannot write the
   settings.
   */
  function Aftermath(s: State, n: TaskNo, m: TaskNo): State
    requires n < |s.tasks| && m < |s.tasks|
  {
    s.(registry := Registry(Some(Context(s.tasks[m].id, true)), None, false),
       persisted := None,
       lock := None,
       claimant := None,
       tasks := s.tasks[n := s.tasks[n].(stage := Over)][m := s.tasks[m].(stage := Over)])
  }

  /**
   With one it need not be: from any such step the run can go on to a quiet state whose context is in
   memory only, because the initialization that was hit succeeds and then cannot write the settings.
   */
  lemma StrayMayDisagree(states: seq<State>, steps: seq<Step>, step: Step)
    requires IsRun(states, steps) && Enabled(states[|steps|], step) && Stray(states[|steps|], step)
    ensures var s := states[|steps|];
      var n, m := step.n, s.claimant.value;
      && Quiet(Aftermath(s, n, m)) && !Agree(Aftermath(s, n, m))
      && Leads(s, [step, ClearSweep(n), Succeed(m), LockToFinish(m), WriteFinish(m, false), DropClaim(m)],
        Aftermath(s, n, m))
  {
    ReachableInv(states, steps, |steps|);
    StrayLeads(states[|steps|], step);
  }

  lemma StrayLeads(s: State, step: Step)
    requires Inv(s) && Enabled(s, step) && Stray(s, step)
    ensures var n, m := step.n, s.claimant.value;
      && Quiet(Aftermath(s, n, m)) && !Agree(Aftermath(s, n, m))
      && Leads(s, [step, ClearSweep(n), Succeed(m), LockToFinish(m), WriteFinish(m, false), DropClaim(m)],
        Aftermath(s, n, m))
  {
    var n, m := step.n, s.claimant.value;
    var swept := Apply(s, step);
    var cleared := Apply(swept, ClearSweep(n));
    HitClaimFinishes(cleared, m);
    assert Aftermath(s, n, m) == Alone(cleared, m);
    LeadsFirst(swept, ClearSweep(n), [Succeed(m), LockToFinish(m), WriteFinish(m, false), DropClaim(m)],
      Alone(cleared, m));
    LeadsFirst(s, step, [ClearSweep(n), Succeed(m), LockToFinish(m), WriteFinish(m, false), DropClaim(m)],
      Alone(cleared, m));
    assert [step] + [ClearSweep(n), Succeed(m), LockToFinish(m), WriteFinish(m, false), DropClaim(m)]
      == [step, ClearSweep(n), Succeed(m), LockToFinish(m), WriteFinish(m, false), DropClaim(m)];
  }

  lemma LeadsFirst(s: State, step: Step, rest: seq<Step>, t: State)
    requires Enabled(s, step) && Leads(Apply(s, step), rest, t)
    ensures Leads(s, [step] + rest, t)
  {
    assert ([step] + rest)[1..] == rest;
  }

  function Alone(s: State, m: TaskNo): State
    requires m < |s.tasks|
  {
    s.(registry := Registry(Some(Context(s.tasks[m].id, true)), None, false),
       claimant := None,
       tasks := s.tasks[m := s.tasks[m].(stage := Over)])
  }

  lemma HitClaimFinishes(s: State, m: TaskNo)
    requires At(s, m, Working(false)) && s.lock.None? && !s.registry.replacing
    requires s.registry.active == Some(s.tasks[m].id)
    ensures Leads(s, [Succeed(m), LockToFinish(m), WriteFinish(m, false), DropClaim(m)], Alone(s, m))
  {
    var s1 := Apply(s, Succeed(m));
    var s2 := Apply(s1, LockToFinish(m));
    WriteFails(s2, m);
    assert Alone(s, m) == Alone(s2, m).(lock := None);
    LeadsFirst(s1, LockToFinish(m), [WriteFinish(m, false), DropClaim(m)], Alone(s, m));
    LeadsFirst(s, Succeed(m), [LockToFinish(m), WriteFinish(m, false), DropClaim(m)], Alone(s, m));
  }

  lemma WriteFails(s: State, m: TaskNo)
    requires At(s, m, Clearing)
    requires s.registry == Registry(Some(Context(s.tasks[m].id, true)), Some(s.tasks[m].id), false)
    ensures Leads(s, [WriteFinish(m, false), DropClaim(m)], Alone(s, m).(lock := None))
  {
    var s1 := Apply(s, WriteFinish(m, false));
    var t := Alone(s, m).(lock := None);
    assert Apply(s1, DropClaim(m)).tasks == t.tasks;
    assert Leads(t, [], t);
    LeadsFirst(s1, DropClaim(m), [], t);
    LeadsFirst(s, WriteFinish(m, false), [DropClaim(m)], t);
  }

  lemma Extend(states: seq<State>, steps: seq<Step>, step: Step) returns (further: seq<State>, taken: seq<Step>)
    requires IsRun(states, steps) && Enabled(states[|steps|], step)
    ensures IsRun(further, taken) && taken == steps + [step]
    ensures further == states + [Apply(states[|steps|], step)]
  {
    further, taken := states + [Apply(states[|steps|], step)], steps + [step];
    forall i | 0 <= i < |taken| ensures Enabled(further[i], taken[i]) && further[i + 1] == Apply(further[i], taken[i]) {
      if i < |steps| {
        assert taken[i] == steps[i] && further[i] == states[i] && further[i + 1] == states[i + 1];
      }
    }
  }

  const STORED := Some(Stored(Context(7, false)))
  const IN_MEMORY := Registry(Some(Context(7, false)), None, false)

  /** A preview is saved. */
  lemma PreviewSaved() returns (states: seq<State>, steps: seq<Step>)
    ensures IsRun(states, steps) && |steps| == 4
    ensures states[4] == State(IN_MEMORY, STORED, 0, None, None, [Task(7, Over)])
  {
    states, steps := [State(Registry(None, None, false), None, 0, None, None, [])], [];
    states, steps := Extend(states, steps, StartPreview(7));
    states, steps := Extend(states, steps, BeginReplace(0));
    states, steps := Extend(states, steps, WritePreview(0, true));
    states, steps := Extend(states, steps, CommitReplace(0));
  }

  /** Its initialization fails and is about to sweep. */
  lemma FailedAndWaiting() returns (states: seq<State>, steps: seq<Step>)
    ensures IsRun(states, steps) && |steps| == 8
    ensures states[8] == State(IN_MEMORY, STORED, 0, None, None, [Task(7, Over), Task(7, Sweeping)])
  {
    states, steps := PreviewSaved();
    states, steps := Extend(states, steps, StartInitialize(7));
    states, steps := Extend(states, steps, Claim(1));
    states, steps := Extend(states, steps, Fail(1, true));
    states, steps := Extend(states, steps, DropClaim(1));
  }

  /** Then a second initialization claims it. */
  lemma ClaimedAgain() returns (states: seq<State>, steps: seq<Step>)
    ensures IsRun(states, steps) && |steps| == 10
    ensures states[10].registry == Claimed(IN_MEMORY, 7) && states[10].lock == None && states[10].claimant == Some(2)
    ensures states[10].tasks == [Task(7, Over), Task(7, Sweeping), Task(7, Working(false))]
  {
    states, steps := FailedAndWaiting();
    states, steps := Extend(states, steps, StartInitialize(7));
    states, steps := Extend(states, steps, Claim(2));
  }

  /** Such a step is reachable. */
  lemma StraysAreReachable() returns (states: seq<State>, steps: seq<Step>, step: Step)
    ensures IsRun(states, steps) && Enabled(states[|steps|], step) && Stray(states[|steps|], step)
  {
    states, steps := ClaimedAgain();
    states, steps := Extend(states, steps, LockToSweep(1));
    step := WriteSweep(1, true);
  }
}
