/** Which terminal event an attempt gets, and why: success only for tokens that were stored. */
module AuthOutcomes {
  import opened Text
  import opened AuthCore
  import opened AuthProtocol
  import opened AuthInvariants
  import opened AuthRuns

  /** Step `i` put the tokens of the attempt into the store. */
  ghost predicate StoredAt(states: seq<State>, steps: seq<Step>, i: nat, t: TaskNo)
    requires IsRun(states, steps)
  {
    SavesAt(states, steps, i, t) && states[i + 1].core.store == Some(Tokens(t, steps[i].secret))
  }

  /** The attempt stands where only saving leads. */
  predicate HasSaved(s: State, t: TaskNo) {
    t in s.tasks && s.tasks[t].LoginTask?
    && (s.tasks[t].stage.Saving? || s.tasks[t].stage.Announcing? || s.tasks[t].stage == Ending(Authenticated))
  }

  lemma OnlySavingLeadsThere(s: State, step: Step, t: TaskNo)
    requires Enabled(s, step) && HasSaved(Apply(s, step), t) && !HasSaved(s, t)
    ensures step.Save? && step.t == t && LoginAt(Apply(s, step), t, Saving)
    ensures Apply(s, step).core.store == Some(Tokens(t, step.secret))
  {
  }

  lemma OnlyTheSavedAnnounce(s: State, step: Step, t: TaskNo)
    requires Enabled(s, step) && Notice(t, Authenticated) in Apply(s, step).outbox
    requires Notice(t, Authenticated) !in s.outbox
    ensures HasSaved(s, t)
  {
  }

  /** Success is announced only for tokens that the attempt had stored: in every run, at every moment. */
  lemma {:induction false} AuthenticatedMeansStored(states: seq<State>, steps: seq<Step>, k: nat, t: TaskNo)
    returns (i: nat)
    requires IsRun(states, steps) && k < |states|
    requires Notice(t, Authenticated) in states[k].outbox || HasSaved(states[k], t)
    ensures i < k && StoredAt(states, steps, i, t)
  {
    var before, step := states[k - 1], steps[k - 1];
    if Notice(t, Authenticated) in states[k].outbox && Notice(t, Authenticated) !in before.outbox {
      OnlyTheSavedAnnounce(before, step, t);
    }
    if Notice(t, Authenticated) in before.outbox || HasSaved(before, t) {
      i := AuthenticatedMeansStored(states, steps, k - 1, t);
    } else {
      OnlySavingLeadsThere(before, step, t);
      i := k - 1;
    }
  }

  // ---- The event of every ending ----

  /** The attempt is about to emit `event`, or has: only a cancel that won changes what goes out. */
  ghost predicate Announces(s: State, t: TaskNo, event: Event) {
    || LoginAt(s, t, Ending(event))
    || (LoginAt(s, t, Done) && EventsOf(s.outbox, t) == [if t in s.cancelWon then Cancelled else event])
  }

  lemma OutboxStep(s: State, step: Step)
    requires Enabled(s, step)
    ensures var n := Apply(s, step);
      n.outbox == s.outbox || (step.Emit? && n.outbox == s.outbox + [Notice(step.t, n.outbox[|n.outbox| - 1].event)])
  {
  }

  /** The attempt has nothing left to do but emit its event or clean up. */
  predicate Resting(s: State, t: TaskNo) {
    && t in s.tasks && s.tasks[t].LoginTask?
    && var stage := s.tasks[t].stage; stage.Ending? || stage.Announcing? || stage.CleaningUp? || stage.Done?
  }

  lemma RestsBesideLogins(s: State, step: Step, t: TaskNo)
    requires RegistryInv(s) && Enabled(s, step) && Resting(s, t) && !IsRefreshStep(step)
    requires step != Emit(t) && !(step.CleanUp? && step.t == t)
    ensures t in Apply(s, step).tasks && Apply(s, step).tasks[t] == s.tasks[t]
  {
    if step.Register? || step.BeginFirst? || step.BeginSecond? || step.Abandon? {
    } else if step.Take? || step.Grant? || step.Stop? || step.Save? {
    } else {
    }
  }

  lemma RestsBesideRefreshes(s: State, step: Step, t: TaskNo)
    requires RegistryInv(s) && Enabled(s, step) && Resting(s, t) && IsRefreshStep(step)
    ensures t in Apply(s, step).tasks && Apply(s, step).tasks[t] == s.tasks[t]
  {
  }

  lemma Rests(s: State, step: Step, t: TaskNo)
    requires RegistryInv(s) && Enabled(s, step) && Resting(s, t)
    requires step != Emit(t) && !(step.CleanUp? && step.t == t)
    ensures t in Apply(s, step).tasks && Apply(s, step).tasks[t] == s.tasks[t]
  {
    if IsRefreshStep(step) {
      RestsBesideRefreshes(s, step, t);
    } else {
      RestsBesideLogins(s, step, t);
    }
  }

  /** Only an attempt without its event yet can be cancelled. */
  lemma CancelsTheLive(s: State, step: Step, t: TaskNo)
    requires RegistryInv(s) && Enabled(s, step) && t in Apply(s, step).cancelWon && t !in s.cancelWon
    ensures LiveAt(s, t)
  {
  }

  lemma DoneAttemptsRest(s: State, step: Step, t: TaskNo)
    requires RegistryInv(s) && Enabled(s, step) && LoginAt(s, t, Done)
    ensures LoginAt(Apply(s, step), t, Done) && (t in s.cancelWon <==> t in Apply(s, step).cancelWon)
    ensures step != Emit(t)
  {
    Rests(s, step, t);
    CancelGrows(s, step);
    if t in Apply(s, step).cancelWon && t !in s.cancelWon {
      CancelsTheLive(s, step, t);
    }
  }

  lemma EventsStay(s: State, step: Step, t: TaskNo)
    requires Inv(s) && Enabled(s, step) && step != Emit(t)
    ensures EventsOf(Apply(s, step).outbox, t) == EventsOf(s.outbox, t)
  {
    OutboxStep(s, step);
    if Apply(s, step).outbox != s.outbox {
      EventsAppended(s.outbox, Notice(step.t, Apply(s, step).outbox[|Apply(s, step).outbox| - 1].event), t);
    }
  }

  lemma EmitMovesOn(s: State, t: TaskNo)
    requires RegistryInv(s) && Enabled(s, Emit(t))
    ensures var n, stage := Apply(s, Emit(t)), s.tasks[t].stage;
      && n.cancelWon == s.cancelWon
      && (LoginAt(n, t, Done) || (LoginAt(n, t, CleaningUp) && stage.Announcing? && t in s.cancelWon))
  {
    assert LiveAt(s, t);
  }

  /** Emitting forwards the event the attempt ended with, unless a cancel won. */
  lemma EmitForwards(s: State, t: TaskNo)
    requires Inv(s) && Enabled(s, Emit(t))
    ensures var stage := s.tasks[t].stage;
      var event := if stage.Ending? then stage.event else Authenticated;
      EventsOf(Apply(s, Emit(t)).outbox, t) == [if t in s.cancelWon then Cancelled else event]
  {
    var stage := s.tasks[t].stage;
    var event := if stage.Ending? then stage.event else Authenticated;
    assert LiveAt(s, t);
    PublishForwards(s, t, event);
    EventsAppended(s.outbox, Notice(t, if t in s.cancelWon then Cancelled else event), t);
  }

  lemma AnnouncingStays(s: State, step: Step, t: TaskNo, event: Event)
    requires Inv(s) && Enabled(s, step) && Announces(s, t, event)
    ensures Announces(Apply(s, step), t, event)
  {
    if LoginAt(s, t, Done) {
      DoneAttemptsRest(s, step, t);
      EventsStay(s, step, t);
    } else if step == Emit(t) {
      EmitForwards(s, t);
      EmitMovesOn(s, t);
    } else {
      Rests(s, step, t);
    }
  }

  /** An attempt that is about to end with an event forwards it, and nothing else, unless a cancel wins. */
  lemma {:induction false} EndingIsForwarded(
      states: seq<State>, steps: seq<Step>, i: nat, k: nat, t: TaskNo, event: Event)
    requires IsRun(states, steps) && i <= k < |states| && Announces(states[i], t, event)
    ensures Announces(states[k], t, event)
    decreases k
  {
    if i < k {
      EndingIsForwarded(states, steps, i, k - 1, t, event);
      ReachableInv(states, steps, k - 1);
      AnnouncingStays(states[k - 1], steps[k - 1], t, event);
    }
  }

  /** The attempt's tokens were stored: it will succeed, unless a cancel wins. */
  ghost predicate Succeeds(s: State, t: TaskNo) {
    || LoginAt(s, t, Saving)
    || LoginAt(s, t, Announcing)
    || (LoginAt(s, t, CleaningUp) && t in s.cancelWon)
    || (LoginAt(s, t, Ending(Cancelled)) && t in s.cancelWon)
    || (LoginAt(s, t, Done) && EventsOf(s.outbox, t) == [if t in s.cancelWon then Cancelled else Authenticated])
  }

  lemma SuccessStays(s: State, step: Step, t: TaskNo)
    requires Inv(s) && Enabled(s, step) && Succeeds(s, t)
    ensures Succeeds(Apply(s, step), t)
  {
    if LoginAt(s, t, Done) {
      DoneAttemptsRest(s, step, t);
      EventsStay(s, step, t);
    } else if step == Emit(t) {
      EmitForwards(s, t);
      EmitMovesOn(s, t);
    } else if step.CleanUp? && step.t == t {
      EventsStay(s, step, t);
    } else {
      SuccessWaits(s, step, t);
    }
  }

  lemma SuccessWaits(s: State, step: Step, t: TaskNo)
    requires Inv(s) && Enabled(s, step) && Succeeds(s, t) && !LoginAt(s, t, Done)
    requires step != Emit(t) && !(step.CleanUp? && step.t == t)
    ensures Succeeds(Apply(s, step), t)
  {
    CancelGrows(s, step);
    if LoginAt(s, t, Saving) {
      SavingWaits(s, step, t);
    } else {
      Rests(s, step, t);
    }
  }

  lemma SavingWaits(s: State, step: Step, t: TaskNo)
    requires RegistryInv(s) && LockInv(s) && Enabled(s, step) && LoginAt(s, t, Saving)
    ensures var n := Apply(s, step);
      LoginAt(n, t, Saving) || LoginAt(n, t, Announcing) || (LoginAt(n, t, Ending(Cancelled)) && t in n.cancelWon)
  {
    if step.Decide? {
    } else if IsRefreshStep(step) {
    } else {
    }
  }

  lemma {:induction false} StoredSucceeds(states: seq<State>, steps: seq<Step>, i: nat, k: nat, t: TaskNo)
    requires IsRun(states, steps) && i < k < |states| && SavesAt(states, steps, i, t)
    ensures Succeeds(states[k], t)
    decreases k
  {
    if i + 1 < k {
      StoredSucceeds(states, steps, i, k - 1, t);
      ReachableInv(states, steps, k - 1);
      SuccessStays(states[k - 1], steps[k - 1], t);
    }
  }

  // ---- Main results ----

  /**
   An attempt that is over and whose cancel did not win has announced success if and only if it had stored
   its tokens.
   */
  lemma AuthenticatedExactlyIfStored(states: seq<State>, steps: seq<Step>, k: nat, t: TaskNo)
    requires IsRun(states, steps) && k < |states| && LoginAt(states[k], t, Done) && t !in states[k].cancelWon
    ensures EventsOf(states[k].outbox, t) == [Authenticated]
      <==> exists i :: 0 <= i < k && StoredAt(states, steps, i, t)
  {
    if i: nat :| i < k && StoredAt(states, steps, i, t) {
      StoredSucceeds(states, steps, i, k, t);
    }
    if EventsOf(states[k].outbox, t) == [Authenticated] {
      EventWasForwarded(states[k].outbox, t, Authenticated);
      var i := AuthenticatedMeansStored(states, steps, k, t);
    }
  }

  lemma {:induction false} EventWasForwarded(outbox: seq<Notice>, t: TaskNo, event: Event)
    requires event in EventsOf(outbox, t)
    ensures Notice(t, event) in outbox
  {
    var n := |outbox| - 1;
    if event in EventsOf(outbox[..n], t) {
      EventWasForwarded(outbox[..n], t, event);
    } else {
      assert outbox[n] == Notice(t, event);
    }
  }

  /** The store refused the tokens of a login that was current and not told to stop: it fails, and nothing is stored. */
  lemma RefusedSaveFails(states: seq<State>, steps: seq<Step>, i: nat, k: nat, t: TaskNo)
    requires IsRun(states, steps) && i < k < |states| && steps[i].Save? && steps[i].t == t && !steps[i].ok
    requires var s := states[i]; IsCurrent(s.core, LoginKey(s.tasks[t].id), s.tasks[t].generation) && !ToldToStop(s, t)
    requires LoginAt(states[k], t, Done) && t !in states[k].cancelWon
    ensures EventsOf(states[k].outbox, t) == [Failed] && states[i + 1].core.store == states[i].core.store
  {
    EndingIsForwarded(states, steps, i + 1, k, t, Failed);
  }

  /** A login that is no longer current, or was told to stop, stores nothing and is cancelled. */
  lemma SupersededSaveCancels(states: seq<State>, steps: seq<Step>, i: nat, k: nat, t: TaskNo)
    requires IsRun(states, steps) && i < k < |states| && steps[i].Save? && steps[i].t == t
    requires var s := states[i]; !IsCurrent(s.core, LoginKey(s.tasks[t].id), s.tasks[t].generation) || ToldToStop(s, t)
    requires LoginAt(states[k], t, Done)
    ensures EventsOf(states[k].outbox, t) == [Cancelled] && states[i + 1].core.store == states[i].core.store
  {
    EndingIsForwarded(states, steps, i + 1, k, t, Cancelled);
  }

  /** Polling that ended without tokens tells why: failed, or cancelled. */
  lemma StoppedPollingTells(states: seq<State>, steps: seq<Step>, i: nat, k: nat, t: TaskNo)
    requires IsRun(states, steps) && i < k < |states| && steps[i].Stop? && steps[i].t == t
    requires LoginAt(states[k], t, Done) && t !in states[k].cancelWon
    ensures EventsOf(states[k].outbox, t) == [steps[i].event] && steps[i].event != Authenticated
  {
    EndingIsForwarded(states, steps, i + 1, k, t, steps[i].event);
  }

  /** A run whose authorization is gone fails. */
  lemma RunWithoutAuthorizationFails(states: seq<State>, steps: seq<Step>, i: nat, k: nat, t: TaskNo)
    requires IsRun(states, steps) && i < k < |states| && steps[i] == Take(t)
    requires states[i].tasks[t].id !in states[i].core.pending
    requires LoginAt(states[k], t, Done) && t !in states[k].cancelWon
    ensures EventsOf(states[k].outbox, t) == [Failed]
  {
    CancelStays(states, steps, i, k, t);
    EndingIsForwarded(states, steps, i + 1, k, t, Failed);
  }

  /** A run whose authorization is gone because it was cancelled ends as cancelled, with its job removed. */
  lemma CancelledBeforeItRan(s: State, t: TaskNo)
    requires Enabled(s, Take(t)) && s.tasks[t].id !in s.core.pending && t in s.cancelWon
    ensures var n := Apply(s, Take(t)); LoginAt(n, t, Ending(Cancelled)) && LoginKey(s.tasks[t].id) !in n.core.active
  {
  }

  /**
   A cancel that won while the tokens were being saved: they are deleted before anyone else gets the lock, and only
   a store that refuses keeps them.
   */
  lemma CancelledWhileSaving(s: State, t: TaskNo, ok: bool)
    requires LockInv(s) && Enabled(s, Decide(t, ok)) && t in s.cancelWon
    ensures var n := Apply(s, Decide(t, ok));
      && LoginAt(n, t, Ending(Cancelled)) && n.holder.None? && LoginKey(s.tasks[t].id) !in n.core.active
      && (if ok then n.core.store.None? && n.deleteFailed == s.deleteFailed
          else n.core.store == s.core.store && n.deleteFailed == s.deleteFailed + {t})
  {
  }

  /** Nothing but a store that refuses its delete excuses an attempt whose cancel won. */
  lemma OnlyRefusedDeletesAreExcused(s: State, step: Step, t: TaskNo)
    requires Enabled(s, step) && t in Apply(s, step).deleteFailed && t !in s.deleteFailed
    ensures (step.Decide? || step.CleanUp?) && step.t == t && !step.ok
  {
  }

  lemma CancelGrows(s: State, step: Step)
    requires Enabled(s, step)
    ensures s.cancelWon <= Apply(s, step).cancelWon
  {
  }

  lemma {:induction false} CancelStays(states: seq<State>, steps: seq<Step>, i: nat, k: nat, t: TaskNo)
    requires IsRun(states, steps) && i <= k < |states| && t !in states[k].cancelWon
    ensures t !in states[i].cancelWon
    decreases k
  {
    if i < k {
      CancelGrows(states[k - 1], steps[k - 1]);
      CancelStays(states, steps, i, k - 1, t);
    }
  }

  // ---- Superseded attempts ----

  /** The attempt's authorization is filed, or was until its generation passed. */
  predicate WasFiled(s: State, t: TaskNo) {
    t in s.tasks && s.tasks[t].LoginTask?
    && (s.tasks[t].stage.Ready? || s.tasks[t].stage.Polling? || s.tasks[t].stage.Granted?)
  }

  /** A login that was filed for a past generation is told to stop. */
  ghost predicate LoginsTold(s: State) {
    forall t | WasFiled(s, t) && s.tasks[t].generation < s.core.generation :: t in s.core.cancelled
  }

  /** So is a refresh; and one of the current generation has its job filed. */
  ghost predicate RefreshesTold(s: State) {
    forall t | RefreshIn(s, t) ::
      if s.tasks[t].generation < s.core.generation then t in s.core.cancelled
      else RefreshKey(t) in s.core.active && s.core.active[RefreshKey(t)].token == t
  }

  /** A step that starts a new generation stops every job there is. */
  lemma NewGenerationStopsAll(s: State, step: Step, k: Key)
    requires Enabled(s, step) && Apply(s, step).core.generation != s.core.generation && k in s.core.active
    ensures s.core.active[k].token in Apply(s, step).core.cancelled
    ensures step.BeginFirst? || step.SignOut?
  {
  }

  lemma WasFiledBefore(s: State, step: Step, t: TaskNo)
    requires Enabled(s, step) && WasFiled(Apply(s, step), t)
    ensures var n := Apply(s, step);
      || (WasFiled(s, t) && n.tasks[t].generation == s.tasks[t].generation)
      || (n.tasks[t].generation == n.core.generation && n.core.generation == s.core.generation)
  {
  }

  lemma LoginsToldKept(s: State, step: Step)
    requires Inv(s) && LoginsTold(s) && Enabled(s, step)
    ensures LoginsTold(Apply(s, step))
  {
    var n := Apply(s, step);
    forall t | WasFiled(n, t) && n.tasks[t].generation < n.core.generation ensures t in n.core.cancelled {
      WasFiledBefore(s, step, t);
      if s.tasks[t].generation < s.core.generation {
        CancelledStays(s, step, t);
      } else {
        assert FiledAt(s, t);
        NewGenerationStopsAll(s, step, LoginKey(s.tasks[t].id));
      }
    }
  }

  lemma CancelledStays(s: State, step: Step, t: TaskNo)
    requires Enabled(s, step) && t in s.core.cancelled
    ensures t in Apply(s, step).core.cancelled
  {
  }

  lemma RefreshBefore(s: State, step: Step, t: TaskNo)
    requires RegistryInv(s) && Enabled(s, step) && RefreshIn(Apply(s, step), t)
    ensures var n := Apply(s, step);
      || (step.RefreshBegin? && t == s.next && n.tasks[t].generation == n.core.generation
          && RefreshKey(t) in n.core.active && n.core.active[RefreshKey(t)].token == t)
      || (RefreshIn(s, t) && n.tasks[t].generation == s.tasks[t].generation
          && (RefreshKey(t) in s.core.active && n.core.generation == s.core.generation ==>
                RefreshKey(t) in n.core.active && n.core.active[RefreshKey(t)] == s.core.active[RefreshKey(t)]))
  {
  }

  lemma RefreshesToldKept(s: State, step: Step)
    requires Inv(s) && RefreshesTold(s) && Enabled(s, step)
    ensures RefreshesTold(Apply(s, step))
  {
    var n := Apply(s, step);
    GenerationGrows(s, step);
    forall t | RefreshIn(n, t)
      ensures if n.tasks[t].generation < n.core.generation then t in n.core.cancelled
        else RefreshKey(t) in n.core.active && n.core.active[RefreshKey(t)].token == t
    {
      RefreshBefore(s, step, t);
      if RefreshIn(s, t) {
        if s.tasks[t].generation < s.core.generation {
          CancelledStays(s, step, t);
        } else if n.core.generation != s.core.generation {
          NewGenerationStopsAll(s, step, RefreshKey(t));
        }
      }
    }
  }

  /**
   In every run: a login or a refresh that was filed, and whose generation has passed, is told to stop; and a
   refresh of the current generation is on file until it is over.
   */
  lemma {:induction false} SupersededAreTold(states: seq<State>, steps: seq<Step>, k: nat)
    requires IsRun(states, steps) && k < |states|
    ensures LoginsTold(states[k]) && RefreshesTold(states[k])
  {
    if k > 0 {
      SupersededAreTold(states, steps, k - 1);
      ReachableInv(states, steps, k - 1);
      LoginsToldKept(states[k - 1], steps[k - 1]);
      RefreshesToldKept(states[k - 1], steps[k - 1]);
    }
  }
}
