/** What refreshes may do, and what keeps them from starting. */
module AuthRefreshes {
  import opened Text
  import opened AuthCore
  import opened AuthProtocol
  import opened AuthInvariants
  import opened AuthRuns

  // ---- No reservation is left behind ----

  /** The attempt of the current generation that waits for its device code under `id`. */
  predicate Holds(s: State, id: Id, t: TaskNo) {
    LoginAt(s, t, Requesting) && s.tasks[t].id == id && s.tasks[t].generation == s.core.generation
  }

  ghost predicate ReservationsAreHeld(s: State) {
    forall id | id in s.core.reservations && s.core.reservations[id] == s.core.generation :: exists t :: Holds(s, id, t)
  }

  lemma NewReservationIsHeld(s: State, t: TaskNo)
    requires GenerationInv(s) && ReservationInv(s) && LoginAt(s, t, Registered)
    ensures ReservationsAreHeld(DoBeginFirst(s, t))
  {
    var n := DoBeginFirst(s, t);
    assert Holds(n, s.tasks[t].id, t);
  }

  /** A reservation of the current generation that survives a step was there before, in the same generation. */
  ghost predicate WasThere(s: State, n: State, id: Id) {
    id in n.core.reservations && n.core.reservations[id] == n.core.generation ==>
      && n.core.generation == s.core.generation
      && id in s.core.reservations && s.core.reservations[id] == s.core.generation
  }

  /** The attempt keeps its reservation until it files its job or gives up. */
  ghost predicate StillHolds(s: State, n: State, id: Id, t: TaskNo) {
    && Holds(s, id, t) && WasThere(s, n, id)
    && id in n.core.reservations && n.core.reservations[id] == n.core.generation ==>
      Holds(n, id, t)
  }

  lemma RefreshesKeepHolders(s: State, step: Step, id: Id, t: TaskNo)
    requires RegistryInv(s) && Enabled(s, step) && IsRefreshStep(step)
    ensures WasThere(s, Apply(s, step), id) && StillHolds(s, Apply(s, step), id, t)
  {
  }

  lemma BeginsKeepHolders(s: State, step: Step, id: Id, t: TaskNo)
    requires RegistryInv(s) && ReservationInv(s) && Enabled(s, step)
    requires step.Register? || step.BeginSecond? || step.Abandon?
    ensures WasThere(s, Apply(s, step), id) && StillHolds(s, Apply(s, step), id, t)
  {
  }

  predicate IsRunStep(step: Step) {
    step.Take? || step.Grant? || step.Stop? || step.Save? || step.Decide?
  }

  lemma RunsKeepHolders(s: State, step: Step, id: Id, t: TaskNo)
    requires Enabled(s, step) && IsRunStep(step)
    ensures WasThere(s, Apply(s, step), id) && StillHolds(s, Apply(s, step), id, t)
  {
  }

  lemma EndingsKeepHolders(s: State, step: Step, id: Id, t: TaskNo)
    requires ReservationInv(s) && Enabled(s, step)
    requires step.Emit? || step.CleanUp? || step.Cancel? || step.CancelAll? || step.SignOut?
    ensures WasThere(s, Apply(s, step), id) && StillHolds(s, Apply(s, step), id, t)
  {
  }

  lemma HolderStays(s: State, step: Step, id: Id, t: TaskNo)
    requires RegistryInv(s) && ReservationInv(s) && Enabled(s, step) && !step.BeginFirst?
    ensures WasThere(s, Apply(s, step), id) && StillHolds(s, Apply(s, step), id, t)
  {
    if IsRefreshStep(step) {
      RefreshesKeepHolders(s, step, id, t);
    } else if step.Register? || step.BeginSecond? || step.Abandon? {
      BeginsKeepHolders(s, step, id, t);
    } else if IsRunStep(step) {
      RunsKeepHolders(s, step, id, t);
    } else {
      EndingsKeepHolders(s, step, id, t);
    }
  }

  lemma HeldKept(s: State, step: Step)
    requires Inv(s) && ReservationsAreHeld(s) && Enabled(s, step)
    ensures ReservationsAreHeld(Apply(s, step))
  {
    if step.BeginFirst? {
      NewReservationIsHeld(s, step.t);
    } else {
      var n := Apply(s, step);
      forall id | id in n.core.reservations && n.core.reservations[id] == n.core.generation
        ensures exists t :: Holds(n, id, t)
      {
        HolderStays(s, step, id, 0);
        var t :| Holds(s, id, t);
        HolderStays(s, step, id, t);
      }
    }
  }

  lemma {:induction false} ReservationsHeldInRuns(states: seq<State>, steps: seq<Step>, k: nat)
    requires IsRun(states, steps) && k < |states|
    ensures ReservationsAreHeld(states[k])
  {
    if k > 0 {
      ReservationsHeldInRuns(states, steps, k - 1);
      ReachableInv(states, steps, k - 1);
      HeldKept(states[k - 1], steps[k - 1]);
    }
  }

  /** The attempt waits for its device code, or its job is on file. */
  predicate Occupies(s: State, t: TaskNo) {
    && t in s.tasks && s.tasks[t].LoginTask? && s.tasks[t].generation == s.core.generation
    && (s.tasks[t].stage.Requesting? || IsFiled(s.tasks[t].stage))
  }

  /**
   In every state of every run, refreshes are refused if and only if a login of the current generation waits for
   its device code or has its job on file: nothing that an earlier login leaves behind keeps them out.
   */
  lemma RefusedOnlyForALiveLogin(states: seq<State>, steps: seq<Step>, k: nat)
    requires IsRun(states, steps) && k < |states|
    ensures !RefreshAllowed(states[k].core) <==> exists t :: Occupies(states[k], t)
  {
    ReachableInv(states, steps, k);
    ReservationsHeldInRuns(states, steps, k);
    var s := states[k];
    if !RefreshAllowed(s.core) {
      var t := WhoRefuses(s);
    }
    if t :| Occupies(s, t) {
      OccupierRefuses(s, t);
    }
  }

  lemma WhoRefuses(s: State) returns (t: TaskNo)
    requires ActiveInv(s) && ReservationsAreHeld(s) && !RefreshAllowed(s.core)
    ensures Occupies(s, t)
  {
    if HasLogin(s.core) {
      var k :| k in s.core.active && s.core.active[k].kind == Login;
      assert k.LoginKey? && k == LoginKey(k.id);
      t := s.core.active[k].token;
    } else {
      var id :| id in s.core.reservations && s.core.reservations[id] == s.core.generation;
      t :| Holds(s, id, t);
    }
  }

  lemma OccupierRefuses(s: State, t: TaskNo)
    requires FilingInv(s) && Occupies(s, t)
    ensures !RefreshAllowed(s.core)
  {
    if s.tasks[t].stage.Requesting? {
      assert LoginAt(s, t, Requesting);
      assert s.core.reservations[s.tasks[t].id] in s.core.reservations.Values;
    } else {
      assert FiledAt(s, t);
      assert s.core.active[LoginKey(s.tasks[t].id)].kind == Login;
    }
  }

  // ---- Steps of a refresh ----

  /** The refresh's job is on file in its own generation, and nobody has told it to stop. */
  predicate OnFile(s: State, t: TaskNo) {
    && RefreshIn(s, t) && s.tasks[t].generation == s.core.generation
    && RefreshKey(t) in s.core.active
    && s.core.active[RefreshKey(t)].generation == s.core.generation
    && s.core.active[RefreshKey(t)].token !in s.core.cancelled
  }

  /** A step of a refresh that has begun. */
  predicate IsOngoing(step: Step) {
    || step.RefreshLoad? || step.RefreshExchange? || step.RefreshSave? || step.RefreshDelete? || step.RefreshFinish?
    || step.RefreshDrop?
  }

  predicate OfRefresh(step: Step, t: TaskNo) {
    IsOngoing(step) && step.t == t
  }

  /** A refresh touches its own job and task alone, and the store only while its job is on file. */
  ghost predicate KeepsToItself(s: State, n: State, t: TaskNo, maySave: bool) {
    && n.core.(active := s.core.active, store := s.core.store) == s.core
    && n.core.active - {RefreshKey(t)} == s.core.active - {RefreshKey(t)}
    && n.tasks - {t} == s.tasks - {t}
    && n.(core := s.core, tasks := s.tasks) == s
    && (n.core.store != s.core.store ==> OnFile(s, t) && maySave)
  }

  lemma RefreshStoresForItself(s: State, step: Step)
    requires Enabled(s, step) && (step.RefreshSave? || step.RefreshDelete?)
    ensures KeepsToItself(s, Apply(s, step), step.t, step.ok)
  {
    if step.RefreshSave? {
    } else {
    }
  }

  lemma RefreshKeepsToItself(s: State, step: Step, t: TaskNo)
    requires Enabled(s, step) && OfRefresh(step, t)
    ensures KeepsToItself(s, Apply(s, step), t, (step.RefreshSave? || step.RefreshDelete?) && step.ok)
  {
    if step.RefreshSave? || step.RefreshDelete? {
      RefreshStoresForItself(s, step);
    } else if step.RefreshLoad? {
    } else {
    }
  }

  /** A refresh that is over has left the file, unless it was dropped or superseded. */
  lemma RefreshesEnd(s: State, step: Step, t: TaskNo)
    requires Enabled(s, step) && OfRefresh(step, t) && t !in Apply(s, step).tasks
    ensures RefreshKey(t) !in Apply(s, step).core.active
         || step.RefreshDrop? || ((step.RefreshLoad? || step.RefreshDelete?) && !OnFile(s, t))
  {
  }

  /** Loading: over if superseded or the store cannot be read, else what the store holds is found. */
  lemma LoadFindsTheStore(s: State, t: TaskNo, ok: bool)
    requires Enabled(s, RefreshLoad(t, ok))
    ensures var n := Apply(s, RefreshLoad(t, ok));
      if OnFile(s, t) && ok then RefreshIn(n, t) && n.tasks[t].progress == Loaded(s.core.store) else t !in n.tasks
  {
  }

  /** Saving: over either way, and the new tokens are stored exactly if the store took them from a job on file. */
  lemma RefreshStoresTheExchanged(s: State, t: TaskNo, ok: bool)
    requires Inv(s) && Enabled(s, RefreshSave(t, ok))
    ensures var n := Apply(s, RefreshSave(t, ok));
      && t !in n.tasks && RefreshKey(t) !in n.core.active
      && n.core.store == if OnFile(s, t) && ok then Some(s.tasks[t].progress.tokens) else s.core.store
  {
  }

  /** Deleting, for a grant that GitHub no longer honours: exactly if the job is on file and the store obeys. */
  lemma RejectedGrantIsDeleted(s: State, t: TaskNo, ok: bool)
    requires Enabled(s, RefreshDelete(t, ok))
    ensures var n := Apply(s, RefreshDelete(t, ok));
      t !in n.tasks && n.core.store == if OnFile(s, t) && ok then None else s.core.store
  {
  }

  // ---- Who empties the store ----

  /**
   The clean-up of an attempt whose success came too late: in its own generation it empties the store, or records
   that the store refused; in a later one it touches nothing, whoever has signed in since.
   */
  lemma CleanUpKeepsToItsGeneration(s: State, t: TaskNo, ok: bool)
    requires FilingInv(s) && Enabled(s, CleanUp(t, ok))
    ensures var n, own := Apply(s, CleanUp(t, ok)), s.tasks[t].generation == s.core.generation;
      && n.core == (if own && ok then s.core.(store := None) else s.core)
      && n.deleteFailed == (if own && !ok then s.deleteFailed + {t} else s.deleteFailed)
      && LoginAt(n, t, Done)
  {
    if s.tasks[t].generation == s.core.generation {
      CleanUpIsUnopposed(s, t);
    }
  }

  /** While an attempt looks at its cancellation once more, its own tokens are the stored ones. */
  ghost predicate SavingHoldsItsTokens(s: State) {
    forall t | LoginAt(s, t, Saving) :: s.core.store.Some? && s.core.store.value.origin == t
  }

  lemma SavingKeepsItsTokens(s: State, step: Step, t: TaskNo)
    requires LockInv(s) && SavingHoldsItsTokens(s) && Enabled(s, step) && LoginAt(Apply(s, step), t, Saving)
    ensures var store := Apply(s, step).core.store; store.Some? && store.value.origin == t
  {
    if !(step.Save? && step.t == t) {
      assert LoginAt(s, t, Saving) && s.holder == Some(t);
    }
  }

  lemma {:induction false} SavingHoldsInRuns(states: seq<State>, steps: seq<Step>, k: nat)
    requires IsRun(states, steps) && k < |states|
    ensures SavingHoldsItsTokens(states[k])
  {
    if k > 0 {
      SavingHoldsInRuns(states, steps, k - 1);
      ReachableInv(states, steps, k - 1);
      forall t | LoginAt(states[k], t, Saving)
        ensures states[k].core.store.Some? && states[k].core.store.value.origin == t
      {
        SavingKeepsItsTokens(states[k - 1], steps[k - 1], t);
      }
    }
  }

  /**
   In every run stored tokens go for one of four reasons: a logout; a cancelled attempt taking back its own before
   it gives the lock away; a cancelled attempt cleaning up in its own generation; or a refresh on file whose grant
   is no longer honoured. So tokens of a login of a later generation are safe from every earlier attempt.
   */
  lemma WhoEmptiesTheStore(states: seq<State>, steps: seq<Step>, k: nat)
    requires IsRun(states, steps) && k < |steps|
    requires states[k].core.store.Some? && states[k + 1].core.store.None?
    ensures var s, step := states[k], steps[k];
      || step == SignOut(true)
      || (step.Decide? && step.t in s.cancelWon && s.core.store.value.origin == step.t)
      || (step.CleanUp? && step.t in s.cancelWon && s.tasks[step.t].generation == s.core.generation)
      || (step.RefreshDelete? && OnFile(s, step.t))
  {
    ReachableInv(states, steps, k);
    SavingHoldsInRuns(states, steps, k);
    EmptyingStep(states[k], steps[k]);
  }

  lemma EmptyingSteps(s: State, step: Step)
    requires Enabled(s, step) && s.core.store.Some? && Apply(s, step).core.store.None?
    ensures step == SignOut(true) || (step.Decide? && step.t in s.cancelWon) || step.CleanUp? || step.RefreshDelete?
  {
  }

  lemma EmptyingStep(s: State, step: Step)
    requires Inv(s) && SavingHoldsItsTokens(s) && Enabled(s, step)
    requires s.core.store.Some? && Apply(s, step).core.store.None?
    ensures || step == SignOut(true)
            || (step.Decide? && step.t in s.cancelWon && s.core.store.value.origin == step.t)
            || (step.CleanUp? && step.t in s.cancelWon && s.tasks[step.t].generation == s.core.generation)
            || (step.RefreshDelete? && OnFile(s, step.t))
  {
    EmptyingSteps(s, step);
    if step.Decide? {
      assert LoginAt(s, step.t, Saving);
    } else if step.CleanUp? {
      CleanUpKeepsToItsGeneration(s, step.t, step.ok);
    } else if step.RefreshDelete? {
      RejectedGrantIsDeleted(s, step.t, step.ok);
    }
  }
}
