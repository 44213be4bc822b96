/** What holds along every run of the authentication protocol. */
module AuthRuns {
  import opened Text
  import opened AuthCore
  import opened AuthProtocol
  import opened AuthInvariants

  lemma {:induction false} ReachableInv(states: seq<State>, steps: seq<Step>, k: nat)
    requires IsRun(states, steps) && k < |states|
    ensures Inv(states[k])
  {
    if k == 0 {
      StartInv();
    } else {
      ReachableInv(states, steps, k - 1);
      InvKept(states[k - 1], steps[k - 1]);
    }
  }

  /**
   In every state of every run: whatever is filed is of the current generation; a filed login is
   alone; and while a `begin` of the current generation waits for its device code it holds its
   reservation and nothing at all is filed, so no refresh can slip in.
   */
  lemma LoginsAndRefreshesExclude(states: seq<State>, steps: seq<Step>, k: nat)
    requires IsRun(states, steps) && k < |states|
    ensures var c := states[k].core;
      && (forall key | key in c.active :: c.active[key].generation == c.generation)
      && (forall id | id in c.pending :: c.pending[id].generation == c.generation)
      && (forall key, other | key in c.active && other in c.active && c.active[key].kind == Login :: key == other)
      && (forall t | LoginAt(states[k], t, Requesting) && states[k].tasks[t].generation == c.generation ::
            && states[k].tasks[t].id in c.reservations
            && c.reservations[states[k].tasks[t].id] == c.generation
            && c.active == map[] && !RefreshAllowed(c))
  {
    ReachableInv(states, steps, k);
    var s := states[k];
    forall key | key in s.core.active && s.core.active[key].kind == Login ensures key.LoginKey? {
    }
    forall t | LoginAt(s, t, Requesting) && s.tasks[t].generation == s.core.generation
      ensures HasReservation(s.core, s.core.generation)
    {
      assert s.core.reservations[s.tasks[t].id] in s.core.reservations.Values;
    }
  }

  /**
   In every state of every run, an attempt whose `run` is over has had exactly one terminal event
   forwarded, and an attempt still on its way none; if a cancel was accepted, that event is
   Cancelled, however late the cancel came.
   */
  lemma OneTerminalEventEach(states: seq<State>, steps: seq<Step>, k: nat, t: TaskNo)
    requires IsRun(states, steps) && k < |states|
    requires t in states[k].tasks && states[k].tasks[t].LoginTask?
    ensures var events := EventsOf(states[k].outbox, t);
      && (LoginAt(states[k], t, Done) ==> |events| == 1)
      && (LiveAt(states[k], t) ==> events == [])
      && (events == [Authenticated] ==> t !in states[k].cancelWon)
      && (LoginAt(states[k], t, Done) && t in states[k].cancelWon ==> events == [Cancelled])
  {
    ReachableInv(states, steps, k);
  }

  /**
   In every run, the step that ends an attempt whose cancel was accepted leaves none of its tokens in
   the store, unless the generation has moved on or the attempt's own delete failed. The guards the
   clean-up re-checks can then not stop it: in its own generation no login and no reservation is left.
   */
  lemma CancelledLoginLeavesNoTokens(states: seq<State>, steps: seq<Step>, k: nat, t: TaskNo)
    requires IsRun(states, steps) && k < |steps|
    requires t in states[k].tasks && !LoginAt(states[k], t, Done) && LoginAt(states[k + 1], t, Done)
    requires t in states[k + 1].cancelWon
    ensures var n := states[k + 1];
      || n.core.store.None? || n.core.store.value.origin != t
      || n.core.generation != n.tasks[t].generation
      || t in n.deleteFailed
  {
    ReachableInv(states, steps, k);
    EndedLoginLeavesNoTokens(states[k], steps[k], t);
  }

  lemma EndedLoginLeavesNoTokens(s: State, step: Step, t: TaskNo)
    requires Inv(s) && Enabled(s, step)
    requires t in s.tasks && !LoginAt(s, t, Done) && LoginAt(Apply(s, step), t, Done) && t in Apply(s, step).cancelWon
    ensures var n := Apply(s, step);
      || n.core.store.None? || n.core.store.value.origin != t
      || n.core.generation != n.tasks[t].generation
      || t in n.deleteFailed
  {
    EndingStep(s, step, t);
    if step.Emit? {
      PublishForwards(s, t, if s.tasks[t].stage.Ending? then s.tasks[t].stage.event else Authenticated);
    } else if s.core.generation == s.tasks[t].generation {
      CleanUpIsUnopposed(s, t);
    }
  }

  lemma EndingStep(s: State, step: Step, t: TaskNo)
    requires Enabled(s, step) && t in s.tasks && !LoginAt(s, t, Done) && LoginAt(Apply(s, step), t, Done)
    ensures step == Emit(t) || (step.CleanUp? && step.t == t)
  {
  }

  lemma CleanUpIsUnopposed(s: State, t: TaskNo)
    requires FilingInv(s) && LoginAt(s, t, CleaningUp) && s.tasks[t].generation == s.core.generation
    ensures !HasReservation(s.core, s.core.generation) && !HasLogin(s.core)
  {
    assert Numbered(s, t);
    forall k | k in s.core.active ensures s.core.active[k].kind != Login {
      assert k.LoginKey? ==> Numbered(s, s.core.active[k].token);
    }
  }

  /** Whatever is newly put in the store is put there for a job of the current generation nobody stopped. */
  lemma SavesAreCurrent(s: State, step: Step)
    requires Enabled(s, step) && Apply(s, step).core.store.Some? && Apply(s, step).core.store != s.core.store
    ensures (step.Save? || step.RefreshSave?)
         && s.tasks[step.t].generation == s.core.generation && step.t !in s.core.cancelled
    ensures step.Save? ==> step.t !in s.cancelWon
  {
  }

  // ---- After a logout ----

  /** A login that was filed in `steps[k]`'s turn to save did save. */
  ghost predicate SavesAt(states: seq<State>, steps: seq<Step>, k: nat, t: TaskNo)
    requires IsRun(states, steps)
  {
    k < |steps| && steps[k].Save? && steps[k].t == t && LoginAt(states[k + 1], t, Saving)
  }

  /** Nothing is stored, and nobody of generation `g` or later carries stored tokens or is the login of `g`. */
  ghost predicate Quiet(s: State, g: nat) {
    && g <= s.core.generation
    && s.core.store.None?
    && (forall t | RefreshIn(s, t) && s.tasks[t].generation >= g ::
          s.tasks[t].progress.Started? || s.tasks[t].progress == Loaded(None))
    && (forall t | Numbered(s, t) :: s.tasks[t].generation != g)
  }

  lemma QuietAfterSignOut(s: State)
    requires Inv(s)
    ensures Quiet(DoSignOut(s, true), s.core.generation + 1)
  {
    var n := DoSignOut(s, true);
    assert forall t | Numbered(n, t) :: Numbered(s, t);
  }

  /** Attempts are numbered once, by their own `begin`, above everything before. */
  lemma NumberedStep(s: State, step: Step, t: TaskNo)
    requires Enabled(s, step) && Numbered(Apply(s, step), t)
    ensures var n := Apply(s, step);
      if step == BeginFirst(t) then n.tasks[t].generation == s.core.generation + 1
      else Numbered(s, t) && n.tasks[t].generation == s.tasks[t].generation
  {
  }

  lemma GenerationGrows(s: State, step: Step)
    requires Enabled(s, step)
    ensures s.core.generation <= Apply(s, step).core.generation
  {
  }

  /** A refresh gets tokens only from the store, or in exchange for tokens it had. */
  lemma RefreshTokensStep(s: State, step: Step, t: TaskNo, g: nat)
    requires Quiet(s, g) && Enabled(s, step)
    requires RefreshIn(Apply(s, step), t) && Apply(s, step).tasks[t].generation >= g
    ensures var p := Apply(s, step).tasks[t].progress; p.Started? || p == Loaded(None)
  {
  }

  lemma StoreStep(s: State, step: Step, g: nat)
    requires Quiet(s, g) && Enabled(s, step) && Apply(s, step).core.store.Some?
    ensures step.Save? && LoginAt(Apply(s, step), step.t, Saving) && s.tasks[step.t].generation > g
  {
    SavesAreCurrent(s, step);
    if step.Save? {
      assert Numbered(s, step.t);
    }
  }

  lemma QuietKept(s: State, step: Step, g: nat)
    requires Quiet(s, g) && Enabled(s, step) && Apply(s, step).core.store.None?
    ensures Quiet(Apply(s, step), g)
  {
    var n := Apply(s, step);
    GenerationGrows(s, step);
    forall t | RefreshIn(n, t) && n.tasks[t].generation >= g
      ensures n.tasks[t].progress.Started? || n.tasks[t].progress == Loaded(None)
    {
      RefreshTokensStep(s, step, t, g);
    }
    forall t | Numbered(n, t) ensures n.tasks[t].generation != g {
      NumberedStep(s, step, t);
    }
  }

  /** Along the states, attempts are numbered by their own `begin` only. */
  ghost predicate NumberedOnce(states: seq<State>, steps: seq<Step>) {
    && |states| == |steps| + 1
    && forall k, t | 0 <= k < |steps| && Numbered(states[k + 1], t) && steps[k] != BeginFirst(t) ::
      Numbered(states[k], t) && states[k].tasks[t].generation == states[k + 1].tasks[t].generation
  }

  lemma RunNumbersOnce(states: seq<State>, steps: seq<Step>)
    requires IsRun(states, steps)
    ensures NumberedOnce(states, steps)
  {
    forall k, t | 0 <= k < |steps| && Numbered(states[k + 1], t) && steps[k] != BeginFirst(t)
      ensures Numbered(states[k], t) && states[k].tasks[t].generation == states[k + 1].tasks[t].generation
    {
      NumberedStep(states[k], steps[k], t);
    }
  }

  /** An attempt numbered above an earlier state's generation began after that state. */
  lemma {:induction false} NumberedAfter(states: seq<State>, steps: seq<Step>, i: nat, k: nat, t: TaskNo)
    returns (b: nat)
    requires NumberedOnce(states, steps) && i <= k < |states|
    requires forall u | Numbered(states[i], u) :: states[i].tasks[u].generation <= states[i].core.generation
    requires Numbered(states[k], t) && states[k].tasks[t].generation > states[i].core.generation
    ensures i <= b < k && steps[b] == BeginFirst(t)
  {
    if steps[k - 1] == BeginFirst(t) {
      b := k - 1;
    } else {
      b := NumberedAfter(states, steps, i, k - 1, t);
    }
  }

  /** From a quiet state on, it stays quiet until a login numbered above `g` saves. */
  lemma QuietOrSaved(states: seq<State>, steps: seq<Step>, i: nat, j: nat, g: nat) returns (k: nat)
    requires IsRun(states, steps) && i <= j < |states| && Quiet(states[i], g)
    ensures Quiet(states[j], g) ||
            (i <= k < j && steps[k].Save? && SavesAt(states, steps, k, steps[k].t)
             && Numbered(states[k], steps[k].t) && states[k].tasks[steps[k].t].generation > g)
  {
    k := i;
    while k < j
      invariant i <= k <= j
      invariant Quiet(states[k], g)
    {
      if states[k + 1].core.store.Some? {
        StoreStep(states[k], steps[k], g);
        return;
      }
      QuietKept(states[k], steps[k], g);
      k := k + 1;
    }
  }

  /**
   After a logout whose delete succeeded the store stays empty, in every interleaving, until a login
   that began after that logout saves.
   */
  lemma LogoutEmptiesTheStore(states: seq<State>, steps: seq<Step>, i: nat, j: nat)
    requires IsRun(states, steps) && i < j < |states| && steps[i] == SignOut(true)
    ensures || states[j].core.store.None?
            || exists k, t, b :: i < b < k < j && steps[b] == BeginFirst(t) && SavesAt(states, steps, k, t)
  {
    ReachableInv(states, steps, i);
    QuietAfterSignOut(states[i]);
    var k := QuietOrSaved(states, steps, i + 1, j, states[i].core.generation + 1);
    if states[j].core.store.Some? {
      ReachableInv(states, steps, i + 1);
      RunNumbersOnce(states, steps);
      var b := NumberedAfter(states, steps, i + 1, k, steps[k].t);
      assert SavesAt(states, steps, k, steps[k].t);
    }
  }

  /** In every state of every run a logout can take the lock, at the latest once its holder has decided. */
  lemma LogoutIsNeverBlocked(states: seq<State>, steps: seq<Step>, k: nat, deleted: bool, decided: bool)
    requires IsRun(states, steps) && k < |states|
    ensures var s := states[k];
      if s.holder.None? then Enabled(s, SignOut(deleted))
      else
        var decide := Decide(s.holder.value, decided);
        Enabled(s, decide) && Enabled(Apply(s, decide), SignOut(deleted))
  {
    ReachableInv(states, steps, k);
  }
}
