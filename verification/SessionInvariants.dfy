/** What every step of the session protocol keeps. */
module SessionInvariants {
  import opened Text
  import opened SessionCore
  import opened SessionProtocol

  /** `place` is responsible for stopping `g`, or has recorded that it was stopped. */
  predicate Holds(s: State, place: Place, g: Generation) {
    match place
    case Previous(n) => n < |s.starts| && s.starts[n].previous == Some(g)
    case Own(n) => n < |s.starts| && s.starts[n].own == Some(g)
    case Taken(n) => n < |s.starts| && s.starts[n].taken == Some(g)
    case ActiveEntry => s.registry.active.Some? && s.registry.active.value.generation == g
    case Stopping => g in s.stopping
    case Stopped => g in s.stopped
  }

  /** The ledger is right: a generation is held in the place the ledger says, and in no other. */
  ghost predicate Linear(s: State) {
    forall place, g :: Holds(s, place, g) <==> g in s.ledger && s.ledger[g] == place
  }

  ghost predicate StoppedOnce(s: State) {
    forall i, j | 0 <= i < j < |s.stopped| :: s.stopped[i] != s.stopped[j]
  }

  /** Contexts are numbered in order; a generation's nonce was drawn, and a reserved one is not completed yet. */
  ghost predicate Numbered(s: State) {
    && |s.starts| == s.registry.next
    && (forall n | 0 <= n < |s.starts| :: s.starts[n].context.number == n)
    && (forall g | g in s.ledger :: g.nonce < s.runtime.nextNonce)
    && (forall n | 0 <= n < |s.starts| && s.starts[n].reservation.Some? ::
          s.starts[n].reservation.value !in s.ledger && s.starts[n].reservation.value.nonce < s.runtime.nextNonce)
  }

  /** What a start command may hold in each phase. */
  predicate WellHeld(start: Start) {
    && (start.phase in {Waiting, Running, Gone} ==>
      start.previous.None? && start.reservation.None? && start.own.None? && start.taken.None?)
    && (start.phase == Replacing ==>
          && start.taken.None?
          && (start.reservation.Some? ==> start.previous.None? && start.own.None?)
          && (start.own.Some? ==> start.previous.None?))
    && (start.phase in {Dropping, Closing} ==> start.reservation.None?)
    && (start.phase == Dropping ==> start.taken.None?)
  }

  predicate IsContextOf(s: State, c: Context, phases: set<Phase>) {
    c.number < |s.starts| && s.starts[c.number].context == c && s.starts[c.number].phase in phases
  }

  /** Who is pending and who is active. */
  ghost predicate Registered(s: State) {
    && (forall n | 0 <= n < |s.starts| :: WellHeld(s.starts[n]))
    && (forall n | 0 <= n < |s.starts| && s.starts[n].phase in {Waiting, Replacing} ::
      s.registry.pending == Some(s.starts[n].context))
    && (s.registry.pending.Some? ==> IsContextOf(s, s.registry.pending.value, {Waiting, Replacing, Dropping}))
    && (s.registry.active.Some? ==> IsContextOf(s, s.registry.active.value.context, {Running, Dropping, Gone}))
    && (s.registry.pending.Some? && s.registry.active.Some? ==>
          s.registry.pending.value.session != s.registry.active.value.context.session)
  }

  /** The runtime's live generation always has someone to stop it. */
  ghost predicate Answered(s: State) {
    s.runtime.generation.Some? ==>
      var g := s.runtime.generation.value;
      || (g in s.ledger && s.ledger[g] != Stopped)
      || (s.registry.pending.Some? && s.registry.pending.value.number < |s.starts|
        && s.starts[s.registry.pending.value.number].reservation == Some(g))
  }

  /** The active session's generation is the live one, and so is one completed but not yet activated. */
  ghost predicate Alive(s: State) {
    && (s.registry.active.Some? ==> s.runtime.generation == Some(s.registry.active.value.generation))
    && (forall n | 0 <= n < |s.starts| && s.starts[n].phase == Replacing ::
          s.registry.active.None? && (s.starts[n].own.Some? ==> s.runtime.generation == s.starts[n].own))
  }

  ghost predicate Inv(s: State) {
    Linear(s) && StoppedOnce(s) && Numbered(s) && Registered(s) && Answered(s) && Alive(s)
  }

  lemma InvAtStart()
    ensures Inv(START)
  {
  }

  predicate GivesUp(step: Step) {
    step.Drop? || step.GiveUp? || step.TakeForStop? || step.SignOut?
  }

  predicate Finishes(step: Step) {
    step.StopTaken? || step.StopOwn? || step.Vanish? || step.FinishStop?
  }

  // ---- Linearity ----

  /** Who holds the generation that `step` hands over. */
  lemma HandedOverBy(s: State, step: Step)
    requires Inv(s) && Enabled(s, step)
    ensures step.TakePrevious? || step.TakeForStop? || step.SignOut? || step.GiveUp? ==>
      s.registry.active.Some? ==> Holds(s, ActiveEntry, s.registry.active.value.generation)
    ensures step.StopPrevious? ==> Holds(s, Previous(step.n), s.starts[step.n].previous.value)
    ensures step.Activate? || step.StopOwn? ==> Holds(s, Own(step.n), s.starts[step.n].own.value)
    ensures step.StopTaken? ==> Holds(s, Taken(step.n), s.starts[step.n].taken.value)
    ensures step.FinishStop? ==> Holds(s, Stopping, step.generation)
  {
  }

  /** Handing a generation over keeps the ledger right. */
  lemma LinearGoingOn(s: State, step: Step, place: Place, g: Generation)
    requires Inv(s) && Enabled(s, step) && !GivesUp(step) && !Finishes(step)
    ensures var after := Apply(s, step); Holds(after, place, g) <==> g in after.ledger && after.ledger[g] == place
  {
    HandedOverBy(s, step);
    assert Holds(s, place, g) <==> g in s.ledger && s.ledger[g] == place;
    if step.Begin? {
    } else if step.TakePrevious? {
    } else if step.StopPrevious? {
    } else if step.Reserve? {
    } else if step.FailPreparation? {
    } else if step.Complete? {
    } else if step.Activate? {
    } else {
    }
  }

  lemma LinearGivingUp(s: State, step: Step, place: Place, g: Generation)
    requires Inv(s) && Enabled(s, step) && GivesUp(step)
    ensures var after := Apply(s, step); Holds(after, place, g) <==> g in after.ledger && after.ledger[g] == place
  {
    HandedOverBy(s, step);
    assert Holds(s, place, g) <==> g in s.ledger && s.ledger[g] == place;
    if step.Drop? {
    } else if step.GiveUp? {
    } else if step.TakeForStop? {
    } else {
    }
  }

  lemma LinearFinishing(s: State, step: Step, place: Place, g: Generation)
    requires Inv(s) && Enabled(s, step) && Finishes(step)
    ensures var after := Apply(s, step); Holds(after, place, g) <==> g in after.ledger && after.ledger[g] == place
  {
    HandedOverBy(s, step);
    assert Holds(s, place, g) <==> g in s.ledger && s.ledger[g] == place;
    if step.StopTaken? {
    } else if step.StopOwn? {
    } else if step.Vanish? {
    } else {
    }
  }

  lemma NumberedKept(s: State, step: Step)
    requires Inv(s) && Enabled(s, step)
    ensures Numbered(Apply(s, step))
  {
    HandedOverBy(s, step);
    if step.Begin? {
    } else if step.TakePrevious? {
    } else if step.StopPrevious? {
    } else if step.Reserve? {
    } else if step.FailPreparation? {
    } else if step.Complete? {
    } else if step.Activate? {
    } else if step.Disarm? {
    } else if step.Drop? {
    } else if step.GiveUp? {
    } else if step.StopTaken? {
    } else if step.StopOwn? {
    } else if step.Vanish? {
    } else if step.TakeForStop? {
    } else if step.SignOut? {
    } else {
    }
  }

  /** A generation that is handed over to be stopped was not stopped before. */
  lemma StoppedOnceKept(s: State, step: Step)
    requires Inv(s) && Enabled(s, step)
    ensures StoppedOnce(Apply(s, step))
  {
    HandedOverBy(s, step);
    forall g | g in s.stopped ensures g in s.ledger && s.ledger[g] == Stopped {
      assert Holds(s, Stopped, g);
    }
  }


  lemma RegisteredGoingOn(s: State, step: Step)
    requires Inv(s) && Enabled(s, step) && !GivesUp(step) && !Finishes(step)
    ensures Registered(Apply(s, step))
  {
    if step.Begin? {
    } else if step.TakePrevious? {
    } else if step.StopPrevious? {
    } else if step.Reserve? {
    } else if step.FailPreparation? {
    } else if step.Complete? {
    } else if step.Activate? {
    } else {
    }
  }

  lemma RegisteredGivingUp(s: State, step: Step)
    requires Inv(s) && Enabled(s, step) && GivesUp(step)
    ensures Registered(Apply(s, step))
  {
    if step.Drop? {
    } else if step.GiveUp? {
    } else if step.TakeForStop? {
    } else {
    }
  }

  lemma RegisteredFinishing(s: State, step: Step)
    requires Inv(s) && Enabled(s, step) && Finishes(step)
    ensures Registered(Apply(s, step))
  {
    if step.StopTaken? {
    } else if step.StopOwn? {
    } else if step.Vanish? {
    } else {
    }
  }

  lemma AnsweredKept(s: State, step: Step)
    requires Inv(s) && Enabled(s, step)
    ensures Answered(Apply(s, step))
  {
    HandedOverBy(s, step);
    if step.Begin? {
    } else if step.TakePrevious? {
    } else if step.StopPrevious? {
    } else if step.Reserve? {
    } else if step.FailPreparation? {
    } else if step.Complete? {
    } else if step.Activate? {
    } else if step.Disarm? {
    } else if step.Drop? {
    } else if step.GiveUp? {
    } else if step.StopTaken? {
    } else if step.StopOwn? {
    } else if step.Vanish? {
    } else if step.TakeForStop? {
    } else if step.SignOut? {
    } else {
    }
  }

  lemma AliveKept(s: State, step: Step)
    requires Inv(s) && Enabled(s, step)
    ensures Alive(Apply(s, step))
  {
    HandedOverBy(s, step);
    assert s.registry.active.Some? ==> Holds(s, ActiveEntry, s.registry.active.value.generation);
    forall n | 0 <= n < |s.starts| && s.starts[n].own.Some? ensures Holds(s, Own(n), s.starts[n].own.value) {
    }
    if step.Begin? {
    } else if step.TakePrevious? {
    } else if step.StopPrevious? {
    } else if step.Reserve? {
    } else if step.FailPreparation? {
    } else if step.Complete? {
    } else if step.Activate? {
    } else if step.Disarm? {
    } else if step.Drop? {
    } else if step.GiveUp? {
    } else if step.StopTaken? {
    } else if step.StopOwn? {
    } else if step.Vanish? {
    } else if step.TakeForStop? {
    } else if step.SignOut? {
    } else {
    }
  }

  /** Every step keeps all of it. */
  lemma InvKept(s: State, step: Step)
    requires Inv(s) && Enabled(s, step)
    ensures Inv(Apply(s, step))
  {
    var after := Apply(s, step);
    forall place, g ensures Holds(after, place, g) <==> g in after.ledger && after.ledger[g] == place {
      if GivesUp(step) {
        LinearGivingUp(s, step, place, g);
      } else if Finishes(step) {
        LinearFinishing(s, step, place, g);
      } else {
        LinearGoingOn(s, step, place, g);
      }
    }
    if GivesUp(step) {
      RegisteredGivingUp(s, step);
    } else if Finishes(step) {
      RegisteredFinishing(s, step);
    } else {
      RegisteredGoingOn(s, step);
    }
    NumberedKept(s, step);
    StoppedOnceKept(s, step);
    AnsweredKept(s, step);
    AliveKept(s, step);
  }

  lemma {:induction false} ReachableInv(states: seq<State>, steps: seq<Step>, i: nat)
    requires IsRun(states, steps) && i < |states|
    ensures Inv(states[i])
  {
    if i == 0 {
      InvAtStart();
    } else {
      ReachableInv(states, steps, i - 1);
      InvKept(states[i - 1], steps[i - 1]);
    }
  }

  // ---- Main results ----

  /** The completed generations: each was handed over by `Complete` once. */
  function Completed(s: State): set<Generation> {
    s.ledger.Keys
  }

  /**
   Resources are linear: in every reachable state a completed generation is either held in exactly one
   place or was stopped, never both; and it was stopped at most once.
   */
  lemma ResourcesAreLinear(states: seq<State>, steps: seq<Step>, i: nat, g: Generation)
    requires IsRun(states, steps) && i < |states| && g in Completed(states[i])
    ensures var s := states[i];
      && (exists place :: Holds(s, place, g))
      && (forall p, q | Holds(s, p, g) && Holds(s, q, g) :: p == q)
      && (forall j, k | 0 <= j < |s.stopped| && 0 <= k < |s.stopped| && s.stopped[j] == g == s.stopped[k] :: j == k)
  {
    ReachableInv(states, steps, i);
    var s := states[i];
    assert Holds(s, s.ledger[g], g);
  }

  /** A generation stays completed: it is never forgotten. */
  lemma {:induction false} CompletedStay(states: seq<State>, steps: seq<Step>, i: nat, j: nat, g: Generation)
    requires IsRun(states, steps) && i <= j < |states| && g in Completed(states[i])
    ensures g in Completed(states[j])
  {
    if i < j {
      CompletedStay(states, steps, i, j - 1, g);
      StaysCompleted(states[j - 1], steps[j - 1], g);
    }
  }

  lemma StaysCompleted(s: State, step: Step, g: Generation)
    requires Enabled(s, step) && g in Completed(s)
    ensures g in Completed(Apply(s, step))
  {
  }

  /**
   In every reachable state the active session's generation is the runtime's live one; the pending and
   the active session have different ids; and when no command is at work, a live generation belongs to
   the active session, so nothing is left running that nobody can stop.
   */
  lemma SessionsAndRuntimeAgree(states: seq<State>, steps: seq<Step>, i: nat)
    requires IsRun(states, steps) && i < |states|
    ensures var s := states[i];
      && (s.registry.active.Some? ==> s.runtime.generation == Some(s.registry.active.value.generation))
      && (s.registry.active.Some? && s.registry.pending.Some? ==>
        s.registry.active.value.context.session != s.registry.pending.value.session)
      && ((forall n | 0 <= n < |s.starts| :: s.starts[n].phase == Gone) && s.stopping == {} ==>
            s.registry.pending.None?
            && s.runtime.generation
               == if s.registry.active.Some? then Some(s.registry.active.value.generation) else None)
  {
    ReachableInv(states, steps, i);
    var s := states[i];
    if (forall n | 0 <= n < |s.starts| :: s.starts[n].phase == Gone) && s.stopping == {} && s.runtime.generation.Some? {
      var g := s.runtime.generation.value;
      assert Holds(s, s.ledger[g], g);
    }
  }

  // ---- Replaced contexts ----

  /** The context was active and is not any more. */
  predicate Retired(s: State, c: Context) {
    IsContextOf(s, c, {Running, Dropping, Closing, Gone}) && !IsPending(s.registry, c) && !IsActive(s.registry, c)
  }

  lemma RetiredStays(s: State, step: Step, c: Context)
    requires Inv(s) && Enabled(s, step) && Retired(s, c)
    ensures Retired(Apply(s, step), c)
  {
  }

  lemma DeactivatedIsRetired(s: State, step: Step, c: Context)
    requires Inv(s) && Enabled(s, step) && IsActive(s.registry, c) && !IsActive(Apply(s, step).registry, c)
    ensures Retired(Apply(s, step), c)
  {
  }

  lemma {:induction false} RetiredForever(states: seq<State>, steps: seq<Step>, j: nat, k: nat, c: Context)
    requires IsRun(states, steps) && j <= k < |states| && Retired(states[j], c)
    ensures Retired(states[k], c)
  {
    if j < k {
      RetiredForever(states, steps, j, k - 1, c);
      ReachableInv(states, steps, k - 1);
      RetiredStays(states[k - 1], steps[k - 1], c);
    }
  }

  /** A context that was active and lost its place is never active again, even when its session id is. */
  lemma {:induction false} ReplacedContextsStayStale(
      states: seq<State>, steps: seq<Step>, i: nat, j: nat, k: nat, c: Context)
    requires IsRun(states, steps) && i <= j <= k < |states|
    requires IsActive(states[i].registry, c) && !IsActive(states[j].registry, c)
    ensures !IsActive(states[k].registry, c)
    decreases j - i
  {
    if IsActive(states[i + 1].registry, c) {
      ReplacedContextsStayStale(states, steps, i + 1, j, k, c);
    } else {
      ReachableInv(states, steps, i);
      DeactivatedIsRetired(states[i], steps[i], c);
      RetiredForever(states, steps, i + 1, k, c);
    }
  }
}
