/**
 What becomes of the tokens of a cancelled login after its run is over: a refresh that had loaded them
 may still put their successors into the store.
 */
module AuthTraces {
  import opened Text
  import opened AuthCore
  import opened AuthProtocol
  import opened AuthInvariants
  import opened AuthRuns

  /** The refresh has tokens that descend from the login `origin`. */
  predicate Carries(s: State, r: TaskNo, origin: TaskNo) {
    RefreshIn(s, r)
    && match s.tasks[r].progress
       case Started => false
       case Loaded(found) => found.Some? && found.value.origin == origin
       case Exchanged(tokens) => tokens.origin == origin
  }

  /** And it may still save them: its job is current and nobody stopped it. */
  predicate MayStillSave(s: State, r: TaskNo, origin: TaskNo) {
    Carries(s, r, origin) && IsCurrent(s.core, RefreshKey(r), s.tasks[r].generation) && r !in s.core.cancelled
  }

  predicate Stores(s: State, origin: TaskNo) {
    s.core.store.Some? && s.core.store.value.origin == origin
  }

  /** The login is over, its tokens are not stored, and nobody can bring them back. */
  ghost predicate Gone(s: State, origin: TaskNo) {
    && LoginAt(s, origin, Done) && !Stores(s, origin)
    && forall r :: !MayStillSave(s, r, origin)
  }

  /** A refresh gets an origin's tokens only from the store. */
  lemma CarriersComeFrom(s: State, step: Step, r: TaskNo, origin: TaskNo)
    requires Enabled(s, step) && !Stores(s, origin) && Carries(Apply(s, step), r, origin)
    ensures Carries(s, r, origin) && Apply(s, step).tasks[r].generation == s.tasks[r].generation
  {
    if step.RefreshLoad? {
    } else if step.RefreshExchange? {
    } else if IsRefreshStep(step) {
    } else {
    }
  }

  /** A job that is not current will not become current again. */
  lemma CurrentBefore(s: State, step: Step, r: TaskNo, generation: nat)
    requires Enabled(s, step) && r < s.next && generation <= s.core.generation
    requires IsCurrent(Apply(s, step).core, RefreshKey(r), generation)
    ensures IsCurrent(s.core, RefreshKey(r), generation)
  {
    GenerationGrows(s, step);
    JobsComeFrom(s, step, r);
    StoppedGrow(s, step);
  }

  /** The current generation's refresh job was filed as it is before, unless it was filed just now. */
  lemma JobsComeFrom(s: State, step: Step, r: TaskNo)
    requires Enabled(s, step) && r < s.next && RefreshKey(r) in Apply(s, step).core.active
    ensures RefreshKey(r) in s.core.active && Apply(s, step).core.active[RefreshKey(r)] == s.core.active[RefreshKey(r)]
    ensures Apply(s, step).core.generation == s.core.generation
  {
    if IsRefreshStep(step) {
      RefreshJobsComeFrom(s, step, r);
    } else {
      OtherJobsComeFrom(s, step, r);
    }
  }

  lemma RefreshJobsComeFrom(s: State, step: Step, r: TaskNo)
    requires Enabled(s, step) && IsRefreshStep(step) && r < s.next && RefreshKey(r) in Apply(s, step).core.active
    ensures RefreshKey(r) in s.core.active && Apply(s, step).core.active[RefreshKey(r)] == s.core.active[RefreshKey(r)]
    ensures Apply(s, step).core.generation == s.core.generation
  {
    if !step.RefreshBegin? {
      RefreshStepEffect(s, step);
    }
  }

  lemma OtherJobsComeFrom(s: State, step: Step, r: TaskNo)
    requires Enabled(s, step) && !IsRefreshStep(step) && r < s.next && RefreshKey(r) in Apply(s, step).core.active
    ensures RefreshKey(r) in s.core.active && Apply(s, step).core.active[RefreshKey(r)] == s.core.active[RefreshKey(r)]
    ensures Apply(s, step).core.generation == s.core.generation
  {
    if step.BeginFirst? || step.SignOut? {
    } else if step.BeginSecond? || step.Abandon? || step.Take? {
    } else if step.Save? || step.Decide? || step.CleanUp? {
    } else {
    }
  }

  lemma StoppedGrow(s: State, step: Step)
    requires Enabled(s, step)
    ensures s.core.cancelled <= Apply(s, step).core.cancelled
  {
  }

  /** A refresh that may still save after a step could before. */
  lemma ThreatsComeFrom(s: State, step: Step, r: TaskNo, origin: TaskNo)
    requires Inv(s) && Enabled(s, step) && !Stores(s, origin)
    requires MayStillSave(Apply(s, step), r, origin)
    ensures MayStillSave(s, r, origin)
  {
    CarriersComeFrom(s, step, r, origin);
    CurrentBefore(s, step, r, s.tasks[r].generation);
    StoppedGrow(s, step);
  }

  lemma StoreComesFrom(s: State, step: Step, origin: TaskNo)
    requires Inv(s) && Enabled(s, step) && LoginAt(s, origin, Done) && !Stores(s, origin)
    requires Stores(Apply(s, step), origin)
    ensures step.RefreshSave? && MayStillSave(s, step.t, origin)
  {
    SavesAreCurrent(s, step);
  }

  lemma DoneStays(s: State, step: Step, t: TaskNo)
    requires RegistryInv(s) && Enabled(s, step) && LoginAt(s, t, Done)
    ensures LoginAt(Apply(s, step), t, Done)
  {
  }

  lemma GoneStays(s: State, step: Step, origin: TaskNo)
    requires Inv(s) && Enabled(s, step) && Gone(s, origin)
    ensures Gone(Apply(s, step), origin)
  {
    DoneStays(s, step, origin);
    var n := Apply(s, step);
    if Stores(n, origin) {
      StoreComesFrom(s, step, origin);
    }
    forall r ensures !MayStillSave(n, r, origin) {
      if MayStillSave(n, r, origin) {
        ThreatsComeFrom(s, step, r, origin);
      }
    }
  }

  /** The tokens of a login that is over never come back unless a refresh that has them may still save. */
  lemma {:induction false} GoneForGood(states: seq<State>, steps: seq<Step>, i: nat, j: nat, origin: TaskNo)
    requires IsRun(states, steps) && i <= j < |states| && Gone(states[i], origin)
    ensures Gone(states[j], origin) && !Stores(states[j], origin)
  {
    if i < j {
      GoneForGood(states, steps, i, j - 1, origin);
      ReachableInv(states, steps, j - 1);
      GoneStays(states[j - 1], steps[j - 1], origin);
    }
  }

  /** And if one may, the run can go on so that they do. */
  lemma TokensMayComeBack(states: seq<State>, steps: seq<Step>, r: TaskNo, origin: TaskNo)
    returns (further: seq<State>, taken: seq<Step>)
    requires IsRun(states, steps) && MayStillSave(states[|steps|], r, origin)
    ensures IsRun(further, taken) && steps <= taken && states <= further && |taken| <= |steps| + 2
    ensures Stores(further[|taken|], origin)
  {
    var s := states[|steps|];
    ReachableInv(states, steps, |steps|);
    NobodyHolds(s, r, origin);
    further, taken := states, steps;
    if s.tasks[r].progress.Loaded? {
      further, taken := Extend(further, taken, RefreshExchange(r, 0));
    }
    further, taken := Extend(further, taken, RefreshSave(r, true));
  }

  lemma NobodyHolds(s: State, r: TaskNo, origin: TaskNo)
    requires Inv(s) && MayStillSave(s, r, origin)
    ensures s.holder.None?
  {
    if s.holder.Some? {
      assert FiledAt(s, s.holder.value);
    }
  }

  lemma Extend(states: seq<State>, steps: seq<Step>, step: Step) returns (further: seq<State>, taken: seq<Step>)
    requires IsRun(states, steps) && Enabled(states[|steps|], step)
    ensures IsRun(further, taken) && taken == steps + [step]
    ensures further == states + [Apply(states[|steps|], step)]
  {
    further, taken := states + [Apply(states[|steps|], step)], steps + [step];
    forall i | 0 <= i < |taken| ensures Enabled(further[i], taken[i]) && further[i + 1] == Apply(further[i], taken[i]) {
      if i < |steps| {
        assert taken[i] == steps[i] && further[i] == states[i] && further[i + 1] == states[i + 1];
      }
    }
  }

  const LOGGED_IN := Core(1, map[], map[], map[], {}, Some(Tokens(0, 7)))
  const FILED := Core(1, map[], map[LoginKey(1) := Job(1, Login, 0)], map[], {}, None)

  lemma LoginReserved() returns (states: seq<State>, steps: seq<Step>)
    ensures IsRun(states, steps) && |steps| == 2
    ensures states[2] == State(Core(1, map[], map[], map[1 := 1], {}, None), None, map[1 := JobEntry(Running, 0)],
      map[0 := LoginTask(1, 1, Requesting)], 1, [], {}, {})
  {
    states, steps := [START], [];
    states, steps := Extend(states, steps, Register(1));
    states, steps := Extend(states, steps, BeginFirst(0));
    assert states[2].core == Core(1, map[], map[], map[1 := 1], {}, None);
  }

  lemma LoginGranted() returns (states: seq<State>, steps: seq<Step>)
    ensures IsRun(states, steps) && |steps| == 5
    ensures states[5]
      == State(FILED, None, map[1 := JobEntry(Running, 0)], map[0 := LoginTask(1, 1, Granted)], 1, [], {}, {})
  {
    states, steps := LoginReserved();
    states, steps := Extend(states, steps, BeginSecond(0));
    assert states[3].core == FILED.(pending := map[1 := Pending(1, 0)]);
    states, steps := Extend(states, steps, Take(0));
    assert states[4].core == FILED;
    states, steps := Extend(states, steps, Grant(0));
    assert states[5].tasks == map[0 := LoginTask(1, 1, Granted)];
  }

  /** A login up to the announcement of its success. */
  lemma LoginAboutToAnnounce() returns (states: seq<State>, steps: seq<Step>)
    ensures IsRun(states, steps) && |steps| == 7
    ensures states[7]
      == State(LOGGED_IN, None, map[1 := JobEntry(Running, 0)], map[0 := LoginTask(1, 1, Announcing)], 1, [], {}, {})
  {
    states, steps := LoginGranted();
    states, steps := Extend(states, steps, Save(0, 7, true));
    assert states[6].core == FILED.(store := Some(Tokens(0, 7)))
      && states[6].tasks == map[0 := LoginTask(1, 1, Saving)];
    states, steps := Extend(states, steps, Decide(0, true));
    assert states[7].core == LOGGED_IN && states[7].tasks == map[0 := LoginTask(1, 1, Announcing)];
  }

  lemma RefreshLoadsMeanwhile() returns (states: seq<State>, steps: seq<Step>)
    ensures IsRun(states, steps) && |steps| == 9
    ensures states[9]
      == State(LOGGED_IN.(active := map[RefreshKey(1) := Job(1, Refresh, 1)]), None, map[1 := JobEntry(Running, 0)],
      map[0 := LoginTask(1, 1, Announcing), 1 := RefreshTask(1, Loaded(Some(Tokens(0, 7))))], 2, [], {}, {})
  {
    states, steps := LoginAboutToAnnounce();
    states, steps := Extend(states, steps, RefreshBegin);
    assert states[8].core == LOGGED_IN.(active := map[RefreshKey(1) := Job(1, Refresh, 1)]);
    states, steps := Extend(states, steps, RefreshLoad(1, true));
    assert states[9].tasks == map[0 := LoginTask(1, 1, Announcing), 1 := RefreshTask(1, Loaded(Some(Tokens(0, 7))))];
  }

  /**
   It does happen: a refresh loads the tokens of a login that is then cancelled before its success is
   announced. The login's run ends with its clean-up done, and the refresh may still save.
   */
  lemma CancelledLoginMayBeRefreshed() returns (states: seq<State>, steps: seq<Step>)
    ensures IsRun(states, steps) && |steps| == 12
    ensures var s := states[12]; LoginAt(s, 0, Done) && 0 in s.cancelWon && s.core.store.None? && MayStillSave(s, 1, 0)
  {
    states, steps := RefreshLoadsMeanwhile();
    states, steps := Extend(states, steps, Cancel(1));
    states, steps := Extend(states, steps, Emit(0));
    assert states[11].tasks == states[9].tasks[0 := LoginTask(1, 1, CleaningUp)] && states[11].core == states[9].core
      && 0 in states[11].cancelWon;
    states, steps := Extend(states, steps, CleanUp(0, true));
    assert states[12].core == states[9].core.(store := None)
      && states[12].tasks == states[9].tasks[0 := LoginTask(1, 1, Done)];
  }
}
