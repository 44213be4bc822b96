/** What every reachable state of the authentication protocol satisfies. */
module AuthInvariants {
  import opened Text
  import opened AuthCore
  import opened AuthProtocol

  // ---- Attempts and the job registry ----

  /** The attempt has not yet had its terminal event. */
  predicate Live(stage: Stage) {
    !stage.CleaningUp? && !stage.Done?
  }

  predicate LiveAt(s: State, t: TaskNo) {
    t in s.tasks && s.tasks[t].LoginTask? && Live(s.tasks[t].stage)
  }

  /** Each registry entry belongs to the one live attempt with its id, and records its cancellation. */
  ghost predicate RegistryInv(s: State) {
    && (forall t | t in s.tasks :: t < s.next)
    && (forall t | t in s.cancelWon :: t < s.next)
    && (forall t | LiveAt(s, t) :: s.tasks[t].id in s.jobs && s.jobs[s.tasks[t].id].task == t)
    && (forall id | id in s.jobs ::
          && LiveAt(s, s.jobs[id].task)
          && s.tasks[s.jobs[id].task].id == id
          && (s.jobs[id].phase == Cancelling <==> s.jobs[id].task in s.cancelWon))
  }

  // ---- Generations ----

  /** The attempt has been given a generation. */
  predicate Numbered(s: State, t: TaskNo) {
    t in s.tasks && s.tasks[t].LoginTask? && !s.tasks[t].stage.Registered?
  }

  /** No two attempts share a generation, and none is ahead of the service. */
  ghost predicate GenerationInv(s: State) {
    && (forall t | t in s.tasks :: s.tasks[t].generation <= s.core.generation)
    && (forall t, u | Numbered(s, t) && Numbered(s, u) && s.tasks[t].generation == s.tasks[u].generation :: t == u)
  }

  // ---- What is filed ----

  predicate IsFiled(stage: Stage) {
    stage.Ready? || stage.Polling? || stage.Granted? || stage.Saving?
  }

  /** The attempt belongs to the current generation and stands at a stage where its job is filed. */
  predicate FiledAt(s: State, t: TaskNo) {
    t in s.tasks && s.tasks[t].LoginTask? && IsFiled(s.tasks[t].stage) && s.tasks[t].generation == s.core.generation
  }

  /** Every active job is of the current generation and belongs to an attempt at the right stage. */
  ghost predicate ActiveInv(s: State) {
    && (forall k | k in s.core.active :: s.core.active[k].generation == s.core.generation)
    && (forall id | LoginKey(id) in s.core.active ::
          var job := s.core.active[LoginKey(id)];
          job.kind == Login && FiledAt(s, job.token) && s.tasks[job.token].id == id)
    && (forall t | RefreshKey(t) in s.core.active ::
          s.core.active[RefreshKey(t)].kind == Refresh && s.core.active[RefreshKey(t)].token == t)
  }

  /** Every pending authorization is of the current generation and waits for its attempt to run. */
  ghost predicate PendingInv(s: State) {
    forall id | id in s.core.pending ::
      var p := s.core.pending[id];
      && p.generation == s.core.generation
      && LoginAt(s, p.token, Ready) && s.tasks[p.token].generation == p.generation && s.tasks[p.token].id == id
  }

  /** An attempt of the current generation has on file what its stage promises. */
  ghost predicate FiledInv(s: State) {
    && (forall t | FiledAt(s, t) ::
          LoginKey(s.tasks[t].id) in s.core.active && s.core.active[LoginKey(s.tasks[t].id)].token == t)
    && (forall t | FiledAt(s, t) && s.tasks[t].stage.Ready? ::
          s.tasks[t].id in s.core.pending && s.core.pending[s.tasks[t].id].token == t)
  }

  /** A current reservation is held by the attempt of that generation, which is between its sections. */
  ghost predicate ReservationInv(s: State) {
    && (forall id, t | id in s.core.reservations && s.core.reservations[id] == s.core.generation
                       && Numbered(s, t) && s.tasks[t].generation == s.core.generation ::
          s.tasks[t].stage.Requesting? && s.tasks[t].id == id)
    && (forall id | id in s.core.reservations :: s.core.reservations[id] <= s.core.generation)
    && (forall t | LoginAt(s, t, Requesting) && s.tasks[t].generation == s.core.generation ::
          s.tasks[t].id in s.core.reservations && s.core.reservations[s.tasks[t].id] == s.core.generation)
  }

  /** A login excludes every other job, and a current reservation excludes every job. */
  ghost predicate ExclusionInv(s: State) {
    && (forall k, l | k in s.core.active && l in s.core.active && k.LoginKey? :: k == l)
    && (forall id | id in s.core.reservations && s.core.reservations[id] == s.core.generation ::
          s.core.active == map[] && s.core.pending == map[])
  }

  ghost predicate LockInv(s: State) {
    && (s.holder.Some? ==>
      LoginAt(s, s.holder.value, Saving) && s.tasks[s.holder.value].generation == s.core.generation)
    && (forall t: TaskNo | LoginAt(s, t, Saving) :: s.holder == Some(t))
  }

  // ---- Terminal events ----

  function EventsOf(outbox: seq<Notice>, t: TaskNo): seq<Event> {
    if outbox == [] then []
    else
      var n := |outbox| - 1;
      EventsOf(outbox[..n], t) + if outbox[n].task == t then [outbox[n].event] else []
  }

  /** One terminal event once the attempt is over, none before; Authenticated only if no cancel won. */
  ghost predicate OutboxInv(s: State) {
    && (forall i | 0 <= i < |s.outbox| :: s.outbox[i].task < s.next)
    && (forall t | LiveAt(s, t) :: EventsOf(s.outbox, t) == [])
    && (forall t | t in s.tasks && s.tasks[t].LoginTask? && !Live(s.tasks[t].stage) ::
          && |EventsOf(s.outbox, t)| == 1
          && (t in s.cancelWon ==> EventsOf(s.outbox, t) == [Cancelled])
          && (s.tasks[t].stage.CleaningUp? ==> t in s.cancelWon))
  }

  // ---- Whose tokens are about ----

  /** The attempt's tokens may still be around without its clean-up delete having failed. */
  predicate MayOwnTokens(stage: Stage) {
    stage.Announcing? || stage.CleaningUp? || stage.Done?
  }

  predicate Accountable(s: State, origin: TaskNo) {
    || origin in s.deleteFailed
    || (origin in s.tasks && s.tasks[origin].LoginTask? && MayOwnTokens(s.tasks[origin].stage))
  }

  ghost predicate TokenInv(s: State) {
    && (s.core.store.Some? ==>
      LoginAt(s, s.core.store.value.origin, Saving) || Accountable(s, s.core.store.value.origin))
    && (forall t | RefreshIn(s, t) && s.tasks[t].progress.Loaded? && s.tasks[t].progress.found.Some? ::
          Accountable(s, s.tasks[t].progress.found.value.origin))
    && (forall t | RefreshIn(s, t) && s.tasks[t].progress.Exchanged? ::
          Accountable(s, s.tasks[t].progress.tokens.origin))
  }

  /** What is filed and reserved, and for whom. */
  ghost predicate FilingInv(s: State) {
    && GenerationInv(s) && ActiveInv(s) && PendingInv(s) && FiledInv(s) && ReservationInv(s) && ExclusionInv(s)
  }

  ghost predicate Inv(s: State) {
    && RegistryInv(s) && FilingInv(s) && LockInv(s) && OutboxInv(s) && TokenInv(s)
  }

  lemma StartInv()
    ensures Inv(START)
  {
  }

  // ---- Filing ----

  /** Filed logins stay, no login is numbered anew, and nothing is added to what is filed or reserved. */
  ghost predicate KeepFrame(s: State, n: State) {
    && n.core.generation == s.core.generation
    && n.core.pending == s.core.pending
    && (forall k | k in n.core.active :: k in s.core.active && n.core.active[k] == s.core.active[k])
    && (forall k | k in s.core.active && k.LoginKey? :: k in n.core.active)
    && (forall id | id in n.core.reservations ::
          id in s.core.reservations && n.core.reservations[id] == s.core.reservations[id])
    && (forall t | t in n.tasks :: n.tasks[t].generation <= s.core.generation)
    && (forall t | Numbered(n, t) :: Numbered(s, t) && n.tasks[t] == s.tasks[t])
    && (forall t | FiledAt(s, t) :: t in n.tasks && n.tasks[t] == s.tasks[t])
    && (forall t | LoginAt(n, t, Requesting) && n.tasks[t].generation == n.core.generation ::
          n.tasks[t].id in n.core.reservations && n.core.reservations[n.tasks[t].id] == n.core.generation)
  }

  lemma KeepFrameKeepsFiling(s: State, n: State)
    requires FilingInv(s) && KeepFrame(s, n)
    ensures FilingInv(n)
  {
    assert forall t | FiledAt(n, t) :: Numbered(n, t) && FiledAt(s, t);
    assert forall t | FiledAt(s, t) :: FiledAt(n, t);
    assert forall id | id in s.core.pending :: FiledAt(s, s.core.pending[id].token);
  }

  lemma NoCurrentReservation(c: Core)
    requires !HasReservation(c, c.generation)
    ensures forall id | id in c.reservations :: c.reservations[id] != c.generation
  {
    forall id | id in c.reservations ensures c.reservations[id] != c.generation {
      assert c.reservations[id] in c.reservations.Values;
    }
  }

  lemma StartRefreshKeepsFiling(s: State, token: TaskNo)
    requires FilingInv(s) && RefreshAllowed(s.core)
    ensures FilingInv(s.(core := StartRefresh(s.core, token)))
  {
    var n := s.(core := StartRefresh(s.core, token));
    NoCurrentReservation(s.core);
    assert forall k | k in s.core.active :: s.core.active[k].kind != Login;
    assert forall t | FiledAt(n, t) :: FiledAt(s, t);
  }

  /** Filing is about the service's core and the tasks alone. */
  lemma FilingSame(s: State, n: State)
    requires FilingInv(s) && n.core == s.core && n.tasks == s.tasks
    ensures FilingInv(n)
  {
    KeepFrameKeepsFiling(s, n);
  }

  lemma NewTaskKeepsFiling(s: State, task: Task)
    requires RegistryInv(s) && FilingInv(s) && task.generation <= s.core.generation
    requires task.RefreshTask? || task.stage.Registered?
    ensures FilingInv(s.(tasks := s.tasks[s.next := task]))
  {
    assert s.next !in s.tasks;
    KeepFrameKeepsFiling(s, s.(tasks := s.tasks[s.next := task]));
  }

  lemma RefreshBeginKeepsFiling(s: State)
    requires RegistryInv(s) && FilingInv(s) && RefreshAllowed(s.core)
    ensures FilingInv(DoRefreshBegin(s))
  {
    var task := RefreshTask(s.core.generation, Started);
    var filed := s.(tasks := s.tasks[s.next := task]);
    NewTaskKeepsFiling(s, task);
    StartRefreshKeepsFiling(filed, s.next);
    FilingSame(filed.(core := StartRefresh(s.core, s.next)), DoRefreshBegin(s));
  }

  lemma RegisterKeepsFiling(s: State, id: Id)
    requires RegistryInv(s) && FilingInv(s)
    ensures FilingInv(DoRegister(s, id))
  {
    var task := LoginTask(id, 0, Registered);
    NewTaskKeepsFiling(s, task);
    FilingSame(s.(tasks := s.tasks[s.next := task]), DoRegister(s, id));
  }

  predicate Numbering(stage: Stage) {
    !stage.Registered? && !stage.Requesting?
  }

  /** One attempt moves on, keeping its filing, leaving it, or dropping it while still live. */
  ghost predicate MoveFrame(s: State, n: State, t: TaskNo) {
    && t in s.tasks && s.tasks[t].LoginTask? && Numbering(s.tasks[t].stage)
    && (exists stage :: Numbering(stage) && !stage.Ready? && n.tasks == s.tasks[t := s.tasks[t].(stage := stage)])
    && n.core.generation == s.core.generation
    && n.core.reservations == s.core.reservations
    && var id := s.tasks[t].id;
      && ( || (n.core.active == s.core.active && (FiledAt(s, t) <==> FiledAt(n, t)))
           || (n.core.active == s.core.active - {LoginKey(id)} && LiveAt(s, t) && !FiledAt(n, t)))
      && ( || (n.core.pending == s.core.pending && (s.tasks[t].stage.Ready? ==> !FiledAt(s, t)))
           || (n.core.pending == s.core.pending - {id} && LiveAt(s, t)))
  }

  lemma OneLiveAttemptPerId(s: State, t: TaskNo, u: TaskNo)
    requires RegistryInv(s) && LiveAt(s, t) && LiveAt(s, u) && s.tasks[t].id == s.tasks[u].id
    ensures t == u
  {
  }

  lemma MoveKeepsGenerations(s: State, n: State, t: TaskNo)
    requires GenerationInv(s) && ReservationInv(s) && MoveFrame(s, n, t)
    ensures GenerationInv(n) && ReservationInv(n)
  {
    assert forall u | Numbered(n, u) :: Numbered(s, u) && n.tasks[u].generation == s.tasks[u].generation;
    assert forall u | LoginAt(n, u, Requesting) :: u != t && LoginAt(s, u, Requesting);
  }

  lemma MoveKeepsActive(s: State, n: State, t: TaskNo)
    requires RegistryInv(s) && FilingInv(s) && MoveFrame(s, n, t)
    ensures ActiveInv(n) && ExclusionInv(n)
  {
    forall id | LoginKey(id) in n.core.active
      ensures var u := n.core.active[LoginKey(id)].token; FiledAt(n, u) && n.tasks[u].id == id
    {
      var u := s.core.active[LoginKey(id)].token;
      assert LoginKey(id) in s.core.active;
      assert FiledAt(s, u);
      if u == t {
        assert n.core.active == s.core.active;
      }
    }
  }

  lemma MoveKeepsPending(s: State, n: State, t: TaskNo)
    requires RegistryInv(s) && PendingInv(s) && MoveFrame(s, n, t)
    ensures PendingInv(n)
  {
    forall id | id in n.core.pending ensures n.core.pending[id].token != t {
      var u := s.core.pending[id].token;
      assert LoginAt(s, u, Ready) && FiledAt(s, u);
    }
  }

  lemma MoveKeepsFiled(s: State, n: State, t: TaskNo)
    requires RegistryInv(s) && FiledInv(s) && MoveFrame(s, n, t)
    ensures FiledInv(n)
  {
    forall u | FiledAt(n, u) && u != t
      ensures FiledAt(s, u) && LoginKey(s.tasks[u].id) in n.core.active
      ensures s.tasks[u].stage.Ready? ==> s.tasks[u].id in n.core.pending
    {
      assert FiledAt(s, u);
      if LiveAt(s, t) && s.tasks[u].id == s.tasks[t].id {
        OneLiveAttemptPerId(s, t, u);
      }
    }
  }

  lemma MoveKeepsFiling(s: State, n: State, t: TaskNo)
    requires RegistryInv(s) && FilingInv(s) && MoveFrame(s, n, t)
    ensures FilingInv(n)
  {
    MoveKeepsGenerations(s, n, t);
    MoveKeepsActive(s, n, t);
    MoveKeepsPending(s, n, t);
    MoveKeepsFiled(s, n, t);
  }

  lemma BeginFirstKeepsGenerations(s: State, t: TaskNo)
    requires GenerationInv(s) && LoginAt(s, t, Registered)
    ensures GenerationInv(DoBeginFirst(s, t))
    ensures var n := DoBeginFirst(s, t);
      forall u | Numbered(n, u) && n.tasks[u].generation == n.core.generation :: u == t
  {
    var n := DoBeginFirst(s, t);
    assert forall u | Numbered(n, u) && u != t :: Numbered(s, u) && n.tasks[u].generation <= s.core.generation;
  }

  lemma BeginFirstKeepsFiling(s: State, t: TaskNo)
    requires FilingInv(s) && LoginAt(s, t, Registered)
    ensures FilingInv(DoBeginFirst(s, t))
  {
    BeginFirstKeepsGenerations(s, t);
    var n := DoBeginFirst(s, t);
    assert n.core.active == map[] && n.core.pending == map[];
    assert forall u :: !FiledAt(n, u);
    assert n.core.reservations[s.tasks[t].id] == n.core.generation && LoginAt(n, t, Requesting);
  }

  lemma SignOutKeepsFiling(s: State, ok: bool)
    requires FilingInv(s)
    ensures FilingInv(DoSignOut(s, ok))
  {
    var n := DoSignOut(s, ok);
    assert forall u | Numbered(n, u) :: Numbered(s, u);
  }

  /** When a login is filed nothing else is, and its own reservation was the only current one. */
  lemma FileKeepsFiling(s: State, t: TaskNo)
    requires RegistryInv(s) && FilingInv(s) && LoginAt(s, t, Requesting) && s.tasks[t].generation == s.core.generation
    ensures FilingInv(DoBeginSecond(s, t))
  {
    FileKeepsNumbers(s, t);
    var n := DoBeginSecond(s, t);
    assert Numbered(s, t);
    assert s.core.active == map[] && s.core.pending == map[];
    assert forall id | id in n.core.reservations :: n.core.reservations[id] != s.core.generation;
    assert n.core.active.Keys == {LoginKey(s.tasks[t].id)} && n.core.pending.Keys == {s.tasks[t].id};
  }

  lemma FileKeepsNumbers(s: State, t: TaskNo)
    requires GenerationInv(s) && LoginAt(s, t, Requesting) && s.tasks[t].generation == s.core.generation
    ensures GenerationInv(DoBeginSecond(s, t))
    ensures var n := DoBeginSecond(s, t); forall u | FiledAt(n, u) :: u == t
    ensures var n := DoBeginSecond(s, t);
      forall u | LoginAt(n, u, Requesting) :: n.tasks[u].generation != n.core.generation
  {
    var n := DoBeginSecond(s, t);
    assert Numbered(s, t);
    assert forall u | Numbered(n, u) :: Numbered(s, u) && n.tasks[u].generation == s.tasks[u].generation;
  }

  lemma GiveUpKeepsReservations(s: State, t: TaskNo, u: TaskNo)
    requires RegistryInv(s) && ReservationInv(s) && (LoginAt(s, t, Requesting) || LoginAt(s, t, Registered))
    requires u != t && LoginAt(s, u, Requesting) && s.tasks[u].generation == s.core.generation
    ensures var c := GiveUp(s, t).core;
      s.tasks[u].id in c.reservations && c.reservations[s.tasks[u].id] == c.generation
  {
    if s.tasks[u].id == s.tasks[t].id {
      OneLiveAttemptPerId(s, t, u);
    }
  }

  lemma GiveUpKeepsFrame(s: State, t: TaskNo)
    requires RegistryInv(s) && GenerationInv(s) && ReservationInv(s)
    requires LoginAt(s, t, Requesting) || LoginAt(s, t, Registered)
    ensures KeepFrame(s, GiveUp(s, t))
  {
    var n := GiveUp(s, t);
    forall u | LoginAt(n, u, Requesting) && n.tasks[u].generation == n.core.generation
      ensures n.tasks[u].id in n.core.reservations && n.core.reservations[n.tasks[u].id] == n.core.generation
    {
      GiveUpKeepsReservations(s, t, u);
    }
  }

  lemma GiveUpKeepsFiling(s: State, t: TaskNo)
    requires RegistryInv(s) && FilingInv(s) && (LoginAt(s, t, Requesting) || LoginAt(s, t, Registered))
    ensures FilingInv(GiveUp(s, t))
  {
    GiveUpKeepsFrame(s, t);
    KeepFrameKeepsFiling(s, GiveUp(s, t));
  }

  lemma TakePendingKeepsFiling(s: State, t: TaskNo)
    requires RegistryInv(s) && FilingInv(s) && LoginAt(s, t, Ready) && s.tasks[t].id in s.core.pending
    ensures FilingInv(DoTake(s, t))
  {
    var n := DoTake(s, t);
    OneLiveAttemptPerId(s, t, s.core.pending[s.tasks[t].id].token);
    assert n.tasks == s.tasks[t := s.tasks[t].(stage := Polling)];
    MoveKeepsFiling(s, n, t);
  }

  lemma TakeNothingKeepsFiling(s: State, t: TaskNo)
    requires RegistryInv(s) && FilingInv(s) && LoginAt(s, t, Ready) && s.tasks[t].id !in s.core.pending
    ensures FilingInv(DoTake(s, t))
  {
    var n := DoTake(s, t);
    assert !FiledAt(s, t);
    assert n.tasks == s.tasks[t := s.tasks[t].(stage := n.tasks[t].stage)];
    MoveKeepsFiling(s, n, t);
  }

  lemma TakeKeepsFiling(s: State, t: TaskNo)
    requires RegistryInv(s) && FilingInv(s) && LoginAt(s, t, Ready)
    ensures FilingInv(DoTake(s, t))
  {
    if s.tasks[t].id in s.core.pending {
      TakePendingKeepsFiling(s, t);
    } else {
      TakeNothingKeepsFiling(s, t);
    }
  }

  lemma GrantKeepsFiling(s: State, t: TaskNo)
    requires RegistryInv(s) && FilingInv(s) && LoginAt(s, t, Polling)
    ensures FilingInv(MoveTo(s, t, Granted))
  {
    var n := MoveTo(s, t, Granted);
    assert n.tasks == s.tasks[t := s.tasks[t].(stage := Granted)];
    MoveKeepsFiling(s, n, t);
  }

  lemma EndKeepsFiling(s: State, t: TaskNo, event: Event)
    requires RegistryInv(s) && FilingInv(s)
    requires LoginAt(s, t, Polling) || LoginAt(s, t, Granted)
    ensures FilingInv(End(s, t, event))
  {
    var n := End(s, t, event);
    assert n.tasks == s.tasks[t := s.tasks[t].(stage := Ending(event))];
    MoveKeepsFiling(s, n, t);
  }

  lemma SaveKeepsFiling(s: State, t: TaskNo, secret: nat, ok: bool)
    requires RegistryInv(s) && FilingInv(s) && LoginAt(s, t, Granted)
    ensures FilingInv(DoSave(s, t, secret, ok))
  {
    var n := DoSave(s, t, secret, ok);
    assert n.tasks == s.tasks[t := s.tasks[t].(stage := n.tasks[t].stage)];
    MoveKeepsFiling(s, n, t);
  }

  lemma DecideKeepsFiling(s: State, t: TaskNo, ok: bool)
    requires RegistryInv(s) && FilingInv(s) && LoginAt(s, t, Saving)
    ensures FilingInv(DoDecide(s, t, ok))
  {
    var n := DoDecide(s, t, ok);
    assert n.tasks == s.tasks[t := s.tasks[t].(stage := n.tasks[t].stage)];
    MoveKeepsFiling(s, n, t);
  }

  lemma OverKeepsFiling(s: State, n: State, t: TaskNo)
    requires RegistryInv(s) && FilingInv(s)
    requires t in s.tasks && s.tasks[t].LoginTask? && !IsFiled(s.tasks[t].stage) && Numbering(s.tasks[t].stage)
    requires n.core.(store := s.core.store) == s.core
    requires n == MoveTo(s, t, Done).(core := n.core, jobs := n.jobs, outbox := n.outbox,
      deleteFailed := n.deleteFailed)
          || n == MoveTo(s, t, CleaningUp).(core := n.core, jobs := n.jobs, outbox := n.outbox)
    ensures FilingInv(n)
  {
    assert n.tasks == s.tasks[t := s.tasks[t].(stage := n.tasks[t].stage)];
    MoveKeepsFiling(s, n, t);
  }

  // ---- The registry, the lock and the outbox ----

  /** Attempts keep their ids and stay live or over; the registry and its verdicts do not change. */
  ghost predicate CourseFrame(s: State, n: State) {
    && n.jobs == s.jobs && n.cancelWon == s.cancelWon && n.outbox == s.outbox && n.next >= s.next
    && (forall t | t in n.tasks :: t < n.next)
    && (forall t | t in n.tasks && n.tasks[t].LoginTask? ::
          && t in s.tasks && s.tasks[t].LoginTask? && n.tasks[t].id == s.tasks[t].id
          && (Live(n.tasks[t].stage) <==> Live(s.tasks[t].stage))
          && (n.tasks[t].stage.CleaningUp? ==> s.tasks[t].stage.CleaningUp?))
    && (forall t | LiveAt(s, t) :: t in n.tasks && n.tasks[t].LoginTask?)
  }

  lemma CourseKeeps(s: State, n: State)
    requires RegistryInv(s) && OutboxInv(s) && CourseFrame(s, n)
    ensures RegistryInv(n) && OutboxInv(n)
  {
    assert forall t | LiveAt(n, t) :: LiveAt(s, t);
    assert forall t | LiveAt(s, t) :: LiveAt(n, t);
  }

  lemma {:induction false} NoEventsYet(outbox: seq<Notice>, t: TaskNo)
    requires forall i | 0 <= i < |outbox| :: outbox[i].task != t
    ensures EventsOf(outbox, t) == []
  {
    if outbox != [] {
      NoEventsYet(outbox[..|outbox| - 1], t);
    }
  }

  lemma EventsAppended(outbox: seq<Notice>, n: Notice, t: TaskNo)
    ensures EventsOf(outbox + [n], t) == EventsOf(outbox, t) + if n.task == t then [n.event] else []
  {
    assert (outbox + [n])[..|outbox|] == outbox;
  }

  lemma RegisterKeepsCourse(s: State, id: Id)
    requires RegistryInv(s) && OutboxInv(s) && id !in s.jobs
    ensures RegistryInv(DoRegister(s, id)) && OutboxInv(DoRegister(s, id))
  {
    var n := DoRegister(s, id);
    NoEventsYet(s.outbox, s.next);
    assert s.next !in s.tasks && s.next !in s.cancelWon;
    assert forall t | LiveAt(n, t) && t != s.next :: LiveAt(s, t);
  }

  lemma GiveUpKeepsCourse(s: State, t: TaskNo)
    requires RegistryInv(s) && OutboxInv(s) && LiveAt(s, t)
    ensures RegistryInv(GiveUp(s, t)) && OutboxInv(GiveUp(s, t))
  {
    var n := GiveUp(s, t);
    forall u | LiveAt(n, u) ensures LiveAt(s, u) && n.tasks[u].id != s.tasks[t].id {
      if n.tasks[u].id == s.tasks[t].id {
        OneLiveAttemptPerId(s, t, u);
      }
    }
  }

  /** The terminal event of a live attempt is always forwarded, as Cancelled if a cancel won. */
  lemma PublishForwards(s: State, t: TaskNo, event: Event)
    requires RegistryInv(s) && LiveAt(s, t)
    ensures Publish(s, t, event).outbox == s.outbox + [Notice(t, if t in s.cancelWon then Cancelled else event)]
    ensures Publish(s, t, event).jobs == s.jobs - {s.tasks[t].id}
  {
  }

  lemma EmitKeepsCourse(s: State, t: TaskNo)
    requires RegistryInv(s) && OutboxInv(s) && LiveAt(s, t)
    requires s.tasks[t].stage.Ending? || s.tasks[t].stage.Announcing?
    ensures RegistryInv(DoEmit(s, t)) && OutboxInv(DoEmit(s, t))
  {
    var n := DoEmit(s, t);
    var event := if s.tasks[t].stage.Ending? then s.tasks[t].stage.event else Authenticated;
    PublishForwards(s, t, event);
    assert n.outbox == s.outbox + [Notice(t, if t in s.cancelWon then Cancelled else event)];
    forall u
      ensures EventsOf(n.outbox, u) == EventsOf(s.outbox, u) + if u == t then [n.outbox[|s.outbox|].event] else []
    {
      EventsAppended(s.outbox, n.outbox[|s.outbox|], u);
    }
    forall u | LiveAt(n, u) ensures LiveAt(s, u) && u != t && n.tasks[u].id != s.tasks[t].id {
      if n.tasks[u].id == s.tasks[t].id {
        OneLiveAttemptPerId(s, t, u);
      }
    }
  }

  lemma CancelKeepsCourse(s: State, id: Id)
    requires RegistryInv(s) && OutboxInv(s) && id in s.jobs && s.jobs[id].phase == Running
    ensures RegistryInv(DoCancel(s, id)) && OutboxInv(DoCancel(s, id))
  {
    var n := DoCancel(s, id);
    assert forall t | LiveAt(n, t) :: LiveAt(s, t);
    assert forall t | LiveAt(s, t) :: LiveAt(n, t);
  }

  lemma CancelAllKeepsCourse(s: State)
    requires RegistryInv(s) && OutboxInv(s)
    ensures RegistryInv(DoCancelAll(s)) && OutboxInv(DoCancelAll(s))
  {
    var n := DoCancelAll(s);
    assert forall t | LiveAt(n, t) :: LiveAt(s, t);
    assert forall t | LiveAt(s, t) :: LiveAt(n, t);
  }

  ghost predicate LockFrame(s: State, n: State) {
    && n.holder == s.holder
    && (s.holder.Some? ==> n.core.generation == s.core.generation)
    && (forall t: TaskNo | LoginAt(n, t, Saving) :: LoginAt(s, t, Saving))
    && (forall t: TaskNo | LoginAt(s, t, Saving) :: LoginAt(n, t, Saving) && n.tasks[t] == s.tasks[t])
  }

  lemma LockFrameKeeps(s: State, n: State)
    requires LockInv(s) && LockFrame(s, n)
    ensures LockInv(n)
  {
  }

  lemma SaveKeepsLock(s: State, t: TaskNo, secret: nat, ok: bool)
    requires LockInv(s) && s.holder.None? && LoginAt(s, t, Granted)
    ensures LockInv(DoSave(s, t, secret, ok))
  {
    var n := DoSave(s, t, secret, ok);
    assert forall u: TaskNo | LoginAt(n, u, Saving) :: u == t || LoginAt(s, u, Saving);
  }

  lemma DecideKeepsLock(s: State, t: TaskNo, ok: bool)
    requires LockInv(s) && LoginAt(s, t, Saving)
    ensures LockInv(DoDecide(s, t, ok))
  {
    var n := DoDecide(s, t, ok);
    assert forall u: TaskNo | LoginAt(n, u, Saving) :: u != t && LoginAt(s, u, Saving);
  }

  // ---- Tokens ----

  /** No tokens appear, and attempts stay accountable for the tokens that descend from them. */
  ghost predicate TokenFrame(s: State, n: State) {
    && (n.core.store == s.core.store || n.core.store.None?)
    && (forall t | RefreshIn(n, t) :: n.tasks[t].progress.Started? || (RefreshIn(s, t) && n.tasks[t] == s.tasks[t]))
    && (forall t | Accountable(s, t) :: Accountable(n, t))
    && (forall t: TaskNo | LoginAt(s, t, Saving) && n.core.store.Some? :: LoginAt(n, t, Saving) || Accountable(n, t))
  }

  lemma TokenFrameKeeps(s: State, n: State)
    requires TokenInv(s) && TokenFrame(s, n)
    ensures TokenInv(n)
  {
  }

  lemma SaveKeepsTokens(s: State, t: TaskNo, secret: nat, ok: bool)
    requires TokenInv(s) && LockInv(s) && s.holder.None? && LoginAt(s, t, Granted)
    ensures TokenInv(DoSave(s, t, secret, ok))
  {
    var n := DoSave(s, t, secret, ok);
    assert forall o | Accountable(s, o) :: Accountable(n, o);
    assert forall u | RefreshIn(n, u) :: RefreshIn(s, u) && n.tasks[u] == s.tasks[u];
  }

  lemma RefreshLoadKeepsTokens(s: State, t: TaskNo, ok: bool)
    requires TokenInv(s) && LockInv(s) && s.holder.None? && RefreshIn(s, t)
    ensures TokenInv(DoRefreshLoad(s, t, ok))
  {
    var n := DoRefreshLoad(s, t, ok);
    assert forall o | Accountable(s, o) :: Accountable(n, o);
    assert forall u | RefreshIn(n, u) && u != t :: RefreshIn(s, u) && n.tasks[u] == s.tasks[u];
  }

  lemma RefreshExchangeKeepsTokens(s: State, t: TaskNo, secret: nat)
    requires TokenInv(s) && RefreshIn(s, t) && s.tasks[t].progress.Loaded? && s.tasks[t].progress.found.Some?
    ensures TokenInv(DoRefreshExchange(s, t, secret))
  {
    var n := DoRefreshExchange(s, t, secret);
    assert forall o | Accountable(s, o) :: Accountable(n, o);
    assert forall o: TaskNo | LoginAt(s, o, Saving) :: LoginAt(n, o, Saving);
    assert forall u | RefreshIn(n, u) && u != t :: RefreshIn(s, u) && n.tasks[u] == s.tasks[u];
  }

  lemma RefreshSaveKeepsTokens(s: State, t: TaskNo, ok: bool)
    requires TokenInv(s) && RefreshIn(s, t) && s.tasks[t].progress.Exchanged?
    ensures TokenInv(DoRefreshSave(s, t, ok))
  {
    var n := DoRefreshSave(s, t, ok);
    assert forall o | Accountable(s, o) :: Accountable(n, o);
    assert forall o: TaskNo | LoginAt(s, o, Saving) :: LoginAt(n, o, Saving);
    assert forall u | RefreshIn(n, u) :: RefreshIn(s, u) && n.tasks[u] == s.tasks[u];
  }

  // ---- Every step ----

  predicate IsRefreshStep(step: Step) {
    || step.RefreshBegin? || step.RefreshLoad? || step.RefreshExchange? || step.RefreshSave? || step.RefreshDelete?
    || step.RefreshFinish? || step.RefreshDrop?
  }

  /** What a running refresh may do to everything but the tokens: drop its job, move on or disappear. */
  ghost predicate RefreshEffect(s: State, n: State) {
    && n.core.(active := s.core.active, store := s.core.store) == s.core
    && (forall k | k in n.core.active :: k in s.core.active && n.core.active[k] == s.core.active[k])
    && (forall k | k in s.core.active && k.LoginKey? :: k in n.core.active)
    && n.holder == s.holder && n.jobs == s.jobs && n.outbox == s.outbox && n.next == s.next
    && n.cancelWon == s.cancelWon && n.deleteFailed == s.deleteFailed
    && (forall t | t in n.tasks :: t in s.tasks && n.tasks[t].generation == s.tasks[t].generation)
    && (forall t | t in n.tasks && n.tasks[t].LoginTask? :: n.tasks[t] == s.tasks[t])
    && (forall t | t in s.tasks && s.tasks[t].LoginTask? :: t in n.tasks && n.tasks[t] == s.tasks[t])
  }

  lemma RefreshStepEffect(s: State, step: Step)
    requires Enabled(s, step) && IsRefreshStep(step) && !step.RefreshBegin?
    ensures RefreshEffect(s, Apply(s, step))
  {
    if step.RefreshLoad? {
    } else if step.RefreshExchange? {
    } else if step.RefreshSave? {
    } else if step.RefreshDelete? {
    } else {
    }
  }

  lemma RefreshEffectKeeps(s: State, n: State)
    requires RegistryInv(s) && FilingInv(s) && LockInv(s) && OutboxInv(s) && RefreshEffect(s, n)
    ensures RegistryInv(n) && FilingInv(n) && LockInv(n) && OutboxInv(n)
  {
    KeepFrameKeepsFiling(s, n);
    CourseKeeps(s, n);
    LockFrameKeeps(s, n);
  }

  lemma RefreshStepKeepsTokens(s: State, step: Step)
    requires TokenInv(s) && LockInv(s) && RegistryInv(s) && Enabled(s, step) && IsRefreshStep(step)
    ensures TokenInv(Apply(s, step))
  {
    match step
    case RefreshBegin => TokenFrameKeeps(s, DoRefreshBegin(s));
    case RefreshLoad(t, ok) => RefreshLoadKeepsTokens(s, t, ok);
    case RefreshExchange(t, secret) => RefreshExchangeKeepsTokens(s, t, secret);
    case RefreshSave(t, ok) => RefreshSaveKeepsTokens(s, t, ok);
    case RefreshDelete(t, ok) => TokenFrameKeeps(s, DoRefreshDelete(s, t, ok));
    case RefreshFinish(t) => TokenFrameKeeps(s, DoRefreshFinish(s, t));
    case RefreshDrop(t) => TokenFrameKeeps(s, DoRefreshDrop(s, t));
  }

  lemma RefreshBeginKeepsCourse(s: State)
    requires RegistryInv(s) && LockInv(s) && OutboxInv(s)
    ensures var n := DoRefreshBegin(s); RegistryInv(n) && LockInv(n) && OutboxInv(n)
  {
    CourseKeeps(s, DoRefreshBegin(s));
    LockFrameKeeps(s, DoRefreshBegin(s));
  }

  lemma RefreshStepKeeps(s: State, step: Step)
    requires Inv(s) && Enabled(s, step) && IsRefreshStep(step)
    ensures Inv(Apply(s, step))
  {
    RefreshStepKeepsTokens(s, step);
    if step.RefreshBegin? {
      RefreshBeginKeepsFiling(s);
      RefreshBeginKeepsCourse(s);
    } else {
      RefreshStepEffect(s, step);
      RefreshEffectKeeps(s, Apply(s, step));
    }
  }

  /** A login's step that leaves the registry alone: it moves on, neither starting nor ending. */
  predicate IsMove(step: Step) {
    || step.BeginFirst? || step.Take? || step.Grant? || step.Stop? || step.Save? || step.Decide? || step.CleanUp?
  }

  lemma StageChangeIsCourse(s: State, n: State, t: TaskNo)
    requires RegistryInv(s) && t in s.tasks && s.tasks[t].LoginTask?
    requires n == s.(core := n.core, tasks := n.tasks, holder := n.holder, deleteFailed := n.deleteFailed)
    requires t in n.tasks && n.tasks == s.tasks[t := n.tasks[t]] && n.tasks[t].LoginTask?
    requires n.tasks[t].id == s.tasks[t].id
    requires Live(n.tasks[t].stage) <==> Live(s.tasks[t].stage)
    requires !n.tasks[t].stage.CleaningUp?
    ensures CourseFrame(s, n)
  {
  }

  lemma MoveStepIsCourse(s: State, step: Step)
    requires RegistryInv(s) && Enabled(s, step) && IsMove(step)
    ensures CourseFrame(s, Apply(s, step))
  {
    StageChangeIsCourse(s, Apply(s, step), step.t);
  }

  lemma LoginStepKeepsCourse(s: State, step: Step)
    requires RegistryInv(s) && OutboxInv(s) && Enabled(s, step) && !IsRefreshStep(step)
    ensures RegistryInv(Apply(s, step)) && OutboxInv(Apply(s, step))
  {
    if IsMove(step) {
      MoveStepIsCourse(s, step);
      CourseKeeps(s, Apply(s, step));
    } else if step.Register? {
      RegisterKeepsCourse(s, step.id);
    } else if step.Abandon? || (step.BeginSecond? && s.tasks[step.t].generation != s.core.generation) {
      GiveUpKeepsCourse(s, step.t);
    } else if step.BeginSecond? {
      CourseKeeps(s, DoBeginSecond(s, step.t));
    } else if step.Emit? {
      EmitKeepsCourse(s, step.t);
    } else if step.Cancel? {
      CancelKeepsCourse(s, step.id);
    } else if step.CancelAll? {
      CancelAllKeepsCourse(s);
    } else {
      CourseKeeps(s, DoSignOut(s, step.ok));
    }
  }

  lemma MoveStepKeepsFiling(s: State, step: Step)
    requires RegistryInv(s) && FilingInv(s) && LockInv(s) && Enabled(s, step) && IsMove(step)
    ensures FilingInv(Apply(s, step))
  {
    match step
    case BeginFirst(t) => BeginFirstKeepsFiling(s, t);
    case Take(t) => TakeKeepsFiling(s, t);
    case Grant(t) => GrantKeepsFiling(s, t);
    case Stop(t, event) => EndKeepsFiling(s, t, event);
    case Save(t, secret, ok) => SaveKeepsFiling(s, t, secret, ok);
    case Decide(t, ok) => DecideKeepsFiling(s, t, ok);
    case CleanUp(t, ok) => OverKeepsFiling(s, DoCleanUp(s, t, ok), t);
  }

  lemma LoginStepKeepsFiling(s: State, step: Step)
    requires RegistryInv(s) && FilingInv(s) && LockInv(s) && Enabled(s, step) && !IsRefreshStep(step)
    ensures FilingInv(Apply(s, step))
  {
    if IsMove(step) {
      MoveStepKeepsFiling(s, step);
    } else if step.Register? {
      RegisterKeepsFiling(s, step.id);
    } else if step.Abandon? || (step.BeginSecond? && s.tasks[step.t].generation != s.core.generation) {
      GiveUpKeepsFiling(s, step.t);
    } else if step.BeginSecond? {
      FileKeepsFiling(s, step.t);
    } else if step.Emit? {
      OverKeepsFiling(s, DoEmit(s, step.t), step.t);
    } else if step.SignOut? {
      SignOutKeepsFiling(s, step.ok);
    } else {
      FilingSame(s, Apply(s, step));
    }
  }

  lemma OtherStepsFrameLock(s: State, step: Step)
    requires LockInv(s) && RegistryInv(s) && Enabled(s, step) && !IsRefreshStep(step) && !step.Save? && !step.Decide?
    ensures LockFrame(s, Apply(s, step))
  {
    if step.Register? || step.Cancel? || step.CancelAll? {
    } else if step.BeginFirst? || step.BeginSecond? || step.Abandon? {
    } else if step.Take? || step.Grant? || step.Stop? {
    } else {
    }
  }

  lemma LoginStepKeepsLock(s: State, step: Step)
    requires LockInv(s) && RegistryInv(s) && Enabled(s, step) && !IsRefreshStep(step)
    ensures LockInv(Apply(s, step))
  {
    if step.Save? {
      SaveKeepsLock(s, step.t, step.secret, step.ok);
    } else if step.Decide? {
      DecideKeepsLock(s, step.t, step.ok);
    } else {
      OtherStepsFrameLock(s, step);
      LockFrameKeeps(s, Apply(s, step));
    }
  }

  lemma LoginStepKeepsTokens(s: State, step: Step)
    requires TokenInv(s) && LockInv(s) && RegistryInv(s) && Enabled(s, step) && !IsRefreshStep(step)
    ensures TokenInv(Apply(s, step))
  {
    if step.Save? {
      SaveKeepsTokens(s, step.t, step.secret, step.ok);
    } else {
      var n := Apply(s, step);
      assert forall t | RefreshIn(n, t) :: RefreshIn(s, t) && n.tasks[t] == s.tasks[t];
      if step.Decide? {
        DecideStaysAccountable(s, step.t, step.ok);
      } else {
        LoginStepStaysAccountable(s, step);
      }
      TokenFrameKeeps(s, n);
    }
  }

  ghost predicate StaysAccountable(s: State, n: State) {
    && (n.core.store == s.core.store || n.core.store.None?)
    && (forall t | Accountable(s, t) :: Accountable(n, t))
    && (forall t: TaskNo | LoginAt(s, t, Saving) && n.core.store.Some? :: LoginAt(n, t, Saving) || Accountable(n, t))
  }

  lemma DecideStaysAccountable(s: State, t: TaskNo, ok: bool)
    requires LockInv(s) && LoginAt(s, t, Saving)
    ensures StaysAccountable(s, DoDecide(s, t, ok))
  {
  }

  predicate MovesAttempt(step: Step) {
    step.Take? || step.Grant? || step.Stop? || step.Emit? || step.CleanUp?
  }

  lemma MoveStaysAccountable(s: State, step: Step)
    requires RegistryInv(s) && Enabled(s, step) && MovesAttempt(step)
    ensures StaysAccountable(s, Apply(s, step))
  {
    if step.Take? || step.Grant? || step.Stop? {
    } else {
    }
  }

  lemma LoginStepStaysAccountable(s: State, step: Step)
    requires LockInv(s) && RegistryInv(s) && Enabled(s, step) && !IsRefreshStep(step) && !step.Save? && !step.Decide?
    ensures StaysAccountable(s, Apply(s, step))
  {
    if MovesAttempt(step) {
      MoveStaysAccountable(s, step);
    }
  }

  /** Every step keeps the invariant. */
  lemma InvKept(s: State, step: Step)
    requires Inv(s) && Enabled(s, step)
    ensures Inv(Apply(s, step))
  {
    if IsRefreshStep(step) {
      RefreshStepKeeps(s, step);
    } else {
      LoginStepKeepsFiling(s, step);
      LoginStepKeepsCourse(s, step);
      LoginStepKeepsLock(s, step);
      LoginStepKeepsTokens(s, step);
    }
  }
}
