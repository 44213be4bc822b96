/** What a whole command achieves when nobody comes between its steps, and what a dropped one leaves behind. */
module SessionRuns {
  import opened Text
  import opened SessionCore
  import opened SessionProtocol
  import opened SessionInvariants

  /** These steps lead from one state to the other. */
  ghost predicate Leads(s: State, steps: seq<Step>, t: State)
    decreases |steps|
  {
    if steps == [] then s == t else Enabled(s, steps[0]) && Leads(Apply(s, steps[0]), steps[1..], t)
  }

  lemma {:induction false} LeadsFurther(s: State, steps: seq<Step>, mid: State, more: seq<Step>, t: State)
    requires Leads(s, steps, mid) && Leads(mid, more, t)
    ensures Leads(s, steps + more, t)
    decreases |steps|
  {
    if steps == [] {
      assert steps + more == more;
    } else {
      assert (steps + more)[0] == steps[0] && (steps + more)[1..] == steps[1..] + more;
      LeadsFurther(Apply(s, steps[0]), steps[1..], mid, more, t);
    }
  }

  /** One step more. */
  lemma Then(s: State, steps: seq<Step>, mid: State, step: Step) returns (more: seq<Step>, e: State)
    requires Leads(s, steps, mid) && Enabled(mid, step)
    ensures more == steps + [step] && e == Apply(mid, step) && Leads(s, more, e)
  {
    more, e := steps + [step], Apply(mid, step);
    assert [step][0] == step && [step][1..] == [] && Leads(e, [], e);
    LeadsFurther(s, steps, mid, [step], e);
  }

  function Finished(c: Context): Start {
    Start(c, Gone, None, None, None, None)
  }

  function Listed(g: Option<Generation>): seq<Generation> {
    if g.Some? then [g.value] else []
  }

  // ---- A start that nobody disturbs ----

  /** Up to the point where the runtime is free: the session before is taken over and stopped. */
  lemma TakesOver(s: State, session: SessionId) returns (steps: seq<Step>, e: State)
    requires Inv(s) && MayReserve(s.registry, session)
    ensures Leads(s, steps, e)
    ensures e.registry == Registry(Some(Context(s.registry.next, session)), None, s.registry.next + 1)
    ensures e.starts == s.starts + [Start(Context(s.registry.next, session), Replacing, None, None, None, None)]
    ensures e.stopping == s.stopping
    ensures s.registry.active.None? ==> e.runtime == s.runtime && e.stopped == s.stopped
    ensures s.registry.active.Some? ==> e.runtime == s.runtime.(generation := None)
                                        && e.stopped == s.stopped + [s.registry.active.value.generation]
  {
    var n := |s.starts|;
    steps, e := [], s;
    steps, e := Then(s, steps, e, Begin(session));
    steps, e := Then(s, steps, e, TakePrevious(n));
    if s.registry.active.Some? {
      steps, e := Then(s, steps, e, StopPrevious(n));
    }
  }

  /**
   A start that nobody disturbs, from any state that satisfies the invariant: its session is the active one under
   a generation of its own, which is the live one; the session before, if any, was stopped; and nothing else was.
   */
  lemma UndisturbedStart(s: State, session: SessionId) returns (steps: seq<Step>, e: State)
    requires Inv(s) && MayReserve(s.registry, session)
    requires s.registry.active.Some? || MayReserveRuntime(s.runtime, session)
    ensures Leads(s, steps, e)
    ensures var c, g := Context(s.registry.next, session), Generation(session, s.runtime.nextNonce);
      && e.registry == Registry(None, Some(Entry(c, g)), s.registry.next + 1)
      && e.runtime == Runtime(Some(g), s.runtime.nextNonce + 1)
      && e.starts == s.starts + [Finished(c)]
    ensures e.stopping == s.stopping
    ensures e.stopped == s.stopped + if s.registry.active.Some? then [s.registry.active.value.generation] else []
  {
    var n := |s.starts|;
    steps, e := TakesOver(s, session);
    steps, e := Then(s, steps, e, Reserve(n));
    steps, e := Then(s, steps, e, Complete(n));
    steps, e := Then(s, steps, e, Activate(n));
    steps, e := Then(s, steps, e, Disarm(n));
  }

  // ---- A start that is dropped ----

  /** What the command gives up: its own context, and every generation it is responsible for. */
  function ActiveOf(s: State, n: ContextNo): Option<Generation>
    requires n < |s.starts|
  {
    if IsActive(s.registry, s.starts[n].context) then Some(s.registry.active.value.generation) else None
  }

  function HeldBy(s: State, n: ContextNo): set<Generation>
    requires n < |s.starts|
  {
    Elements(s.starts[n].reservation) + Elements(ActiveOf(s, n))
    + Elements(s.starts[n].previous) + Elements(s.starts[n].own)
  }

  /** After the drop and its context given up, what is left to stop. */
  lemma GivesUpItsContext(s: State, n: ContextNo) returns (e: State)
    requires Inv(s) && (At(s, n, Waiting) || At(s, n, Replacing) || At(s, n, Running))
    ensures Leads(s, [Drop(n), GiveUp(n)], e)
    ensures e.registry == Registry(
        if IsPending(s.registry, s.starts[n].context) then None else s.registry.pending,
        if IsActive(s.registry, s.starts[n].context) then None else s.registry.active,
        s.registry.next)
    ensures e.starts ==
      s.starts[n := Start(s.starts[n].context, Closing, s.starts[n].previous, None, s.starts[n].own, ActiveOf(s, n))]
    ensures e.stopped == s.stopped && e.stopping == s.stopping
    ensures e.runtime == Runtime(
        if s.starts[n].reservation.Some? && s.runtime.generation == s.starts[n].reservation then None
        else s.runtime.generation, s.runtime.nextNonce)
  {
    var steps;
    steps, e := [], s;
    steps, e := Then(s, steps, e, Drop(n));
    steps, e := Then(s, steps, e, GiveUp(n));
    assert steps == [Drop(n), GiveUp(n)];
  }

  function StoppedBy(r: Runtime, gs: set<Generation>): Runtime {
    r.(generation := if r.generation.Some? && r.generation.value in gs then None else r.generation)
  }

  /** The guard's first stop calls: for the active entry it took out, and for the session before. */
  lemma StopsWhatItTook(s: State, n: ContextNo) returns (steps: seq<Step>, e: State)
    requires At(s, n, Closing)
    ensures Leads(s, steps, e)
    ensures e.registry == s.registry && e.stopping == s.stopping
    ensures e.starts == s.starts[n := s.starts[n].(taken := None, previous := None)]
    ensures e.stopped == s.stopped + Listed(s.starts[n].taken) + Listed(s.starts[n].previous)
    ensures e.runtime == StoppedBy(s.runtime, Elements(s.starts[n].taken) + Elements(s.starts[n].previous))
  {
    steps, e := [], s;
    if s.starts[n].taken.Some? {
      steps, e := Then(s, steps, e, StopTaken(n));
    }
    if s.starts[n].previous.Some? {
      steps, e := Then(s, steps, e, StopPrevious(n));
    }
  }

  /** And the last, for the runtime generation of its own. */
  lemma StopsItsOwn(s: State, n: ContextNo) returns (steps: seq<Step>, e: State)
    requires At(s, n, Closing) && s.starts[n].taken.None? && s.starts[n].previous.None?
    ensures Leads(s, steps, e)
    ensures e.registry == s.registry && e.stopping == s.stopping
    ensures e.starts == s.starts[n := Finished(s.starts[n].context).(reservation := s.starts[n].reservation)]
    ensures e.stopped == s.stopped + Listed(s.starts[n].own)
    ensures e.runtime == StoppedBy(s.runtime, Elements(s.starts[n].own))
  {
    steps, e := [], s;
    if s.starts[n].own.Some? {
      steps, e := Then(s, steps, e, StopOwn(n));
    }
    steps, e := Then(s, steps, e, Vanish(n));
  }

  /**
   A start that is dropped, wherever it stands, can always finish on its own, and then nothing of it is left: its
   context is neither pending nor active, it holds nothing, and each generation it was responsible for was stopped
   once more than before, the live one included.
   */
  lemma DroppedStartFinishes(s: State, n: ContextNo) returns (steps: seq<Step>, e: State)
    requires Inv(s) && (At(s, n, Waiting) || At(s, n, Replacing) || At(s, n, Running))
    ensures Leads(s, steps, e)
    ensures e.starts == s.starts[n := Finished(s.starts[n].context)]
    ensures !IsPending(e.registry, s.starts[n].context) && !IsActive(e.registry, s.starts[n].context)
    ensures !IsPending(s.registry, s.starts[n].context) ==> e.registry.pending == s.registry.pending
    ensures !IsActive(s.registry, s.starts[n].context) ==> e.registry.active == s.registry.active
    ensures e.stopped ==
      s.stopped + Listed(ActiveOf(s, n)) + Listed(s.starts[n].previous) + Listed(s.starts[n].own)
    ensures e.runtime.generation ==
      if s.runtime.generation.Some? && s.runtime.generation.value in HeldBy(s, n) then None else s.runtime.generation
  {
    var mid := GivesUpItsContext(s, n);
    var took, late := StopsWhatItTook(mid, n);
    var last;
    last, e := StopsItsOwn(late, n);
    LeadsFurther(s, [Drop(n), GiveUp(n)], mid, took, late);
    LeadsFurther(s, [Drop(n), GiveUp(n)] + took, late, last, e);
    steps := [Drop(n), GiveUp(n)] + took + last;
  }

  // ---- Stopping ----

  /** Stopping the active session, undisturbed: nothing is active or live any more. */
  lemma UndisturbedStop(s: State) returns (e: State)
    requires Inv(s) && s.registry.active.Some?
    ensures var g := s.registry.active.value.generation;
      && Leads(s, [TakeForStop, FinishStop(g)], e)
      && e.registry == s.registry.(active := None) && e.starts == s.starts
      && e.runtime == s.runtime.(generation := None)
      && e.stopped == s.stopped + [g] && e.stopping == s.stopping - {g}
  {
    var g := s.registry.active.value.generation;
    var steps;
    steps, e := [], s;
    steps, e := Then(s, steps, e, TakeForStop);
    steps, e := Then(s, steps, e, FinishStop(g));
    assert steps == [TakeForStop, FinishStop(g)];
  }

  /** A logout leaves nothing pending and nothing active, and what was active is to be stopped. */
  lemma LogoutClearsTheRegistry(s: State)
    requires Enabled(s, SignOut)
    ensures var e := Apply(s, SignOut);
      && e.registry.pending.None? && e.registry.active.None?
      && (s.registry.active.Some? ==> e.stopping == s.stopping + {s.registry.active.value.generation})
      && e.starts == s.starts && e.stopped == s.stopped && e.runtime == s.runtime
  {
  }

  /** A preparation that failed frees the runtime, unless another generation is live by now. */
  lemma FailedPreparationFrees(s: State, n: ContextNo)
    requires Enabled(s, FailPreparation(n))
    ensures var e := Apply(s, FailPreparation(n));
      && e.(runtime := s.runtime) == s && e.runtime.nextNonce == s.runtime.nextNonce
      && e.runtime.generation ==
         if s.runtime.generation == s.starts[n].reservation then None else s.runtime.generation
  {
  }
}
