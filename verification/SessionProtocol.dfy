/**
 Starting, replacing and stopping document sessions, interleaved at every point where a command waits
 or may be dropped. The generations a command still has to stop are in its places; `ledger` records,
 for every generation that was completed, the place responsible for it.
 */
module SessionProtocol {
  import opened Text
  import opened SessionCore

  datatype Phase =
    | Waiting      // reserved as pending
    | Replacing    // the previous session, if any, was taken over
    | Running      // activated, the guard still armed
    | Dropping     // dropped; its context not yet given up
    | Closing      // dropped; still stopping what it holds
    | Gone

  /** A start command: its guard's generations, and its unfinished runtime reservation. */
  datatype Start = Start(
    context: Context,
    phase: Phase,
    previous: Option<Generation>,
    reservation: Option<Generation>,
    own: Option<Generation>,
    taken: Option<Generation>)

  datatype Place = Previous(n: ContextNo) | Own(n: ContextNo) | Taken(n: ContextNo) | ActiveEntry | Stopping | Stopped

  datatype State = State(
    registry: Registry,
    runtime: Runtime,
    starts: seq<Start>,                // one for every context ever made
    stopping: set<Generation>,         // taken out by a stop or a logout, not yet stopped
    stopped: seq<Generation>,          // stop calls made, in order
    ledger: map<Generation, Place>)

  const START := State(Registry(None, None, 0), Runtime(None, 0), [], {}, [], map[])

  datatype Step =
    | Begin(session: SessionId)
    | TakePrevious(n: ContextNo)
    | StopPrevious(n: ContextNo)
    | Reserve(n: ContextNo)
    | FailPreparation(n: ContextNo)
    | Complete(n: ContextNo)
    | Activate(n: ContextNo)
    | Disarm(n: ContextNo)
    | Drop(n: ContextNo)
    | GiveUp(n: ContextNo)
    | StopTaken(n: ContextNo)
    | StopOwn(n: ContextNo)
    | Vanish(n: ContextNo)
    | TakeForStop
    | SignOut
    | FinishStop(generation: Generation)

  predicate At(s: State, n: ContextNo, phase: Phase) {
    n < |s.starts| && s.starts[n].phase == phase
  }

  predicate Enabled(s: State, step: Step) {
    match step
    case Begin(session) => MayReserve(s.registry, session)
    case TakePrevious(n) => At(s, n, Waiting) && IsPending(s.registry, s.starts[n].context)
    case StopPrevious(n) => (At(s, n, Replacing) || At(s, n, Closing)) && s.starts[n].previous.Some?
    case Reserve(n) =>
      && At(s, n, Replacing) && s.starts[n].previous.None? && s.starts[n].reservation.None? && s.starts[n].own.None?
      && MayReserveRuntime(s.runtime, s.starts[n].context.session)
    case FailPreparation(n) => At(s, n, Replacing) && s.starts[n].reservation.Some?
    case Complete(n) => At(s, n, Replacing) && s.starts[n].reservation.Some?
      && s.runtime.generation == s.starts[n].reservation
    case Activate(n) => At(s, n, Replacing) && s.starts[n].own.Some? && MayActivate(s.registry, s.starts[n].context)
    case Disarm(n) => At(s, n, Running)
    case Drop(n) => At(s, n, Waiting) || At(s, n, Replacing) || At(s, n, Running)
    case GiveUp(n) => At(s, n, Dropping)
    case StopTaken(n) => At(s, n, Closing) && s.starts[n].taken.Some?
    case StopOwn(n) => At(s, n, Closing) && s.starts[n].own.Some?
    case Vanish(n) => At(s, n, Closing) && s.starts[n].previous.None? && s.starts[n].own.None?
      && s.starts[n].taken.None?
    case TakeForStop => s.registry.active.Some?
    case SignOut => forall n | 0 <= n < |s.starts| :: s.starts[n].phase == Gone
    case FinishStop(g) => g in s.stopping
  }

  /** The stop call for `g`, which its place has just handed over. */
  function StopNow(s: State, g: Generation): State {
    s.(runtime := RuntimeStopped(s.runtime, g), stopped := s.stopped + [g], ledger := s.ledger[g := Stopped])
  }

  function DoBegin(s: State, session: SessionId): State {
    s.(registry := Reserved(s.registry, session),
       starts := s.starts + [Start(Context(s.registry.next, session), Waiting, None, None, None, None)])
  }

  function DoTakePrevious(s: State, n: ContextNo): State
    requires n < |s.starts|
  {
    var start := s.starts[n];
    if s.registry.active.None? then s.(starts := s.starts[n := start.(phase := Replacing)])
    else
      var g := s.registry.active.value.generation;
      s.(registry := s.registry.(active := None),
         starts := s.starts[n := start.(phase := Replacing, previous := Some(g))],
         ledger := s.ledger[g := Previous(n)])
  }

  function DoStopPrevious(s: State, n: ContextNo): State
    requires n < |s.starts| && s.starts[n].previous.Some?
  {
    StopNow(s.(starts := s.starts[n := s.starts[n].(previous := None)]), s.starts[n].previous.value)
  }

  function DoReserve(s: State, n: ContextNo): State
    requires n < |s.starts|
  {
    var session := s.starts[n].context.session;
    s.(runtime := RuntimeReserved(s.runtime, session),
       starts := s.starts[n := s.starts[n].(reservation := Some(Generation(session, s.runtime.nextNonce)))])
  }

  /** The runtime clears a generation it cannot prepare. */
  function DoFailPreparation(s: State, n: ContextNo): State
    requires n < |s.starts|
  {
    s.(runtime := Without(s.runtime, Elements(s.starts[n].reservation)))
  }

  function DoComplete(s: State, n: ContextNo): State
    requires n < |s.starts| && s.starts[n].reservation.Some?
  {
    var g := s.starts[n].reservation.value;
    s.(starts := s.starts[n := s.starts[n].(reservation := None, own := Some(g))], ledger := s.ledger[g := Own(n)])
  }

  function DoActivate(s: State, n: ContextNo): State
    requires n < |s.starts| && s.starts[n].own.Some?
  {
    var start := s.starts[n];
    s.(registry := Activated(s.registry, start.context, start.own.value),
       starts := s.starts[n := start.(phase := Running, own := None)],
       ledger := s.ledger[start.own.value := ActiveEntry])
  }

  /** A dropped command first gives back an unfinished runtime reservation. */
  function DoDrop(s: State, n: ContextNo): State
    requires n < |s.starts|
  {
    var start := s.starts[n];
    s.(runtime := Without(s.runtime, Elements(start.reservation)),
       starts := s.starts[n := start.(phase := Dropping, reservation := None)])
  }

  function DoGiveUp(s: State, n: ContextNo): State
    requires n < |s.starts|
  {
    var start := s.starts[n];
    var registry := Removed(s.registry, start.context);
    if IsActive(s.registry, start.context) then
      var g := s.registry.active.value.generation;
      s.(registry := registry, starts := s.starts[n := start.(phase := Closing, taken := Some(g))],
        ledger := s.ledger[g := Taken(n)])
    else
      s.(registry := registry, starts := s.starts[n := start.(phase := Closing)])
  }

  function DoStopTaken(s: State, n: ContextNo): State
    requires n < |s.starts| && s.starts[n].taken.Some?
  {
    StopNow(s.(starts := s.starts[n := s.starts[n].(taken := None)]), s.starts[n].taken.value)
  }

  function DoStopOwn(s: State, n: ContextNo): State
    requires n < |s.starts| && s.starts[n].own.Some?
  {
    StopNow(s.(starts := s.starts[n := s.starts[n].(own := None)]), s.starts[n].own.value)
  }

  function DoTakeForStop(s: State): State
    requires s.registry.active.Some?
  {
    var g := s.registry.active.value.generation;
    s.(registry := s.registry.(active := None), stopping := s.stopping + {g}, ledger := s.ledger[g := Stopping])
  }

  function DoSignOut(s: State): State {
    var cleared := s.(registry := s.registry.(pending := None));
    if s.registry.active.Some? then DoTakeForStop(cleared) else cleared
  }

  function DoFinishStop(s: State, g: Generation): State {
    StopNow(s.(stopping := s.stopping - {g}), g)
  }

  function DoPhase(s: State, n: ContextNo, phase: Phase): State
    requires n < |s.starts|
  {
    s.(starts := s.starts[n := s.starts[n].(phase := phase)])
  }

  function Apply(s: State, step: Step): State
    requires Enabled(s, step)
  {
    match step
    case Begin(session) => DoBegin(s, session)
    case TakePrevious(n) => DoTakePrevious(s, n)
    case StopPrevious(n) => DoStopPrevious(s, n)
    case Reserve(n) => DoReserve(s, n)
    case FailPreparation(n) => DoFailPreparation(s, n)
    case Complete(n) => DoComplete(s, n)
    case Activate(n) => DoActivate(s, n)
    case Disarm(n) => DoPhase(s, n, Gone)
    case Drop(n) => DoDrop(s, n)
    case GiveUp(n) => DoGiveUp(s, n)
    case StopTaken(n) => DoStopTaken(s, n)
    case StopOwn(n) => DoStopOwn(s, n)
    case Vanish(n) => DoPhase(s, n, Gone)
    case TakeForStop => DoTakeForStop(s)
    case SignOut => DoSignOut(s)
    case FinishStop(g) => DoFinishStop(s, g)
  }

  /** A run: every step is enabled and leads to the next state. */
  ghost predicate IsRun(states: seq<State>, steps: seq<Step>) {
    && |states| == |steps| + 1
    && states[0] == START
    && forall i | 0 <= i < |steps| :: Enabled(states[i], steps[i]) && states[i + 1] == Apply(states[i], steps[i])
  }
}
