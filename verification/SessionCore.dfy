/**
 The registry of document sessions and the runtime behind it. A session's command context is known by
 its number, which is never used again; the client's session ids may be.
 */
module SessionCore {
  import opened Text

  type SessionId = nat
  type ContextNo = nat

  /** One generation of the document runtime; the nonce is never used again. */
  datatype Generation = Generation(session: SessionId, nonce: nat)

  datatype Context = Context(number: ContextNo, session: SessionId)

  datatype Entry = Entry(context: Context, generation: Generation)

  datatype Registry = Registry(pending: Option<Context>, active: Option<Entry>, next: ContextNo)

  datatype Runtime = Runtime(generation: Option<Generation>, nextNonce: nat)

  // ---- The registry ----

  predicate IsPending(r: Registry, c: Context) {
    r.pending == Some(c)
  }

  predicate IsActive(r: Registry, c: Context) {
    r.active.Some? && r.active.value.context == c
  }

  predicate MayReserve(r: Registry, session: SessionId) {
    r.pending.None? && !(r.active.Some? && r.active.value.context.session == session)
  }

  function Reserved(r: Registry, session: SessionId): Registry {
    r.(pending := Some(Context(r.next, session)), next := r.next + 1)
  }

  predicate MayActivate(r: Registry, c: Context) {
    r.active.None? && IsPending(r, c)
  }

  function Activated(r: Registry, c: Context, g: Generation): Registry {
    r.(pending := None, active := Some(Entry(c, g)))
  }

  /** What `RemoveExact` takes out: a pending reservation is dropped, an active entry handed back. */
  function Removed(r: Registry, c: Context): Registry {
    r.(pending := if IsPending(r, c) then None else r.pending, active := if IsActive(r, c) then None else r.active)
  }

  /** One mutex around the pending and the active session. */
  class SessionRegistry {
    var state: Registry

    constructor ()
      ensures state == Registry(None, None, 0)
    {
      state := Registry(None, None, 0);
    }

    method ActiveContext(session: SessionId) returns (context: Option<Context>)
      ensures context.Some? ==> IsActive(state, context.value) && context.value.session == session
      ensures context.None? ==> forall c | IsActive(state, c) :: c.session != session
    {
      context := if state.active.Some? && state.active.value.context.session == session
        then Some(state.active.value.context) else None;
    }

    method ReservePending(session: SessionId) returns (context: Option<Context>)
      modifies this
      ensures if MayReserve(old(state), session)
        then context == Some(Context(old(state).next, session)) && state == Reserved(old(state), session)
        else context == None && state == old(state)
      ensures context.None? <==>
        old(state).pending.Some? || (old(state).active.Some? && old(state).active.value.context.session == session)
      ensures context.Some? ==> state == Registry(context, old(state).active, old(state).next + 1)
                                && context.value == Context(old(state).next, session)
    {
      if state.pending.Some? || (state.active.Some? && state.active.value.context.session == session) {
        return None;
      }
      context := Some(Context(state.next, session));
      state := state.(pending := context, next := state.next + 1);
    }

    /** The outer option is the error that `context` is no longer pending. */
    method TakeActiveForPending(context: Context) returns (taken: Option<Option<Entry>>)
      modifies this
      ensures taken == if IsPending(old(state), context) then Some(old(state).active) else None
      ensures state == if IsPending(old(state), context) then old(state).(active := None) else old(state)
    {
      if state.pending != Some(context) {
        return None;
      }
      taken := Some(state.active);
      state := state.(active := None);
    }

    method ActivatePending(context: Context, generation: Generation) returns (ok: bool)
      modifies this
      ensures ok == MayActivate(old(state), context)
      ensures state == if ok then Activated(old(state), context, generation) else old(state)
      ensures ok <==> old(state).active.None? && old(state).pending == Some(context)
      ensures ok ==> state == Registry(None, Some(Entry(context, generation)), old(state).next)
    {
      if state.active.Some? || state.pending != Some(context) {
        return false;
      }
      state := state.(pending := None);
      state := state.(active := Some(Entry(context, generation)));
      ok := true;
    }

    method TakeIf(context: Context) returns (taken: Option<Entry>)
      modifies this
      ensures taken == if IsActive(old(state), context) then old(state).active else None
      ensures state == if IsActive(old(state), context) then old(state).(active := None) else old(state)
    {
      taken := None;
      if state.active.Some? && state.active.value.context == context {
        taken := state.active;
        state := state.(active := None);
      }
    }

    method RemoveExact(context: Context) returns (taken: Option<Entry>)
      modifies this
      ensures taken == if IsActive(old(state), context) then old(state).active else None
      ensures state == Removed(old(state), context)
      ensures state == Registry(
          if old(state).pending == Some(context) then None else old(state).pending,
          if taken.Some? then None else old(state).active,
          old(state).next)
    {
      if state.pending == Some(context) {
        state := state.(pending := None);
      }
      taken := TakeIf(context);
    }

    method ClearForLogout() returns (taken: Option<Entry>)
      modifies this
      ensures taken == old(state).active && state == old(state).(pending := None, active := None)
    {
      taken := state.active;
      state := state.(pending := None, active := None);
    }
  }

  // ---- The runtime ----

  predicate MayReserveRuntime(r: Runtime, session: SessionId) {
    !(r.generation.Some? && r.generation.value.session == session)
  }

  /** A new generation takes the place of the one before. */
  function RuntimeReserved(r: Runtime, session: SessionId): Runtime {
    Runtime(Some(Generation(session, r.nextNonce)), r.nextNonce + 1)
  }

  /** Stopping a generation that is no longer the live one changes nothing. */
  function RuntimeStopped(r: Runtime, g: Generation): Runtime {
    if r.generation == Some(g) then r.(generation := None) else r
  }

  function Without(r: Runtime, gs: set<Generation>): Runtime {
    if r.generation.Some? && r.generation.value in gs then r.(generation := None) else r
  }

  function Elements(g: Option<Generation>): set<Generation> {
    if g.Some? then {g.value} else {}
  }

  class DocumentRuntime {
    var state: Runtime

    constructor ()
      ensures state == Runtime(None, 0)
    {
      state := Runtime(None, 0);
    }

    method ReserveSession(session: SessionId) returns (generation: Option<Generation>)
      modifies this
      ensures if MayReserveRuntime(old(state), session)
        then generation == Some(Generation(session, old(state).nextNonce))
          && state == RuntimeReserved(old(state), session)
        else generation == None && state == old(state)
      ensures generation.None? <==>
        old(state).generation.Some? && old(state).generation.value.session == session
      ensures generation.Some? ==> state == Runtime(generation, old(state).nextNonce + 1)
                                   && generation.value == Generation(session, old(state).nextNonce)
    {
      if state.generation.Some? && state.generation.value.session == session {
        return None;
      }
      generation := Some(Generation(session, state.nextNonce));
      state := Runtime(generation, state.nextNonce + 1);
    }

    method StopGeneration(generation: Generation) returns (ok: bool)
      modifies this
      ensures ok == (old(state).generation == Some(generation))
      ensures state == RuntimeStopped(old(state), generation)
      ensures state == Runtime(if ok then None else old(state).generation, old(state).nextNonce)
    {
      if state.generation != Some(generation) {
        return false;
      }
      state := state.(generation := None);
      ok := true;
    }
  }

  /** What a start command must undo if it is dropped. */
  class StartCleanup {
    const context: Context
    var previousGeneration: Option<Generation>
    var runtimeGeneration: Option<Generation>
    var armed: bool

    constructor (context: Context)
      ensures this.context == context && previousGeneration == None && runtimeGeneration == None && armed
    {
      this.context := context;
      previousGeneration, runtimeGeneration, armed := None, None, true;
    }

    /** An armed guard gives up its context and stops every generation it is responsible for, in this order. */
    method Drop(registry: SessionRegistry, runtime: DocumentRuntime)
      modifies this, registry, runtime
      ensures !old(armed) ==> registry.state == old(registry.state) && runtime.state == old(runtime.state)
      ensures old(armed) ==>
        && registry.state == Removed(old(registry.state), context)
        && runtime.state == Without(old(runtime.state),
             (if IsActive(old(registry.state), context) then {old(registry.state).active.value.generation} else {})
             + Elements(old(previousGeneration)) + Elements(old(runtimeGeneration)))
        && previousGeneration == None && runtimeGeneration == None
    {
      if !armed {
        return;
      }
      var active := registry.RemoveExact(context);
      if active.Some? {
        var _ := runtime.StopGeneration(active.value.generation);
      }
      if previousGeneration.Some? {
        var _ := runtime.StopGeneration(previousGeneration.value);
        previousGeneration := None;
      }
      if runtimeGeneration.Some? {
        var _ := runtime.StopGeneration(runtimeGeneration.value);
        runtimeGeneration := None;
      }
    }
  }
}
