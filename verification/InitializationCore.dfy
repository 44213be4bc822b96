/**
 The registry of the one pending workspace initialization: its context in memory, the claim that is
 using it, and whether it is being replaced.
 */
module InitializationCore {
  import opened Text

  type PreviewId = nat

  datatype Context = Context(id: PreviewId, completed: bool)

  datatype Registry = Registry(context: Option<Context>, active: Option<PreviewId>, replacing: bool)

  predicate Busy(r: Registry) {
    r.active.Some? || r.replacing
  }

  predicate InMemory(r: Registry, id: PreviewId) {
    r.context.Some? && r.context.value.id == id
  }

  function Claimed(r: Registry, id: PreviewId): Registry {
    r.(active := Some(id))
  }

  /** A recorded completion replaces the context in memory as long as the claim is the live one. */
  function Recorded(r: Registry, id: PreviewId): Registry {
    if r.active == Some(id) then r.(context := Some(Context(id, true))) else r
  }

  function Completed(r: Registry, id: PreviewId): Registry {
    if r.active == Some(id) then r.(active := None, context := if InMemory(r, id) then None else r.context) else r
  }

  function Dropped(r: Registry, id: PreviewId): Registry {
    if r.active == Some(id) then r.(active := None) else r
  }

  function Cleared(r: Registry): Registry {
    r.(context := None, replacing := false)
  }

  class ContextRegistry {
    var state: Registry

    constructor ()
      ensures state == Registry(None, None, false)
    {
      state := Registry(None, None, false);
    }

    /** Refused while a claim is live or another change is under way; the same for a replacement and for a clearing. */
    method BeginChange() returns (ok: bool)
      modifies this
      ensures ok <==> old(state).active.None? && !old(state).replacing
      ensures state == if ok then old(state).(replacing := true) else old(state)
    {
      if state.active.Some? || state.replacing {
        return false;
      }
      state := state.(replacing := true);
      ok := true;
    }

    method CommitReplacement(context: Context) returns (previous: Option<Context>)
      modifies this
      ensures previous == old(state).context && state == Registry(Some(context), old(state).active, false)
    {
      state := state.(replacing := false);
      previous := state.context;
      state := state.(context := Some(context));
    }

    method DropChange()
      modifies this
      ensures state == old(state).(replacing := false)
    {
      state := state.(replacing := false);
    }

    method Insert(context: Context) returns (ok: bool)
      modifies this
      ensures ok <==> old(state).active.None? && !old(state).replacing
      ensures state == if ok then old(state).(context := Some(context)) else old(state)
    {
      if state.active.Some? || state.replacing {
        return false;
      }
      state := state.(context := Some(context));
      ok := true;
    }

    /** The outer option is the refusal while the registry is busy. */
    method ClaimIfPresent(id: PreviewId) returns (claim: Option<Option<Context>>)
      modifies this
      ensures claim ==
        if Busy(old(state)) then None
        else if InMemory(old(state), id) then Some(old(state).context)
        else Some(None)
      ensures state == if !Busy(old(state)) && InMemory(old(state), id) then Claimed(old(state), id) else old(state)
      ensures claim.None? <==> old(state).active.Some? || old(state).replacing
      ensures claim.Some? && claim.value.Some? <==>
        old(state).active.None? && !old(state).replacing
        && old(state).context.Some? && old(state).context.value.id == id
      ensures state == if claim.Some? && claim.value.Some? then old(state).(active := Some(id)) else old(state)
    {
      if state.active.Some? || state.replacing {
        return None;
      }
      if state.context.None? || state.context.value.id != id {
        return Some(None);
      }
      claim := Some(state.context);
      state := state.(active := Some(id));
    }

    method RecordCompletion(id: PreviewId)
      modifies this
      ensures state == Recorded(old(state), id)
      ensures state == if old(state).active == Some(id)
        then Registry(Some(Context(id, true)), Some(id), old(state).replacing)
                       else old(state)
    {
      if state.active == Some(id) {
        state := state.(context := Some(Context(id, true)));
      }
    }

    method CompleteClaim(id: PreviewId)
      modifies this
      ensures state == Completed(old(state), id)
      ensures old(state).active != Some(id) ==> state == old(state)
      ensures old(state).active == Some(id) ==>
        && state.active.None? && state.replacing == old(state).replacing
        && state.context ==
           if old(state).context.Some? && old(state).context.value.id == id then None else old(state).context
    {
      if state.active == Some(id) {
        state := state.(active := None);
        if state.context.Some? && state.context.value.id == id {
          state := state.(context := None);
        }
      }
    }

    method DropClaim(id: PreviewId)
      modifies this
      ensures state == Dropped(old(state), id)
      ensures state == if old(state).active == Some(id) then old(state).(active := None) else old(state)
    {
      if state.active == Some(id) {
        state := state.(active := None);
      }
    }

    method Clear()
      modifies this
      ensures state == Cleared(old(state)) == Registry(None, old(state).active, false)
    {
      state := state.(context := None);
      state := state.(replacing := false);
    }
  }
}
