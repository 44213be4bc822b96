/**
 The authentication service's lifecycle state and the sections it runs under the lifecycle lock,
 first as functions of the state and then as the methods of the service object.
 */
module AuthCore {
  import opened Text

  /** A login request's id, chosen by the client. */
  type Id = nat

  /** A login attempt or a refresh, numbered in order of creation; also names its cancellation token. */
  type TaskNo = nat

  datatype JobKind = Login | Refresh

  /** Login jobs are filed under the request id, refresh jobs under a fresh id. */
  datatype Key = LoginKey(id: Id) | RefreshKey(task: TaskNo)

  datatype Job = Job(generation: nat, kind: JobKind, token: TaskNo)

  datatype Pending = Pending(generation: nat, token: TaskNo)

  /** Stored tokens, tagged with the login attempt they descend from. */
  datatype Tokens = Tokens(origin: TaskNo, secret: nat)

  datatype Core = Core(
    generation: nat,
    pending: map<Id, Pending>,
    active: map<Key, Job>,
    reservations: map<Id, nat>,
    cancelled: set<TaskNo>,
    store: Option<Tokens>)

  const INITIAL := Core(0, map[], map[], map[], {}, None)

  // ---- Sections as functions ----

  /** Start a new generation: every active job is cancelled and everything filed is forgotten. */
  function Invalidate(c: Core): Core {
    c.(generation := c.generation + 1,
       pending := map[],
       active := map[],
       cancelled := c.cancelled + set k | k in c.active :: c.active[k].token)
  }

  predicate HasReservation(c: Core, generation: nat) {
    generation in c.reservations.Values
  }

  predicate HasLogin(c: Core) {
    exists k | k in c.active :: c.active[k].kind == Login
  }

  /** First section of `begin`. */
  function Reserve(c: Core, id: Id): Core {
    var n := Invalidate(c);
    n.(reservations := (map i | i in n.reservations && n.reservations[i] == n.generation :: n.reservations[i])
                       [id := n.generation])
  }

  /** A reservation is released only by the `begin` that made it. */
  function Release(c: Core, id: Id, generation: nat): Core {
    if id in c.reservations && c.reservations[id] == generation
    then c.(reservations := c.reservations - {id})
    else c
  }

  /** Second section of `begin`, when the generation has not moved. */
  function File(c: Core, id: Id, generation: nat, token: TaskNo): Core {
    Release(c.(active := c.active[LoginKey(id) := Job(generation, Login, token)],
               pending := c.pending[id := Pending(generation, token)]), id, generation)
  }

  predicate IsCurrent(c: Core, key: Key, generation: nat) {
    && c.generation == generation
    && key in c.active
    && c.active[key].generation == generation
    && c.active[key].token !in c.cancelled
  }

  function Finish(c: Core, key: Key): Core {
    c.(active := c.active - {key})
  }

  function Logout(c: Core, deleted: bool): Core {
    var n := Invalidate(c).(reservations := map[]);
    if deleted then n.(store := None) else n
  }

  /** A refresh may not start beside a login, filed or about to be. */
  predicate RefreshAllowed(c: Core) {
    !HasLogin(c) && !HasReservation(c, c.generation)
  }

  function StartRefresh(c: Core, token: TaskNo): Core {
    c.(active := c.active[RefreshKey(token) := Job(c.generation, Refresh, token)])
  }

  // ---- The service object ----

  class AuthService {
    var generation: nat
    var pending: map<Id, Pending>
    var active: map<Key, Job>
    var reservations: map<Id, nat>
    var cancelled: set<TaskNo>
    var store: Option<Tokens>

    constructor ()
      ensures Value() == INITIAL
    {
      generation, pending, active, reservations, cancelled, store := 0, map[], map[], map[], {}, None;
    }

    function Value(): Core
      reads this
    {
      Core(generation, pending, active, reservations, cancelled, store)
    }

    method InvalidateLifecycle()
      modifies this
      ensures Value() == Invalidate(old(Value()))
      ensures generation == old(generation) + 1 && active == map[] && pending == map[]
      ensures forall t ::
        t in cancelled <==> t in old(cancelled) || exists k :: k in old(active) && old(active)[k].token == t
      ensures reservations == old(reservations) && store == old(store)
    {
      generation := generation + 1;
      var left := active.Keys;
      while left != {}
        invariant left <= active.Keys
        invariant generation == old(generation) + 1 && pending == old(pending) && active == old(active)
        invariant reservations == old(reservations) && store == old(store)
        invariant cancelled == old(cancelled) + set k | k in active && k !in left :: active[k].token
      {
        var k :| k in left;
        cancelled := cancelled + {active[k].token};
        left := left - {k};
      }
      active := map[];
      pending := map[];
    }

    method BeginReserve(id: Id) returns (reserved: nat)
      modifies this
      ensures Value() == Reserve(old(Value()), id)
      ensures reserved == generation == old(generation) + 1 && active == map[] && pending == map[]
      ensures forall i :: i in reservations <==> i == id || (i in old(reservations) && old(reservations)[i] == reserved)
      ensures forall i | i in reservations :: reservations[i] == reserved
      ensures store == old(store)
    {
      InvalidateLifecycle();
      reserved := generation;
      reservations := map i | i in reservations && reservations[i] == reserved :: reservations[i];
      reservations := reservations[id := reserved];
    }

    method DropReservation(id: Id, reserved: nat)
      modifies this
      ensures Value() == Release(old(Value()), id, reserved)
      ensures forall i ::
        i in reservations <==> i in old(reservations) && !(i == id && old(reservations)[i] == reserved)
      ensures forall i | i in reservations :: reservations[i] == old(reservations)[i]
      ensures generation == old(generation) && pending == old(pending) && active == old(active)
      ensures cancelled == old(cancelled) && store == old(store)
    {
      if id in reservations && reservations[id] == reserved {
        reservations := reservations - {id};
      }
    }

    /** Either way the reservation is given up. */
    method BeginCommit(id: Id, reserved: nat, token: TaskNo) returns (filed: bool)
      modifies this
      ensures filed <==> old(generation) == reserved
      ensures Value() == if filed then File(old(Value()), id, reserved, token) else Release(old(Value()), id, reserved)
      ensures active == if filed then old(active)[LoginKey(id) := Job(reserved, Login, token)] else old(active)
      ensures pending == if filed then old(pending)[id := Pending(reserved, token)] else old(pending)
      ensures forall i ::
        i in reservations <==> i in old(reservations) && !(i == id && old(reservations)[i] == reserved)
      ensures generation == old(generation) && cancelled == old(cancelled) && store == old(store)
    {
      filed := generation == reserved;
      if filed {
        active := active[LoginKey(id) := Job(reserved, Login, token)];
        pending := pending[id := Pending(reserved, token)];
      }
      DropReservation(id, reserved);
    }

    method TakePending(id: Id) returns (taken: Option<Pending>)
      modifies this
      ensures taken == if id in old(pending) then Some(old(pending)[id]) else None
      ensures Value() == old(Value()).(pending := old(pending) - {id})
    {
      if id in pending {
        taken := Some(pending[id]);
        pending := pending - {id};
      } else {
        taken := None;
        assert pending - {id} == pending;
      }
    }

    method JobIsCurrent(key: Key, expected: nat) returns (current: bool)
      ensures current == IsCurrent(Value(), key, expected)
      ensures current <==> generation == expected && key in active && active[key].generation == expected
                           && active[key].token !in cancelled
    {
      return generation == expected && key in active
          && active[key].generation == expected && active[key].token !in cancelled;
    }

    method FinishJob(key: Key)
      modifies this
      ensures Value() == Finish(old(Value()), key)
      ensures active == old(active) - {key}
    {
      active := active - {key};
    }

    method FinishJobIfCurrent(key: Key, expected: nat) returns (finished: bool)
      modifies this
      ensures finished == IsCurrent(old(Value()), key, expected)
      ensures Value() == if finished then Finish(old(Value()), key) else old(Value())
    {
      finished := JobIsCurrent(key, expected);
      if finished {
        FinishJob(key);
      }
    }

    /** Save a refreshed grant for a job that is still current; `ok` is the credential store's answer. */
    method SaveIfCurrent(key: Key, expected: nat, token: TaskNo, tokens: Tokens, ok: bool) returns (saved: bool)
      modifies this
      ensures saved <==> ok && IsCurrent(old(Value()), key, expected) && token !in old(cancelled)
      ensures Value() == var c := Finish(old(Value()), key); if saved then c.(store := Some(tokens)) else c
    {
      var current := JobIsCurrent(key, expected);
      saved := current && token !in cancelled && ok;
      if saved {
        store := Some(tokens);
      }
      FinishJob(key);
    }

    /** Delete the credentials on behalf of a job, if it is still current. */
    method DeleteIfCurrent(key: Key, expected: nat, ok: bool) returns (attempted: bool)
      modifies this
      ensures attempted == IsCurrent(old(Value()), key, expected)
      ensures Value() == if !attempted then old(Value())
                         else var c := Finish(old(Value()), key); if ok then c.(store := None) else c
    {
      attempted := JobIsCurrent(key, expected);
      if attempted {
        if ok {
          store := None;
        }
        FinishJob(key);
      }
    }

    method SignOut(ok: bool)
      modifies this
      ensures Value() == Logout(old(Value()), ok)
      ensures generation == old(generation) + 1 && active == map[] && pending == map[] && reservations == map[]
      ensures forall t ::
        t in cancelled <==> t in old(cancelled) || exists k :: k in old(active) && old(active)[k].token == t
      ensures store == if ok then None else old(store)
    {
      InvalidateLifecycle();
      reservations := map[];
      if ok {
        store := None;
      }
    }

    method TryStartRefresh(token: TaskNo) returns (started: bool)
      modifies this
      ensures started == RefreshAllowed(old(Value()))
      ensures started <==> (forall k | k in old(active) :: old(active)[k].kind == Refresh)
                           && (forall i | i in old(reservations) :: old(reservations)[i] != generation)
      ensures Value() == if started then StartRefresh(old(Value()), token) else old(Value())
      ensures active == if started then old(active)[RefreshKey(token) := Job(generation, Refresh, token)]
        else old(active)
    {
      var login := exists k | k in active :: active[k].kind == Login;
      if login || generation in reservations.Values {
        return false;
      }
      active := active[RefreshKey(token) := Job(generation, Refresh, token)];
      return true;
    }
  }
}
