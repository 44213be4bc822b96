/**
 The task that forwards a session's events from a bounded broadcast channel, and recovers when the
 channel has dropped some: it discards what is left, asks for a resynchronisation barrier, and waits
 for it; and again, if it falls behind meanwhile.
 */
module DocumentEventStream {
  import opened Text
  import opened DocumentEvents

  datatype Envelope = Envelope(revision: nat, event: Event)

  /**
   What happens before one operation of the receiver: what the runtime does, and whether the task is
   cancelled or the channel closed.
   */
  datatype Turn = Turn(operations: seq<Operation>, cancelled: bool, closed: bool)

  datatype Polled = Got(event: Event) | Lagged | Empty | Closed | Cancelled

  /**
   The envelopes carry the session's events `shown`, under strictly increasing revisions from 1 and below
   `revision`.
   */
  ghost predicate Numbered(me: SessionId, envelopes: seq<Envelope>, shown: seq<Event>, revision: nat) {
    && |envelopes| == |shown| && revision > 0
    && (forall i | 0 <= i < |shown| ::
          envelopes[i].event == shown[i] && shown[i].session == me && 0 < envelopes[i].revision < revision)
    && (forall i, j | 0 <= i < j < |shown| :: envelopes[i].revision < envelopes[j].revision)
  }

  /** `s` is the state that the first events of `log` tell, for some number of them. */
  ghost predicate Real(me: SessionId, initial: Snapshot, log: seq<Event>, s: Snapshot) {
    exists n :: 0 <= n <= |log| && Fold(me, initial, log[..n]) == s
  }

  lemma RealStays(me: SessionId, initial: Snapshot, log: seq<Event>, more: seq<Event>, s: Snapshot)
    requires Real(me, initial, log, s) && log <= more
    ensures Real(me, initial, more, s)
  {
    var n :| 0 <= n <= |log| && Fold(me, initial, log[..n]) == s;
    assert log[..n] == more[..n];
  }

  /** Every state the client shows on the way was one that the published events tell. */
  ghost predicate AllReal(me: SessionId, initial: Snapshot, log: seq<Event>, shown: seq<Event>) {
    forall k | 0 <= k <= |shown| :: Real(me, initial, log, Fold(me, initial, shown[..k]))
  }

  lemma AllRealStays(me: SessionId, initial: Snapshot, log: seq<Event>, more: seq<Event>, shown: seq<Event>)
    requires AllReal(me, initial, log, shown) && log <= more
    ensures AllReal(me, initial, more, shown)
  {
    forall k | 0 <= k <= |shown| ensures Real(me, initial, more, Fold(me, initial, shown[..k])) {
      RealStays(me, initial, log, more, Fold(me, initial, shown[..k]));
    }
  }

  lemma AllRealGrows(me: SessionId, initial: Snapshot, log: seq<Event>, shown: seq<Event>, e: Event)
    requires AllReal(me, initial, log, shown) && Real(me, initial, log, Fold(me, initial, shown + [e]))
    ensures AllReal(me, initial, log, shown + [e])
  {
    forall k | 0 <= k <= |shown + [e]| ensures Real(me, initial, log, Fold(me, initial, (shown + [e])[..k])) {
      if k <= |shown| {
        assert (shown + [e])[..k] == shown[..k];
      } else {
        assert (shown + [e])[..k] == shown + [e];
      }
    }
  }

  /**
   The forwarded events tell what the first `position` published events tell: they end with the
   session's own events since position `since`, and before that, unless nothing was lost yet, with the
   barrier at `since`.
   */
  ghost predicate CaughtUp(me: SessionId, log: seq<Event>, position: nat, shown: seq<Event>, since: nat, from: nat) {
    && since <= position <= |log| && from <= |shown|
    && shown[from..] == Own(me, log[since..position])
    && (since == 0 ==> from == 0)
    && (since > 0 ==>
      from > 0 && shown[from - 1] == log[since - 1] && log[since - 1].Resynced? && log[since - 1].session == me)
  }

  /** A barrier's state does not depend on anything before it. */
  lemma FoldAtBarrier(me: SessionId, initial: Snapshot, events: seq<Event>, n: nat)
    requires 0 < n <= |events| && events[n - 1].Resynced? && events[n - 1].session == me
    ensures Fold(me, initial, events) == Fold(me, events[n - 1].snapshot, events[n..])
  {
    assert events == events[..n] + events[n..] && events[..n][..n - 1] == events[..n - 1];
    FoldConcat(me, initial, events[..n], events[n..]);
  }

  /** Nothing is lost: who is caught up shows exactly what the published events tell. */
  lemma CaughtUpLosesNothing(
      me: SessionId, initial: Snapshot, log: seq<Event>, position: nat, shown: seq<Event>, since: nat,
      from: nat)
    requires CaughtUp(me, log, position, shown, since, from)
    ensures Fold(me, initial, shown) == Fold(me, initial, log[..position])
  {
    if since == 0 {
      assert shown[from..] == shown && log[since..position] == log[..position];
      FoldOfOwn(me, initial, log[..position]);
    } else {
      assert log[..position][since..] == log[since..position];
      FoldAtBarrier(me, initial, log[..position], since);
      FoldAtBarrier(me, initial, shown, from);
      FoldOfOwn(me, log[since - 1].snapshot, log[since..position]);
    }
  }

  /** What is shown once `e` was forwarded, which it is only if it is the session's own. */
  function Telling(me: SessionId, shown: seq<Event>, e: Event): seq<Event> {
    if e.session == me then shown + [e] else shown
  }

  lemma CaughtUpStep(me: SessionId, log: seq<Event>, position: nat, shown: seq<Event>, since: nat, from: nat)
    requires CaughtUp(me, log, position, shown, since, from) && position < |log|
    ensures CaughtUp(me, log, position + 1, Telling(me, shown, log[position]), since, from)
  {
    assert log[since..position + 1] == log[since..position] + [log[position]];
    FoldOne(me, Snapshot([], Ready, None), log[since..position], log[position]);
    assert (shown + [log[position]])[from..] == shown[from..] + [log[position]];
  }

  lemma CaughtUpStays(
      me: SessionId, log: seq<Event>, more: seq<Event>, position: nat, shown: seq<Event>, since: nat,
      from: nat)
    requires CaughtUp(me, log, position, shown, since, from) && log <= more
    ensures CaughtUp(me, more, position, shown, since, from)
  {
    assert log[since..position] == more[since..position];
  }

  /** What was published up to the position can be shown. */
  lemma EventToldIsReal(
      me: SessionId, initial: Snapshot, log: seq<Event>, position: nat, shown: seq<Event>, since: nat,
      from: nat)
    requires CaughtUp(me, log, position, shown, since, from) && position < |log|
    ensures CaughtUp(me, log, position + 1, Telling(me, shown, log[position]), since, from)
    ensures log[position].session == me ==> Real(me, initial, log, Fold(me, initial, shown + [log[position]]))
  {
    CaughtUpStep(me, log, position, shown, since, from);
    if log[position].session == me {
      CaughtUpLosesNothing(me, initial, log, position + 1, shown + [log[position]], since, from);
    }
  }

  /**
   A note that events were lost changes nothing; the barrier after it brings the client up to date, whatever
   it missed.
   */
  lemma BarrierToldIsReal(me: SessionId, initial: Snapshot, log: seq<Event>, position: nat, shown: seq<Event>)
    requires AllReal(me, initial, log, shown)
    requires 0 < position <= |log| && log[position - 1].Resynced? && log[position - 1].session == me
    ensures var noted := shown + [Failed(me, EventsLagged)];
      && Real(me, initial, log, Fold(me, initial, noted))
      && Real(me, initial, log, Fold(me, initial, noted + [log[position - 1]]))
      && CaughtUp(me, log, position, noted + [log[position - 1]], position, |shown| + 2)
  {
    var noted, event := shown + [Failed(me, EventsLagged)], log[position - 1];
    FoldOne(me, initial, shown, Failed(me, EventsLagged));
    assert shown[..|shown|] == shown;
    FoldOne(me, initial, noted, event);
    FoldOne(me, initial, log[..position - 1], event);
    assert log[..position] == log[..position - 1] + [event];
  }

  // ---- The task ----

  class EventTask {
    const capacity: nat
    ghost const initial: Snapshot
    var runtime: Runtime
    var position: nat
    var revision: nat
    var forwarded: seq<Envelope>
    ghost var shown: seq<Event>
    ghost var since: nat
    ghost var from: nat

    ghost predicate Valid()
      reads this
    {
      && capacity > 0
      && Tells(runtime, initial)
      && position <= |runtime.log|
      && Numbered(runtime.me, forwarded, shown, revision)
      && AllReal(runtime.me, initial, runtime.log, shown)
    }

    /** The runtime has gone on from `before`, and the task from `at`. */
    ghost predicate Later(before: Runtime, at: nat)
      reads this
    {
      runtime.me == before.me && before.log <= runtime.log && (runtime.live ==> before.live) && at <= position
    }

    /** The task has told everything up to its position. */
    ghost predicate AtHead()
      reads this
    {
      CaughtUp(runtime.me, runtime.log, position, shown, since, from)
    }

    /** Subscribing: what was published before is not part of the channel for this receiver. */
    constructor (capacity: nat, me: SessionId, snapshot: Snapshot)
      requires capacity > 0 && OpenListed(snapshot)
      ensures Valid() && AtHead() && forwarded == [] && runtime == Runtime(me, true, snapshot, [])
      ensures initial == snapshot
    {
      this.capacity := capacity;
      this.initial := snapshot;
      this.runtime := Runtime(me, true, snapshot, []);
      this.position, this.revision, this.forwarded := 0, 1, [];
      this.since, this.from, this.shown := 0, 0, [];
      new;
      assert runtime.log[..0] == [];
    }

    method Publish(operations: seq<Operation>)
      requires Valid()
      modifies this`runtime
      ensures Valid() && runtime == OperateAll(old(runtime), operations)
      ensures Later(old(runtime), position)
      ensures old(AtHead()) ==> AtHead()
    {
      PublishedTells(runtime, initial, operations);
      ghost var before := runtime;
      runtime := OperateAll(runtime, operations);
      AllRealStays(runtime.me, initial, before.log, runtime.log, shown);
      if CaughtUp(before.me, before.log, position, shown, since, from) {
        CaughtUpStays(before.me, before.log, runtime.log, position, shown, since, from);
      }
    }

    /** Receiving from the channel, which keeps the last `capacity` events. */
    method Poll(closed: bool) returns (polled: Polled)
      requires Valid()
      modifies this`position
      ensures Valid()
      ensures match polled
        case Lagged => |runtime.log| - old(position) > capacity && position == |runtime.log| - capacity
        case Got(event) => |runtime.log| - old(position) <= capacity && old(position) < |runtime.log|
          && event == runtime.log[old(position)] && position == old(position) + 1
        case Empty => !closed && old(position) == position == |runtime.log|
        case Closed => closed && old(position) == position == |runtime.log|
        case Cancelled => false
    {
      if |runtime.log| - position > capacity {
        position := |runtime.log| - capacity;
        return Lagged;
      }
      if position == |runtime.log| {
        return if closed then Closed else Empty;
      }
      polled := Got(runtime.log[position]);
      position := position + 1;
    }

    /**
     One turn of a loop: what the runtime does meanwhile, then the task's own cancellation if it `waits`,
     then the channel.
     */
    method Next(turn: Turn, waits: bool) returns (polled: Polled)
      requires Valid()
      modifies this`runtime, this`position
      ensures Valid() && Later(old(runtime), old(position))
      ensures old(AtHead()) ==> CaughtUp(runtime.me, runtime.log, old(position), shown, since, from)
      ensures polled.Cancelled? <==> waits && turn.cancelled
      ensures polled.Got? ==> position == old(position) + 1 && polled.event == runtime.log[old(position)]
      ensures polled.Empty? || polled.Closed? ==> old(position) == position == |runtime.log|
      ensures polled.Closed? ==> turn.closed
      ensures polled.Lagged? ==> |runtime.log| - old(position) > capacity
    {
      Publish(turn.operations);
      if waits && turn.cancelled {
        return Cancelled;
      }
      polled := Poll(turn.closed);
    }

    /** Forwards an event of this session, under the next revision. */
    method PublishedEvent(event: Event) returns (sent: bool)
      requires Valid()
      requires event.session == runtime.me ==>
        Real(runtime.me, initial, runtime.log, Fold(runtime.me, initial, shown + [event]))
      modifies this`revision, this`forwarded, this`shown
      ensures Valid()
      ensures sent == (event.session == runtime.me)
      ensures shown == if sent then old(shown) + [event] else old(shown)
      ensures forwarded == if sent then old(forwarded) + [Envelope(old(revision), event)] else old(forwarded)
      ensures revision == if sent then old(revision) + 1 else old(revision)
      ensures old(CaughtUp(runtime.me, runtime.log, position, Telling(runtime.me, shown, event), since, from)) ==>
        AtHead()
    {
      sent := event.session == runtime.me;
      if sent {
        AllRealGrows(runtime.me, initial, runtime.log, shown, event);
        forwarded := forwarded + [Envelope(revision, event)];
        shown := shown + [event];
        revision := revision + 1;
      }
    }

    /** Throws away what the channel still has. */
    method Discard(turns: seq<Turn>, start: nat) returns (ok: bool, next: nat)
      requires Valid() && start <= |turns|
      modifies this`runtime, this`position
      ensures Valid() && start <= next <= |turns|
      ensures Later(old(runtime), old(position))
      ensures ok ==> position == |runtime.log|
      ensures !ok ==> next == |turns| || (next > 0 && turns[next - 1].closed)
    {
      next := start;
      while next < |turns|
        invariant Valid() && start <= next <= |turns|
        invariant Later(old(runtime), old(position))
      {
        var polled := Next(turns[next], false);
        next := next + 1;
        if polled.Empty? {
          return true, next;
        }
        if polled.Closed? {
          return false, next;
        }
      }
      ok := false;
    }

    /** Asks the runtime for a barrier; refused when the generation is not the active one. */
    method PublishResyncBarrier(number: nat) returns (barrier: Option<BarrierId>)
      requires Valid()
      modifies this`runtime
      ensures Valid() && runtime.me == old(runtime.me) && runtime.live == old(runtime.live)
      ensures if old(runtime.live)
        then barrier == Some(BarrierId(runtime.me, number))
          && runtime.log == old(runtime.log) + [Resynced(runtime.me, barrier.value, old(runtime.snapshot))]
        else barrier == None && runtime.log == old(runtime.log)
    {
      barrier := if runtime.live then Some(BarrierId(runtime.me, number)) else None;
      Publish([Barrier(number)]);
      assert runtime == Operate(old(runtime), Barrier(number));
    }

    /** Tells the client that events were lost and what the state is at the barrier just received. */
    method ForwardBarrier(event: Event)
      requires Valid() && 0 < position && event == runtime.log[position - 1]
      requires event.Resynced? && event.session == runtime.me
      modifies this`revision, this`forwarded, this`shown, this`since, this`from
      ensures Valid() && AtHead()
      ensures forwarded == old(forwarded) + [Envelope(old(revision), Failed(runtime.me, EventsLagged))]
        + [Envelope(old(revision) + 1, event)]
    {
      BarrierToldIsReal(runtime.me, initial, runtime.log, position, shown);
      var _ := PublishedEvent(Failed(runtime.me, EventsLagged));
      since, from := position, |shown| + 1;
      var _ := PublishedEvent(event);
    }

    /** The barrier is still to come. */
    ghost predicate Ahead(barrier: BarrierId)
      reads this
    {
      exists i :: position <= i < |runtime.log| && runtime.log[i].Resynced? && runtime.log[i].barrier == barrier
    }

    /** The last turn closed the channel, or cancelled a task that `waits`. */
    predicate Ended(turns: seq<Turn>, next: nat, waits: bool) {
      0 < next <= |turns| && (turns[next - 1].closed || (waits && turns[next - 1].cancelled))
    }

    /** The only reasons for giving up a recovery: the generation is gone, or the channel or the task is at its end. */
    ghost predicate GivesUp(turns: seq<Turn>, next: nat, waits: bool)
      reads this
    {
      !runtime.live || Ended(turns, next, waits)
    }

    /** Throws away what is left and asks for a barrier; the runtime may go on between the two. */
    method RequestBarrier(turns: seq<Turn>, start: nat, numbers: seq<nat>)
      returns (barrier: Option<BarrierId>, next: nat)
      requires Valid() && start <= |turns| <= |numbers|
      modifies this`runtime, this`position
      ensures Valid() && start <= next <= |turns|
      ensures Later(old(runtime), old(position))
      ensures barrier.Some? ==> barrier.value.owner == runtime.me && Ahead(barrier.value)
      ensures barrier.None? ==> next == |turns| || GivesUp(turns, next, false)
    {
      var ok;
      ok, next := Discard(turns, start);
      if !ok || next == |turns| {
        return None, next;
      }
      Publish(turns[next].operations);
      next := next + 1;
      ghost var at := |runtime.log|;
      barrier := PublishResyncBarrier(numbers[next - 1]);
      assert barrier.Some? ==> runtime.log[at].Resynced? && runtime.log[at].barrier == barrier.value;
    }

    predicate IsBarrier(polled: Polled, barrier: BarrierId) {
      polled.Got? && polled.event.Resynced? && polled.event.barrier == barrier
    }

    /**
     One turn of waiting for a barrier that is still to come: it stays so until it is received or the
     channel drops events; neither the channel's end nor its closing can come before it.
     */
    method Await(turn: Turn, waits: bool, barrier: BarrierId) returns (polled: Polled)
      requires Valid() && barrier.owner == runtime.me && Ahead(barrier)
      modifies this`runtime, this`position
      ensures Valid() && Later(old(runtime), old(position))
      ensures polled.Cancelled? <==> waits && turn.cancelled
      ensures !polled.Empty? && !polled.Closed?
      ensures IsBarrier(polled, barrier) ==>
        0 < position && polled.event == runtime.log[position - 1] && polled.event.session == runtime.me
      ensures polled.Got? && !IsBarrier(polled, barrier) ==> Ahead(barrier)
    {
      polled := Next(turn, waits);
    }

    /**
     Waits for a barrier, asking for another one whenever the task falls behind. `waits` tells the
     forwarding task, which waits for the next event and can be cancelled, from the flush at start-up,
     which does neither.
     */
    method FindBarrier(turns: seq<Turn>, start: nat, numbers: seq<nat>, waits: bool) returns (found: bool, next: nat)
      requires Valid() && start <= |turns| <= |numbers|
      modifies this`runtime, this`position
      ensures Valid() && start <= next <= |turns|
      ensures Later(old(runtime), old(position))
      ensures !found ==> next == |turns| || GivesUp(turns, next, waits)
      ensures found ==>
        0 < position && runtime.log[position - 1].Resynced? && runtime.log[position - 1].session == runtime.me
    {
      var barrier;
      barrier, next := RequestBarrier(turns, start, numbers);
      while barrier.Some? && next < |turns|
        invariant Valid() && start <= next <= |turns| && Later(old(runtime), old(position))
        invariant barrier.Some? ==> barrier.value.owner == runtime.me && Ahead(barrier.value)
        invariant barrier.None? ==> next == |turns| || GivesUp(turns, next, waits)
      {
        var polled := Await(turns[next], waits, barrier.value);
        next := next + 1;
        if IsBarrier(polled, barrier.value) {
          return true, next;
        } else if polled.Lagged? {
          barrier, next := RequestBarrier(turns, next, numbers);
        } else if polled.Cancelled? || polled.Closed? || (polled.Empty? && !waits) {
          return false, next;
        }
      }
      found := false;
    }

    /** How the client's state stands: it tells what was published up to the position where the task last stood. */
    ghost predicate TellsUpTo(head: nat)
      reads this
    {
      && head <= position <= |runtime.log|
      && CaughtUp(runtime.me, runtime.log, head, shown, since, from)
    }

    /**
     Recovery: either the session is told that events were lost and brought up to a barrier, or nothing
     is forwarded and the task ends.
     */
    method Recover(turns: seq<Turn>, start: nat, numbers: seq<nat>, waits: bool) returns (ok: bool, next: nat)
      requires Valid() && start <= |turns| <= |numbers|
      modifies this
      ensures Valid() && start <= next <= |turns|
      ensures Later(old(runtime), old(position))
      ensures !ok ==> next == |turns| || GivesUp(turns, next, waits)
      ensures !ok ==> forwarded == old(forwarded) && shown == old(shown) && since == old(since) && from == old(from)
      ensures ok ==> AtHead() && 0 < position && runtime.log[position - 1].Resynced?
      ensures ok ==>
        forwarded == old(forwarded)
                     + [Envelope(old(revision), Failed(runtime.me, EventsLagged))]
                     + [Envelope(old(revision) + 1, runtime.log[position - 1])]
    {
      ok, next := FindBarrier(turns, start, numbers, waits);
      if ok {
        ForwardBarrier(runtime.log[position - 1]);
      }
    }

    /** Forwards the event just received, if it is this session's. */
    method Forward(event: Event)
      requires Valid() && 0 < position && event == runtime.log[position - 1]
      requires CaughtUp(runtime.me, runtime.log, position - 1, shown, since, from)
      modifies this`revision, this`forwarded, this`shown
      ensures Valid() && AtHead()
      ensures forwarded ==
        if event.session == runtime.me then old(forwarded) + [Envelope(old(revision), event)] else old(forwarded)
    {
      EventToldIsReal(runtime.me, initial, runtime.log, position - 1, shown, since, from);
      var _ := PublishedEvent(event);
    }

    /**
     One round of the receive loop. It ends the loop only if the channel is closed, the task is
     cancelled, or, after more was published than the channel keeps, recovery fails.
     */
    method Round(turns: seq<Turn>, start: nat, numbers: seq<nat>, waits: bool)
      returns (running: bool, next: nat, ghost head: nat, ghost lost: bool)
      requires Valid() && AtHead() && start < |turns| <= |numbers|
      modifies this
      ensures Valid() && start < next <= |turns|
      ensures Later(old(runtime), old(position)) && old(forwarded) <= forwarded
      ensures TellsUpTo(head) && (running ==> head == position)
      ensures lost ==> |runtime.log| - old(position) > capacity
      ensures !running ==> Ended(turns, next, waits) || (lost && (next == |turns| || !runtime.live))
    {
      head := position;
      var polled := Next(turns[start], waits);
      running, next, lost := true, start + 1, polled.Lagged?;
      if polled.Got? {
        Forward(polled.event);
        head := position;
      } else if polled.Lagged? {
        ghost var log := runtime.log;
        running, next := Recover(turns, next, numbers, waits);
        if running {
          head := position;
        } else {
          CaughtUpStays(runtime.me, log, runtime.log, head, shown, since, from);
        }
      } else {
        running := polled.Empty?;
      }
    }

    /**
     The receive loop, over any schedule (the flush at start-up is one that ends when the channel is
     empty): wherever it stops, the forwarded events tell exactly what was published up to some
     position, and up to its own position unless it gave up; so a client that has received everything
     shows the runtime's own snapshot. It goes on to the schedule's end unless the channel is closed,
     the task is cancelled, or a loss could not be recovered because the generation is gone.
     */
    method Receive(turns: seq<Turn>, numbers: seq<nat>, waits: bool)
      returns (running: bool, next: nat, ghost head: nat, ghost lost: bool)
      requires Valid() && AtHead() && |turns| <= |numbers|
      modifies this
      ensures Valid() && Later(old(runtime), old(position)) && old(forwarded) <= forwarded && next <= |turns|
      ensures AllReal(runtime.me, initial, runtime.log, shown)
      ensures TellsUpTo(head) && Fold(runtime.me, initial, shown) == Fold(runtime.me, initial, runtime.log[..head])
      ensures running ==> next == |turns| && head == position
      ensures running && position == |runtime.log| ==> Fold(runtime.me, initial, shown) == runtime.snapshot
      ensures !running ==> Ended(turns, next, waits) || (lost && (next == |turns| || !runtime.live))
      ensures lost ==> |runtime.log| - old(position) > capacity
    {
      next, running, lost := 0, true, false;
      head := position;
      while running && next < |turns|
        invariant next <= |turns| && Valid() && TellsUpTo(head) && (running ==> head == position)
        invariant Later(old(runtime), old(position)) && old(forwarded) <= forwarded
        invariant lost ==> |runtime.log| - old(position) > capacity
        invariant !running ==> Ended(turns, next, waits) || (lost && (next == |turns| || !runtime.live))
      {
        ghost var lostNow;
        running, next, head, lostNow := Round(turns, next, numbers, waits);
        lost := lost || lostNow;
      }
      CaughtUpLosesNothing(runtime.me, initial, runtime.log, head, shown, since, from);
      assert runtime.log[..|runtime.log|] == runtime.log;
    }
  }
}
