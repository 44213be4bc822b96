/**
 What the document runtime publishes about a session, and what its events mean: a session's state is
 the fold of its events, and a resynchronisation barrier carries the state of everything before it.
 */
module DocumentEvents {
  import opened Text

  type SessionId = nat
  type DocPath = nat

  /** Barrier ids are never drawn twice, by one session or by two. */
  datatype BarrierId = BarrierId(owner: SessionId, number: nat)

  datatype Summary = Summary(path: DocPath, id: Option<nat>)

  type Catalog = seq<Summary>

  datatype IndexStatus = Preparing(indexed: nat, total: nat) | Ready | Degraded(message: nat)

  datatype Snapshot = Snapshot(catalog: Catalog, status: IndexStatus, lastOpened: Option<DocPath>)

  datatype Failure = EventsLagged | OtherFailure(code: nat)

  datatype Event =
    | TreeChanged(session: SessionId, catalog: Catalog)
    | IndexStatusChanged(session: SessionId, status: IndexStatus)
    | OpenDocumentChanged(session: SessionId, path: DocPath)
    | Failed(session: SessionId, error: Failure)
    | Resynced(session: SessionId, barrier: BarrierId, snapshot: Snapshot)

  predicate Lists(catalog: Catalog, path: DocPath) {
    exists i :: 0 <= i < |catalog| && catalog[i].path == path
  }

  /** The document open last, as far as the catalogue still has it. */
  function StillOpen(catalog: Catalog, open: Option<DocPath>): Option<DocPath> {
    if open.Some? && Lists(catalog, open.value) then open else None
  }

  // ---- The meaning of events ----

  function Apply(me: SessionId, s: Snapshot, e: Event): Snapshot {
    if e.session != me then s
    else
      match e
      case TreeChanged(_, catalog) => s.(catalog := catalog, lastOpened := StillOpen(catalog, s.lastOpened))
      case IndexStatusChanged(_, status) => s.(status := status)
      case OpenDocumentChanged(_, path) => s.(lastOpened := Some(path))
      case Failed(_, _) => s
      case Resynced(_, _, snapshot) => snapshot
  }

  function Fold(me: SessionId, s: Snapshot, events: seq<Event>): Snapshot {
    if events == [] then s else Apply(me, Fold(me, s, events[..|events| - 1]), events[|events| - 1])
  }

  /** The session's own events, in order. */
  function Own(me: SessionId, events: seq<Event>): seq<Event> {
    if events == [] then []
    else
      var rest, last := Own(me, events[..|events| - 1]), events[|events| - 1];
      if last.session == me then rest + [last] else rest
  }

  lemma FoldOne(me: SessionId, s: Snapshot, events: seq<Event>, e: Event)
    ensures Fold(me, s, events + [e]) == Apply(me, Fold(me, s, events), e)
    ensures Own(me, events + [e]) == if e.session == me then Own(me, events) + [e] else Own(me, events)
  {
    assert (events + [e])[..|events|] == events;
  }

  lemma {:induction false} FoldConcat(me: SessionId, s: Snapshot, a: seq<Event>, b: seq<Event>)
    ensures Fold(me, s, a + b) == Fold(me, Fold(me, s, a), b)
    decreases |b|
  {
    if b == [] {
      assert a + b == a;
    } else {
      assert (a + b)[..|a + b| - 1] == a + b[..|b| - 1];
      FoldConcat(me, s, a, b[..|b| - 1]);
    }
  }

  /** Only a session's own events matter to its state. */
  lemma {:induction false} FoldOfOwn(me: SessionId, s: Snapshot, events: seq<Event>)
    ensures Fold(me, s, Own(me, events)) == Fold(me, s, events)
  {
    if events != [] {
      var rest, last := events[..|events| - 1], events[|events| - 1];
      FoldOfOwn(me, s, rest);
      if last.session == me {
        FoldOne(me, s, Own(me, rest), last);
      }
    }
  }

  // ---- The runtime ----

  /** The session's runtime: all it has published, its own snapshot, and whether its generation is the active one. */
  datatype Runtime = Runtime(me: SessionId, live: bool, snapshot: Snapshot, log: seq<Event>)

  datatype Operation =
    | Announce
    | Reconcile(catalog: Catalog, status: IndexStatus)
    | SetStatus(status: IndexStatus)
    | OpenDocument(path: DocPath)
    | Fail(code: nat)
    | Barrier(number: nat)
    | Foreign(event: Event)
    | Stop

  /** How often a document id occurs. */
  function Count(catalog: Catalog, id: nat): nat {
    if catalog == [] then 0 else (if catalog[0].id == Some(id) then 1 else 0) + Count(catalog[1..], id)
  }

  function FindPath(catalog: Catalog, path: DocPath): Option<Summary> {
    if catalog == [] then None else if catalog[0].path == path then Some(catalog[0]) else FindPath(catalog[1..], path)
  }

  function FindId(catalog: Catalog, id: nat): Option<Summary> {
    if catalog == [] then None else if catalog[0].id == Some(id) then Some(catalog[0]) else FindId(catalog[1..], id)
  }

  /** The new path of a document that left `path`: the one document with its id, if the id was and is unique. */
  function RenamedPath(before: Catalog, after: Catalog, path: DocPath): Option<DocPath> {
    var previous := FindPath(before, path);
    if previous.None? || previous.value.id.None? then None
    else
      var id := previous.value.id.value;
      if Count(before, id) != 1 || Count(after, id) != 1 then None
      else
        var found := FindId(after, id);
        if found.None? then None else Some(found.value.path)
  }

  lemma {:induction false} FoundIsListed(catalog: Catalog, id: nat)
    requires FindId(catalog, id).Some?
    ensures Lists(catalog, FindId(catalog, id).value.path)
  {
    if catalog[0].id != Some(id) {
      FoundIsListed(catalog[1..], id);
      var i :| 0 <= i < |catalog[1..]| && catalog[1..][i].path == FindId(catalog, id).value.path;
      assert catalog[i + 1].path == FindId(catalog, id).value.path;
    }
  }

  /** The document that stays open when the catalogue changes, and its new path if it moved. */
  function ReconcileOpen(s: Snapshot, catalog: Catalog): (Option<DocPath>, Option<DocPath>) {
    if s.lastOpened.None? then (None, None)
    else if Lists(catalog, s.lastOpened.value) then (s.lastOpened, None)
    else
      var renamed := RenamedPath(s.catalog, catalog, s.lastOpened.value);
      (renamed, renamed)
  }

  /** A status is published only when it changes. */
  function StatusEvents(me: SessionId, before: IndexStatus, after: IndexStatus): seq<Event> {
    if before == after then [] else [IndexStatusChanged(me, after)]
  }

  /** One operation under the runtime's lock: the snapshot changes and its events are sent together. */
  function Operate(r: Runtime, op: Operation): Runtime {
    if op.Foreign? then
      if op.event.session != r.me && OwnsItsBarrier(op.event) then r.(log := r.log + [op.event]) else r
    else if !r.live then r
    else
      match op
      case Announce =>
        r.(log := r.log + [TreeChanged(r.me, r.snapshot.catalog)] + [IndexStatusChanged(r.me, r.snapshot.status)])
      case Reconcile(catalog, status) =>
        var (open, migrated) := ReconcileOpen(r.snapshot, catalog);
        r.(snapshot := Snapshot(catalog, status, open),
           log := r.log + [TreeChanged(r.me, catalog)] + StatusEvents(r.me, r.snapshot.status, status)
                        + (if migrated.Some? then [OpenDocumentChanged(r.me, migrated.value)] else []))
      case SetStatus(status) =>
        r.(snapshot := r.snapshot.(status := status), log := r.log + StatusEvents(r.me, r.snapshot.status, status))
      case OpenDocument(path) =>
        if !Lists(r.snapshot.catalog, path) then r
        else r.(snapshot := r.snapshot.(lastOpened := Some(path)), log := r.log + [OpenDocumentChanged(r.me, path)])
      case Fail(code) => r.(log := r.log + [Failed(r.me, OtherFailure(code))])
      case Barrier(number) => r.(log := r.log + [Resynced(r.me, BarrierId(r.me, number), r.snapshot)])
      case Stop => r.(live := false)
      case Foreign(_) => r
  }

  predicate OwnsItsBarrier(e: Event) {
    e.Resynced? ==> e.barrier.owner == e.session
  }

  function OperateAll(r: Runtime, ops: seq<Operation>): Runtime
    decreases |ops|
  {
    if ops == [] then r else OperateAll(Operate(r, ops[0]), ops[1..])
  }

  predicate OpenListed(s: Snapshot) {
    s.lastOpened.Some? ==> Lists(s.catalog, s.lastOpened.value)
  }

  /** What was published tells the runtime's whole snapshot; and the open document is one of the catalogue. */
  ghost predicate Tells(r: Runtime, initial: Snapshot) {
    && Fold(r.me, initial, r.log) == r.snapshot
    && OpenListed(r.snapshot)
    && forall i | 0 <= i < |r.log| :: OwnsItsBarrier(r.log[i])
  }

  /** The open document is always one of the catalogue. */
  lemma OpenIsListed(r: Runtime, op: Operation)
    requires OpenListed(r.snapshot)
    ensures OpenListed(Operate(r, op).snapshot)
  {
    if op.Reconcile? && r.snapshot.lastOpened.Some? && !Lists(op.catalog, r.snapshot.lastOpened.value) {
      var previous := FindPath(r.snapshot.catalog, r.snapshot.lastOpened.value);
      if previous.Some? && previous.value.id.Some? && FindId(op.catalog, previous.value.id.value).Some? {
        FoundIsListed(op.catalog, previous.value.id.value);
      }
    }
  }

  lemma FoldTwo(me: SessionId, s: Snapshot, events: seq<Event>, more: seq<Event>)
    ensures more == [] ==> Fold(me, s, events + more) == Fold(me, s, events)
    ensures |more| == 1 ==> Fold(me, s, events + more) == Apply(me, Fold(me, s, events), more[0])
  {
    FoldConcat(me, s, events, more);
    if |more| == 1 {
      assert more == [] + more;
      FoldOne(me, Fold(me, s, events), [], more[0]);
    }
  }

  /** A catalogue change, with the silent closing of a document that is gone, is told by its events. */
  lemma ReconcileTells(r: Runtime, initial: Snapshot, catalog: Catalog, status: IndexStatus)
    requires Tells(r, initial) && r.live
    ensures var after := Operate(r, Reconcile(catalog, status)); Fold(r.me, initial, after.log) == after.snapshot
  {
    var (open, migrated) := ReconcileOpen(r.snapshot, catalog);
    var tree, statuses := r.log + [TreeChanged(r.me, catalog)], StatusEvents(r.me, r.snapshot.status, status);
    var opens := if migrated.Some? then [OpenDocumentChanged(r.me, migrated.value)] else [];
    FoldTwo(r.me, initial, r.log, [TreeChanged(r.me, catalog)]);
    FoldTwo(r.me, initial, tree, statuses);
    FoldTwo(r.me, initial, tree + statuses, opens);
  }

  lemma AnnounceTells(r: Runtime, initial: Snapshot)
    requires Tells(r, initial) && r.live
    ensures var after := Operate(r, Announce); Fold(r.me, initial, after.log) == after.snapshot
  {
    var tree := [TreeChanged(r.me, r.snapshot.catalog)];
    FoldTwo(r.me, initial, r.log, tree);
    FoldTwo(r.me, initial, r.log + tree, [IndexStatusChanged(r.me, r.snapshot.status)]);
  }

  /** The operations that send at most one event. */
  lemma SingleTells(r: Runtime, initial: Snapshot, op: Operation)
    requires Tells(r, initial) && r.live && !op.Announce? && !op.Reconcile? && !op.Foreign?
    ensures var after := Operate(r, op); Fold(r.me, initial, after.log) == after.snapshot
  {
    if op.SetStatus? {
      FoldTwo(r.me, initial, r.log, StatusEvents(r.me, r.snapshot.status, op.status));
    } else if op.OpenDocument? {
      FoldTwo(r.me, initial, r.log, [OpenDocumentChanged(r.me, op.path)]);
    } else if op.Fail? {
      FoldTwo(r.me, initial, r.log, [Failed(r.me, OtherFailure(op.code))]);
    } else if op.Barrier? {
      FoldTwo(r.me, initial, r.log, [Resynced(r.me, BarrierId(r.me, op.number), r.snapshot)]);
    }
  }

  lemma BarriersAreOwned(r: Runtime, op: Operation)
    requires forall i | 0 <= i < |r.log| :: OwnsItsBarrier(r.log[i])
    ensures var log := Operate(r, op).log; r.log <= log && forall i | 0 <= i < |log| :: OwnsItsBarrier(log[i])
  {
  }

  /** Whatever the runtime does, folding what it published gives its own snapshot. */
  lemma OperationTells(r: Runtime, initial: Snapshot, op: Operation)
    requires Tells(r, initial)
    ensures var after := Operate(r, op);
      after.me == r.me && r.log <= after.log && (after.live ==> r.live) && Tells(after, initial)
  {
    OpenIsListed(r, op);
    BarriersAreOwned(r, op);
    if op.Foreign? {
      FoldTwo(r.me, initial, r.log, [op.event]);
    } else if r.live {
      if op.Announce? {
        AnnounceTells(r, initial);
      } else if op.Reconcile? {
        ReconcileTells(r, initial, op.catalog, op.status);
      } else {
        SingleTells(r, initial, op);
      }
    }
  }

  lemma {:induction false} PublishedTells(r: Runtime, initial: Snapshot, ops: seq<Operation>)
    requires Tells(r, initial)
    ensures var after := OperateAll(r, ops);
      after.me == r.me && r.log <= after.log && (after.live ==> r.live) && Tells(after, initial)
    decreases |ops|
  {
    if ops != [] {
      OperationTells(r, initial, ops[0]);
      PublishedTells(Operate(r, ops[0]), initial, ops[1..]);
    }
  }

  // ---- Documents closed without an event ----

  /** The catalogue loses the open document, and there is no telling where it went. */
  predicate ClosesSilently(s: Snapshot, catalog: Catalog) {
    && s.lastOpened.Some?
    && !Lists(catalog, s.lastOpened.value)
    && RenamedPath(s.catalog, catalog, s.lastOpened.value).None?
  }

  /** The events that an operation sends. */
  function SentBy(r: Runtime, op: Operation): seq<Event>
    requires |r.log| <= |Operate(r, op).log|
  {
    Operate(r, op).log[|r.log|..]
  }

  /** What an event says when a tree event is taken to replace the catalogue and nothing else. */
  function ApplyPlainly(me: SessionId, s: Snapshot, e: Event): Snapshot {
    if e.session == me && e.TreeChanged? then s.(catalog := e.catalog) else Apply(me, s, e)
  }

  function FoldPlainly(me: SessionId, s: Snapshot, events: seq<Event>): Snapshot {
    if events == [] then s else ApplyPlainly(me, FoldPlainly(me, s, events[..|events| - 1]), events[|events| - 1])
  }

  lemma FoldPlainlyOne(me: SessionId, s: Snapshot, events: seq<Event>, more: seq<Event>)
    requires |more| <= 1
    ensures FoldPlainly(me, s, events + more) ==
      if more == [] then FoldPlainly(me, s, events) else ApplyPlainly(me, FoldPlainly(me, s, events), more[0])
  {
    if more == [] {
      assert events + more == events;
    } else {
      assert (events + more)[..|events|] == events;
    }
  }

  /** Closing a document silently is what it says: the runtime's snapshot has none open, and no event mentions it. */
  lemma SilentCloseSendsNoEvent(r: Runtime, catalog: Catalog, status: IndexStatus)
    requires r.live && ClosesSilently(r.snapshot, catalog)
    ensures var op := Reconcile(catalog, status);
      && Operate(r, op).snapshot.lastOpened.None?
      && r.log <= Operate(r, op).log
      && forall i | 0 <= i < |SentBy(r, op)| :: !SentBy(r, op)[i].OpenDocumentChanged? && !SentBy(r, op)[i].Resynced?
  {
  }

  /** It does happen: the only document, which is open and has no id, disappears. */
  lemma OpenDocumentDisappears()
    ensures ClosesSilently(Snapshot([Summary(1, None)], Ready, Some(1)), [])
    ensures SentBy(Runtime(0, true, Snapshot([Summary(1, None)], Ready, Some(1)), []), Reconcile([], Ready))
      == [TreeChanged(0, [])]
  {
  }

  /**
   Read plainly, the events of a catalogue change tell the new snapshot if and only if no document is closed
   silently.
   */
  lemma ReconcileToldPlainly(r: Runtime, catalog: Catalog, status: IndexStatus)
    requires r.live
    ensures var op := Reconcile(catalog, status);
      && r.log <= Operate(r, op).log
      && (FoldPlainly(r.me, r.snapshot, SentBy(r, op)) == Operate(r, op).snapshot
        <==> !ClosesSilently(r.snapshot, catalog))
  {
    var op := Reconcile(catalog, status);
    var (open, migrated) := ReconcileOpen(r.snapshot, catalog);
    var tree, statuses := [TreeChanged(r.me, catalog)], StatusEvents(r.me, r.snapshot.status, status);
    var opens := if migrated.Some? then [OpenDocumentChanged(r.me, migrated.value)] else [];
    assert SentBy(r, op) == tree + statuses + opens;
    FoldPlainlyOne(r.me, r.snapshot, [], tree);
    assert [] + tree == tree;
    FoldPlainlyOne(r.me, r.snapshot, tree, statuses);
    FoldPlainlyOne(r.me, r.snapshot, tree + statuses, opens);
  }

  lemma AnnounceToldPlainly(r: Runtime)
    requires r.live
    ensures r.log <= Operate(r, Announce).log
    ensures FoldPlainly(r.me, r.snapshot, SentBy(r, Announce)) == r.snapshot
  {
    var tree, status := [TreeChanged(r.me, r.snapshot.catalog)], [IndexStatusChanged(r.me, r.snapshot.status)];
    assert SentBy(r, Announce) == tree + status;
    FoldPlainlyOne(r.me, r.snapshot, [], tree);
    assert [] + tree == tree;
    FoldPlainlyOne(r.me, r.snapshot, tree, status);
  }

  /** The operations that send at most one event, and what that event says. */
  lemma SingleToldPlainly(r: Runtime, op: Operation)
    requires r.live ==> !op.Announce? && !op.Reconcile?
    ensures r.log <= Operate(r, op).log && |SentBy(r, op)| <= 1
    ensures (if SentBy(r, op) == [] then r.snapshot else ApplyPlainly(r.me, r.snapshot, SentBy(r, op)[0]))
      == Operate(r, op).snapshot
  {
  }

  /** The same for every operation: nothing but a silent close goes untold. */
  lemma OnlySilentClosesGoUntold(r: Runtime, op: Operation)
    ensures r.log <= Operate(r, op).log
    ensures FoldPlainly(r.me, r.snapshot, SentBy(r, op)) == Operate(r, op).snapshot
      <==> !(r.live && op.Reconcile? && ClosesSilently(r.snapshot, op.catalog))
  {
    if r.live && op.Reconcile? {
      ReconcileToldPlainly(r, op.catalog, op.status);
    } else if r.live && op.Announce? {
      AnnounceToldPlainly(r);
    } else {
      SingleToldPlainly(r, op);
      FoldPlainlyOne(r.me, r.snapshot, [], SentBy(r, op));
      assert [] + SentBy(r, op) == SentBy(r, op);
    }
  }

  // ---- Renamed documents ----


  /** Exactly one document has the id. */
  ghost predicate IsOnly(catalog: Catalog, id: nat) {
    exists i :: IsOnlyAt(catalog, id, i)
  }

  lemma {:induction false} CountIsZero(catalog: Catalog, id: nat)
    ensures Count(catalog, id) == 0 <==> forall i | 0 <= i < |catalog| :: catalog[i].id != Some(id)
  {
    if catalog != [] {
      CountIsZero(catalog[1..], id);
      forall i | 0 < i < |catalog| ensures catalog[i] == catalog[1..][i - 1] {
      }
    }
  }

  /** Only position `i` has the id. */
  predicate IsOnlyAt(catalog: Catalog, id: nat, i: int) {
    0 <= i < |catalog| && catalog[i].id == Some(id)
    && forall j | 0 <= j < |catalog| && j != i :: catalog[j].id != Some(id)
  }

  lemma OnlyNext(catalog: Catalog, id: nat, i: int)
    requires catalog != [] && catalog[0].id != Some(id)
    ensures IsOnlyAt(catalog[1..], id, i) <==> i >= 0 && IsOnlyAt(catalog, id, i + 1)
  {
    if IsOnlyAt(catalog[1..], id, i) {
      forall j | 0 <= j < |catalog| && j != i + 1 ensures catalog[j].id != Some(id) {
        assert j > 0 ==> catalog[j] == catalog[1..][j - 1];
      }
    }
    if i >= 0 && IsOnlyAt(catalog, id, i + 1) {
      forall j | 0 <= j < |catalog[1..]| && j != i ensures catalog[1..][j].id != Some(id) {
        assert catalog[j + 1].id != Some(id);
      }
    }
  }

  lemma {:induction false} CountIsOne(catalog: Catalog, id: nat)
    ensures Count(catalog, id) == 1 <==> exists i :: IsOnlyAt(catalog, id, i)
  {
    if catalog != [] {
      if catalog[0].id == Some(id) {
        CountIsZero(catalog[1..], id);
        forall j | 0 < j < |catalog| ensures catalog[j] == catalog[1..][j - 1] {
        }
        if Count(catalog[1..], id) == 0 {
          assert IsOnlyAt(catalog, id, 0);
        }
      } else {
        CountIsOne(catalog[1..], id);
        if i :| IsOnlyAt(catalog[1..], id, i) {
          OnlyNext(catalog, id, i);
        }
        if i :| IsOnlyAt(catalog, id, i) {
          OnlyNext(catalog, id, i - 1);
        }
      }
    }
  }

  lemma {:induction false} FoundByPath(catalog: Catalog, path: DocPath)
    ensures match FindPath(catalog, path)
      case None => forall i | 0 <= i < |catalog| :: catalog[i].path != path
      case Some(summary) => exists i :: 0 <= i < |catalog| && catalog[i] == summary && summary.path == path
                                        && forall j | 0 <= j < i :: catalog[j].path != path
  {
    if catalog != [] && catalog[0].path != path {
      FoundByPath(catalog[1..], path);
      forall i | 0 < i < |catalog| ensures catalog[i] == catalog[1..][i - 1] {
      }
      if FindPath(catalog, path).Some? {
        var summary := FindPath(catalog, path).value;
        var i :| 0 <= i < |catalog[1..]| && catalog[1..][i] == summary
                 && forall j | 0 <= j < i :: catalog[1..][j].path != path;
        assert catalog[i + 1] == summary;
      }
    }
  }

  lemma {:induction false} FoundById(catalog: Catalog, id: nat)
    ensures match FindId(catalog, id)
      case None => forall i | 0 <= i < |catalog| :: catalog[i].id != Some(id)
      case Some(summary) => summary.id == Some(id) && summary in catalog
  {
    if catalog != [] && catalog[0].id != Some(id) {
      FoundById(catalog[1..], id);
      forall i | 0 < i < |catalog| ensures catalog[i] == catalog[1..][i - 1] {
      }
    }
  }

  /** A document that left its path is found again at another exactly if its id was and is one document's only. */
  lemma RenamedByItsId(before: Catalog, after: Catalog, path: DocPath, moved: DocPath)
    ensures RenamedPath(before, after, path) == Some(moved)
      <==> exists summary, id :: FindPath(before, path) == Some(summary) && summary.id == Some(id)
             && IsOnly(before, id) && IsOnly(after, id) && Summary(moved, Some(id)) in after
  {
    var previous := FindPath(before, path);
    if previous.Some? && previous.value.id.Some? {
      var id := previous.value.id.value;
      CountIsOne(before, id);
      CountIsOne(after, id);
      FoundById(after, id);
      if IsOnly(before, id) && IsOnly(after, id) {
        var found := FindId(after, id).value;
        var i :| IsOnlyAt(after, id, i);
        forall other | other in after && other.id == Some(id) ensures other == after[i] {
        }
        assert found == Summary(found.path, Some(id));
      }
    }
  }

  /** The runtime's new snapshot: the given catalogue and status, and the open document where it now is, if anywhere. */
  lemma ReconcileFollowsTheDocument(r: Runtime, catalog: Catalog, status: IndexStatus)
    requires r.live
    ensures var s, n := r.snapshot, Operate(r, Reconcile(catalog, status)).snapshot;
      && n.catalog == catalog && n.status == status
      && (s.lastOpened.None? ==> n.lastOpened.None?)
      && (s.lastOpened.Some? && Lists(catalog, s.lastOpened.value) ==> n.lastOpened == s.lastOpened)
      && (s.lastOpened.Some? && !Lists(catalog, s.lastOpened.value) ==>
            n.lastOpened == RenamedPath(s.catalog, catalog, s.lastOpened.value))
  {
  }

  /** What the other operations do: to the snapshot, and what they send. */
  lemma OperationsDo(r: Runtime, op: Operation)
    requires !op.Reconcile?
    ensures r.log <= Operate(r, op).log && Operate(r, op).me == r.me
    ensures op.Foreign? ==>
      && Operate(r, op).snapshot == r.snapshot && Operate(r, op).live == r.live
      && SentBy(r, op) == (if op.event.session != r.me && OwnsItsBarrier(op.event) then [op.event] else [])
    ensures !op.Foreign? && !r.live ==> Operate(r, op) == r
    ensures r.live && op.SetStatus? ==>
      && Operate(r, op).snapshot == Snapshot(r.snapshot.catalog, op.status, r.snapshot.lastOpened)
      && (SentBy(r, op) == [] <==> op.status == r.snapshot.status)
    ensures r.live && op.OpenDocument? ==>
      if Lists(r.snapshot.catalog, op.path) then
        && Operate(r, op).snapshot == Snapshot(r.snapshot.catalog, r.snapshot.status, Some(op.path))
        && SentBy(r, op) == [OpenDocumentChanged(r.me, op.path)]
      else Operate(r, op) == r
    ensures r.live && op.Fail? ==>
      Operate(r, op).snapshot == r.snapshot && SentBy(r, op) == [Failed(r.me, OtherFailure(op.code))]
    ensures r.live && op.Barrier? ==>
      Operate(r, op).snapshot == r.snapshot && SentBy(r, op) == [Resynced(r.me, BarrierId(r.me, op.number), r.snapshot)]
    ensures !op.Foreign? ==> (Operate(r, op).live <==> r.live && !op.Stop?)
  {
  }
}
