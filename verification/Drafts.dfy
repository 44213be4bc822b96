/**
 Saving a draft document: compare-and-swap on the file's content hash, with a recovery journal, in a
 world where anyone may edit the files, any operation may fail and the program may stop anywhere.
 */
module Drafts {
  import opened Text

  datatype Path = Path(text: string)
  type DocId = nat
  type ChangeId = nat
  type Hash = nat

  /** The content hash; nothing but its being a function is used. */
  type Hashing = string -> Hash

  datatype Journal = Journal(path: Path, expected: Hash, markdown: string)

  datatype Record = Record(id: DocId, path: Path)

  /** One change on disk: the worktree's files, the journals, the registered documents, the active change. */
  datatype Disk = Disk(
    change: ChangeId,
    active: Option<ChangeId>,
    files: map<Path, string>,
    journals: map<DocId, Journal>,
    documents: seq<Record>,
    last: Option<DocId>)

  datatype Request = Request(change: ChangeId, id: DocId, path: Path, expected: Hash, markdown: string)

  /** What others did to the files meanwhile: anything. */
  type Edit = map<Path, string> -> map<Path, string>

  /** The operations of a save, in order. */
  datatype Point = WritingRecord | Reading | WritingJournal | Rechecking | Renaming | Syncing | RemovingJournal

  datatype Stop = Never | CrashBefore(point: Point) | FailAt(point: Point)

  /**
   Edits before the first read, the journal, the recheck and the journal's removal; and where the save stops
   short.
   */
  datatype World = World(beforeRead: Edit, beforeJournal: Edit, beforeRecheck: Edit, beforeRemoval: Edit, stop: Stop)

  datatype Outcome = Saved | Conflict(disk: string) | Failed | Rejected | Crashed

  /** A save's disk and outcome, whether its journal was written, and the content it replaced. */
  datatype Run = Run(disk: Disk, outcome: Outcome, journaled: bool, replaced: Option<string>)

  function Edited(d: Disk, e: Edit): Disk {
    d.(files := e(d.files))
  }

  predicate IsRegistered(d: Disk, id: DocId, path: Path) {
    Record(id, path) in d.documents
  }

  function JournalOf(r: Request): Journal {
    Journal(r.path, r.expected, r.markdown)
  }

  predicate StopsAt(w: World, p: Point) {
    w.stop == CrashBefore(p) || w.stop == FailAt(p)
  }

  /** How a save that stops short at `p` ends. */
  function Stopped(w: World): Outcome {
    if w.stop.CrashBefore? then Crashed else Failed
  }

  function Save(hash: Hashing, d: Disk, r: Request, w: World): Run {
    if d.active != Some(r.change) || r.change != d.change || !IsRegistered(d, r.id, r.path) then
      Run(d, Rejected, false, None)
    else if StopsAt(w, WritingRecord) then Run(d, Stopped(w), false, None)
    else
      var d1 := Edited(d.(last := Some(r.id)), w.beforeRead);
      if StopsAt(w, Reading) then Run(d1, Stopped(w), false, None)
      else if r.path !in d1.files then Run(d1, Failed, false, None)
      else
        var d2 := Edited(d1, w.beforeJournal);
        if StopsAt(w, WritingJournal) then Run(d2, Stopped(w), false, None)
        else
          var d3 := d2.(journals := d2.journals[r.id := JournalOf(r)]);
          if hash(d1.files[r.path]) != r.expected then Run(d3, Conflict(d1.files[r.path]), true, None)
          else Replace(hash, d3, r, w)
  }

  /** From the written journal on: recheck, rename, sync, and only then remove the journal. */
  function Replace(hash: Hashing, d: Disk, r: Request, w: World): Run {
    var d4 := Edited(d, w.beforeRecheck);
    if StopsAt(w, Rechecking) then Run(d4, Stopped(w), true, None)
    else if r.path !in d4.files then Run(d4, Failed, true, None)
    else if hash(d4.files[r.path]) != r.expected then Run(d4, Conflict(d4.files[r.path]), true, None)
    else if StopsAt(w, Renaming) then Run(d4, Stopped(w), true, None)
    else
      var d5 := Edited(d4.(files := d4.files[r.path := r.markdown]), w.beforeRemoval);
      var replaced := Some(d4.files[r.path]);
      if StopsAt(w, Syncing) || StopsAt(w, RemovingJournal) then Run(d5, Stopped(w), true, replaced)
      else Run(d5.(journals := d5.journals - {r.id}), Saved, true, replaced)
  }

  // ---- The store object ----

  class DraftStore {
    var disk: Disk

    constructor (disk: Disk)
      ensures this.disk == disk
    {
      this.disk := disk;
    }

    /** Others edit files while the save is between two operations. */
    method Interfere(e: Edit)
      modifies this
      ensures disk == Edited(old(disk), e)
    {
      disk := Edited(disk, e);
    }

    method SaveDocument(hash: Hashing, r: Request, w: World)
      returns (outcome: Outcome, ghost journaled: bool, ghost replaced: Option<string>)
      modifies this
      ensures Run(disk, outcome, journaled, replaced) == Save(hash, old(disk), r, w)
    {
      journaled, replaced := false, None;
      if disk.active != Some(r.change) || r.change != disk.change || !IsRegistered(disk, r.id, r.path) {
        return Rejected, journaled, replaced;
      }
      if StopsAt(w, WritingRecord) {
        return Stopped(w), journaled, replaced;
      }
      disk := disk.(last := Some(r.id));
      Interfere(w.beforeRead);
      if StopsAt(w, Reading) {
        return Stopped(w), journaled, replaced;
      }
      if r.path !in disk.files {
        return Failed, journaled, replaced;
      }
      var seen := disk.files[r.path];
      Interfere(w.beforeJournal);
      if StopsAt(w, WritingJournal) {
        return Stopped(w), journaled, replaced;
      }
      disk := disk.(journals := disk.journals[r.id := JournalOf(r)]);
      journaled := true;
      if hash(seen) != r.expected {
        return Conflict(seen), journaled, replaced;
      }
      Interfere(w.beforeRecheck);
      if StopsAt(w, Rechecking) {
        return Stopped(w), journaled, replaced;
      }
      if r.path !in disk.files {
        return Failed, journaled, replaced;
      }
      if hash(disk.files[r.path]) != r.expected {
        return Conflict(disk.files[r.path]), journaled, replaced;
      }
      if StopsAt(w, Renaming) {
        return Stopped(w), journaled, replaced;
      }
      replaced := Some(disk.files[r.path]);
      disk := disk.(files := disk.files[r.path := r.markdown]);
      Interfere(w.beforeRemoval);
      if StopsAt(w, Syncing) || StopsAt(w, RemovingJournal) {
        return Stopped(w), journaled, replaced;
      }
      disk := disk.(journals := disk.journals - {r.id});
      return Saved, journaled, replaced;
    }
  }

  // ---- One save ----

  /** The files a save finds when it is about to rename. */
  function FoundAtRename(d: Disk, w: World): map<Path, string> {
    w.beforeRecheck(w.beforeJournal(w.beforeRead(d.files)))
  }

  /**
   No update is lost. The file is replaced only over content with the hash the caller expected, and
   then nothing but that file changes; Saved means it was replaced; and a save that did not replace it
   leaves the files to the others.
   */
  lemma ReplacesAreCompareAndSwap(hash: Hashing, d: Disk, r: Request, w: World)
    ensures var run := Save(hash, d, r, w);
      && (run.outcome == Saved ==> run.replaced.Some?)
      && (run.replaced.Some? ==>
            var found := FoundAtRename(d, w);
            && r.path in found && run.replaced == Some(found[r.path])
            && hash(found[r.path]) == r.expected
            && run.disk.files == w.beforeRemoval(found[r.path := r.markdown]))
      && (run.replaced.None? ==>
            var read := w.beforeRead(d.files);
            run.disk.files in {d.files, read, w.beforeJournal(read), FoundAtRename(d, w)})
  {
  }

  /** A conflict shows content that was really there and does not have the expected hash. */
  lemma ConflictsAreReal(hash: Hashing, d: Disk, r: Request, w: World)
    requires Save(hash, d, r, w).outcome.Conflict?
    ensures var run := Save(hash, d, r, w);
      && run.journaled && run.replaced.None?
      && hash(run.outcome.disk) != r.expected
      && ((r.path in w.beforeRead(d.files) && run.outcome.disk == w.beforeRead(d.files)[r.path])
          || (r.path in FoundAtRename(d, w) && run.outcome.disk == FoundAtRename(d, w)[r.path]))
  {
  }

  /** The journals after a save: untouched unless it wrote one, and gone again only if it ended in Saved. */
  lemma JournalIfWritten(hash: Hashing, d: Disk, r: Request, w: World)
    ensures var run := Save(hash, d, r, w);
      && (!run.journaled ==> run.disk.journals == d.journals && run.outcome != Saved)
      && (run.journaled ==> IsRegistered(d, r.id, r.path))
      && (run.journaled ==> run.disk.journals == if run.outcome == Saved then d.journals - {r.id}
                                                  else d.journals[r.id := JournalOf(r)])
  {
    assert d.journals[r.id := JournalOf(r)] - {r.id} == d.journals - {r.id};
  }

  /** A save registers nothing and does not change the active draft. */
  lemma SaveKeepsRegistrations(hash: Hashing, d: Disk, r: Request, w: World)
    ensures var after := Save(hash, d, r, w).disk;
      after.documents == d.documents && after.active == d.active && after.change == d.change
  {
  }

  /**
   Once the journal is written, the caller's text is in the journal wherever the save stops, or it was put in
   the file.
   */
  lemma HubTextSurvives(hash: Hashing, d: Disk, r: Request, w: World)
    requires Save(hash, d, r, w).journaled
    ensures var run := Save(hash, d, r, w);
      if run.outcome == Saved then run.disk.files == w.beforeRemoval(FoundAtRename(d, w)[r.path := r.markdown])
      else r.id in run.disk.journals && run.disk.journals[r.id] == Journal(r.path, r.expected, r.markdown)
  {
    JournalIfWritten(hash, d, r, w);
    ReplacesAreCompareAndSwap(hash, d, r, w);
  }

  /** Nobody edits the files. */
  const Alone: Edit := files => files

  const Undisturbed := World(Alone, Alone, Alone, Alone, Never)

  /** A save that nobody disturbs and nothing stops succeeds exactly when the file has the expected hash. */
  lemma UndisturbedSave(hash: Hashing, d: Disk, r: Request)
    requires d.active == Some(r.change) && r.change == d.change && IsRegistered(d, r.id, r.path) && r.path in d.files
    ensures var run := Save(hash, d, r, Undisturbed);
      && run.outcome == (if hash(d.files[r.path]) == r.expected then Saved else Conflict(d.files[r.path]))
      && run.disk.files == (if hash(d.files[r.path]) == r.expected then d.files[r.path := r.markdown] else d.files)
  {
  }

  /** The save is let in: the draft is the active one and the document is registered in it. */
  predicate IsAdmitted(d: Disk, r: Request) {
    d.active == Some(r.change) && r.change == d.change && IsRegistered(d, r.id, r.path)
  }

  /** The file is there with the expected hash. */
  predicate IsExpected(hash: Hashing, files: map<Path, string>, r: Request) {
    r.path in files && hash(files[r.path]) == r.expected
  }

  /**
   A save is rejected exactly if it is not let in, and it succeeds exactly if the file is as expected both
   times and nothing stops it.
   */
  lemma SavedExactly(hash: Hashing, d: Disk, r: Request, w: World)
    ensures var run, read, found := Save(hash, d, r, w), w.beforeRead(d.files), FoundAtRename(d, w);
      && (run.outcome == Rejected <==> !IsAdmitted(d, r))
      && (run.outcome == Rejected ==> run.disk == d)
      && (run.outcome == Saved <==>
            IsAdmitted(d, r) && w.stop == Never && IsExpected(hash, read, r) && IsExpected(hash, found, r))
  {
    assert w.stop != Never ==>
      || StopsAt(w, WritingRecord) || StopsAt(w, Reading) || StopsAt(w, WritingJournal) || StopsAt(w, Rechecking)
      || StopsAt(w, Renaming) || StopsAt(w, Syncing) || StopsAt(w, RemovingJournal) by {
      if w.stop != Never {
        var p := w.stop.point;
        match p {
          case WritingRecord =>
          case Reading =>
          case WritingJournal =>
          case Rechecking =>
          case Renaming =>
          case Syncing =>
          case RemovingJournal =>
        }
      }
    }
  }

  /** It ends in a conflict exactly if it comes as far as the content that is not expected, and shows that content. */
  lemma ConflictExactly(hash: Hashing, d: Disk, r: Request, w: World, content: string)
    ensures var run, read, found := Save(hash, d, r, w), w.beforeRead(d.files), FoundAtRename(d, w);
      var journals := IsAdmitted(d, r) && r.path in read
                      && !StopsAt(w, WritingRecord) && !StopsAt(w, Reading) && !StopsAt(w, WritingJournal);
      run.outcome == Conflict(content) <==>
        && journals
        && (if hash(read[r.path]) != r.expected then content == read[r.path]
            else (!StopsAt(w, Rechecking) && r.path in found && hash(found[r.path]) != r.expected
                  && content == found[r.path]))
  {
  }

  /** It fails only if an operation fails or the file is gone, and crashes only if the program stops. */
  lemma FailuresHaveReasons(hash: Hashing, d: Disk, r: Request, w: World)
    ensures var run := Save(hash, d, r, w);
      && (run.outcome == Failed ==>
            w.stop.FailAt? || r.path !in w.beforeRead(d.files) || r.path !in FoundAtRename(d, w))
      && (run.outcome == Crashed ==> w.stop.CrashBefore?)
  {
  }

  /** Once its record is written, the document is the one opened last; and nothing else registers or opens one. */
  lemma SavedIsLastOpened(hash: Hashing, d: Disk, r: Request, w: World)
    ensures Save(hash, d, r, w).disk.last ==
      if IsAdmitted(d, r) && !StopsAt(w, WritingRecord) then Some(r.id) else d.last
  {
  }

  // ---- Any sequence of operations ----

  /** Taking an existing file into the draft: `identified` is its text with the document's identity put in. */
  datatype Addition = Addition(
    change: ChangeId,
    record: Record,
    identified: string -> string,
    beforeRecheck: Edit,
    replaceFails: bool,
    syncFails: bool,
    rolledBack: bool)

  /**
   The file is registered first; if putting the identity in fails, the registration is taken back,
   unless that fails or the program stops.
   */
  function AddExisting(hash: Hashing, d: Disk, a: Addition): Disk {
    var path := a.record.path;
    if d.active != Some(a.change) || a.change != d.change || path !in d.files then d
    else if exists i :: 0 <= i < |d.documents| && d.documents[i].path == path then d
    else
      var seen := d.files[path];
      var d1 := d.(documents := d.documents + [a.record], last := Some(a.record.id));
      if a.identified(seen) == seen then d1
      else
        var d2 := Edited(d1, a.beforeRecheck);
        if a.replaceFails || path !in d2.files || hash(d2.files[path]) != hash(seen) then TakeBack(d2, d, a.rolledBack)
        else
          var d3 := d2.(files := d2.files[path := a.identified(seen)]);
          if a.syncFails then TakeBack(d3, d, a.rolledBack) else d3
  }

  function TakeBack(now: Disk, before: Disk, rolledBack: bool): Disk {
    if rolledBack then now.(documents := before.documents, last := before.last) else now
  }

  /** How creating a file ends: it may fail before the file is there, or leave a part of it. */
  datatype Creation = NotCreated | PartlyWritten(content: string) | Written

  /** The files that keep otherwise empty folders. */
  predicate IsFolderMarker(path: Path) {
    var name := ".gitkeep";
    path.text == name || (|path.text| > |name| && path.text[|path.text| - |name| - 1..] == "/" + name)
  }

  /**
   Writing a new file for a document that was just registered; a file that is already there is never
   overwritten. Once it is written, folder markers around it (some of `markers`) are removed.
   */
  function AddNew(
      d: Disk, record: Record, text: string, creation: Creation, markers: set<Path>, rolledBack: bool): Disk {
    var d1 := d.(documents := d.documents + [record], last := Some(record.id));
    if creation.NotCreated? || record.path in d.files then TakeBack(d1, d, rolledBack)
    else if creation.PartlyWritten? then TakeBack(d1.(files := d.files[record.path := creation.content]), d, rolledBack)
    else d1.(files := d.files[record.path := text] - set m | m in markers && IsFolderMarker(m))
  }

  datatype Operation =
    | Saving(request: Request, world: World)
    | AddingNew(record: Record, text: string, creation: Creation, markers: set<Path>, rolledBack: bool)
    | AddingExisting(addition: Addition)
    | Editing(edit: Edit)
    | Activating(active: Option<ChangeId>)

  function Perform(hash: Hashing, d: Disk, op: Operation): Disk {
    match op
    case Saving(r, w) => Save(hash, d, r, w).disk
    case AddingNew(record, text, creation, markers, rolledBack) =>
      AddNew(d, record, text, creation, markers, rolledBack)
    case AddingExisting(a) => AddExisting(hash, d, a)
    case Editing(e) => Edited(d, e)
    case Activating(active) => d.(active := active)
  }

  /**
   A new document's file appears only where none was, and no other file changes, apart from folder
   markers that go. What appears is the whole text of a registered document, or a part that a failed
   write left behind.
   */
  lemma AddingNeverOverwrites(
      d: Disk, record: Record, text: string, creation: Creation, markers: set<Path>, rolledBack: bool)
    requires !IsFolderMarker(record.path)
    ensures var after := AddNew(d, record, text, creation, markers, rolledBack);
      && (forall p | p in after.files && p != record.path :: p in d.files && after.files[p] == d.files[p])
      && (forall p | p in d.files && p !in after.files :: IsFolderMarker(p) && creation.Written?)
      && (record.path in d.files ==> record.path in after.files && after.files[record.path] == d.files[record.path])
      && (record.path in after.files && record.path !in d.files ==>
            || (creation.Written? && record in after.documents && after.files[record.path] == text)
            || creation == PartlyWritten(after.files[record.path]))
      && (after.documents == d.documents || after.documents == d.documents + [record])
      && after.journals == d.journals
  {
  }

  /**
   Taking an existing file into the draft leaves the files as others leave them, or changes that one
   file only, and only if it still has the content that was read: to that content with the identity.
   */
  lemma AddingKeepsContent(hash: Hashing, d: Disk, a: Addition)
    requires forall s, t :: hash(s) == hash(t) ==> s == t
    ensures var after, path, found := AddExisting(hash, d, a), a.record.path, a.beforeRecheck(d.files);
      && (|| after.files == d.files
          || after.files == found
          || (path in d.files && path in found && found[path] == d.files[path]
              && after.files == found[path := a.identified(found[path])]))
      && (after.documents == d.documents || after.documents == d.documents + [a.record])
      && after.journals == d.journals
  {
  }

  /**
   Taking a file into the draft registers it, unless it is registered or not there; a failure takes that back
   if it can.
   */
  lemma AddingRegisters(hash: Hashing, d: Disk, a: Addition)
    requires d.active == Some(a.change) && a.change == d.change && a.record.path in d.files
    requires forall i | 0 <= i < |d.documents| :: d.documents[i].path != a.record.path
    ensures var after, found, seen := AddExisting(hash, d, a), a.beforeRecheck(d.files), d.files[a.record.path];
      var replaced := a.identified(seen) == seen
                      || (!a.replaceFails && !a.syncFails
                          && a.record.path in found && hash(found[a.record.path]) == hash(seen));
      && (if replaced || !a.rolledBack
          then after.documents == d.documents + [a.record] && after.last == Some(a.record.id)
          else after.documents == d.documents && after.last == d.last)
      && (replaced && a.identified(seen) != seen ==> after.files == found[a.record.path := a.identified(seen)])
      && (a.identified(seen) == seen ==> after.files == d.files)
  {
  }

  /** A file is not added for a change that is not the active one, nor if it is not there or is registered already. */
  lemma AddingIsRefused(hash: Hashing, d: Disk, a: Addition)
    requires d.active != Some(a.change) || a.change != d.change || a.record.path !in d.files
             || exists i :: 0 <= i < |d.documents| && d.documents[i].path == a.record.path
    ensures AddExisting(hash, d, a) == d
  {
  }

  /** The folder markers are the files of this name, in any folder. */
  lemma MarkersByName(path: Path)
    ensures IsFolderMarker(path) <==> path.text == ".gitkeep" || exists folder :: path.text == folder + "/.gitkeep"
  {
    assert "/" + ".gitkeep" == "/.gitkeep";
    if IsFolderMarker(path) && path.text != ".gitkeep" {
      assert path.text == path.text[..|path.text| - 9] + "/.gitkeep";
    }
    if folder :| path.text == folder + "/.gitkeep" {
      assert |path.text| - 9 == |folder| && path.text[|folder|..] == "/.gitkeep";
    }
  }

  /** A new document stays registered if its file was written, and otherwise unless that can be taken back. */
  lemma AddingNewRegisters(
      d: Disk, record: Record, text: string, creation: Creation, markers: set<Path>, rolledBack: bool)
    ensures var after := AddNew(d, record, text, creation, markers, rolledBack);
      if (creation.Written? && record.path !in d.files) || !rolledBack then
        after.documents == d.documents + [record] && after.last == Some(record.id)
      else after.documents == d.documents && after.last == d.last
    ensures creation.Written? && record.path !in d.files && !IsFolderMarker(record.path) ==>
      Holds(AddNew(d, record, text, creation, markers, rolledBack), record.path, text)
    ensures creation.PartlyWritten? && record.path !in d.files ==>
      Holds(AddNew(d, record, text, creation, markers, rolledBack), record.path, creation.content)
  {
  }

  function PerformAll(hash: Hashing, d: Disk, ops: seq<Operation>): Disk {
    if ops == [] then d
    else Perform(hash, PerformAll(hash, d, ops[..|ops| - 1]), ops[|ops| - 1])
  }

  /** The journal of the last save of `id` that wrote one, unless that save ended in Saved. */
  function Unsaved(hash: Hashing, d: Disk, ops: seq<Operation>, id: DocId): Option<Journal> {
    if ops == [] then None
    else
      var before, op := ops[..|ops| - 1], ops[|ops| - 1];
      if op.Saving? && op.request.id == id then
        var run := Save(hash, PerformAll(hash, d, before), op.request, op.world);
        if !run.journaled then Unsaved(hash, d, before, id)
        else if run.outcome == Saved then None
        else Some(JournalOf(op.request))
      else Unsaved(hash, d, before, id)
  }

  /**
   After any sequence of saves, crashes, failures, edits and additions, a document has a journal
   exactly when the last save that wrote one did not end in Saved; it holds that save's text, and it
   names a registered document.
   */
  lemma {:induction false} JournalsAreTheUnsaved(hash: Hashing, d: Disk, ops: seq<Operation>, id: DocId)
    requires d.journals == map[]
    ensures var after := PerformAll(hash, d, ops);
      && Unsaved(hash, d, ops, id) == (if id in after.journals then Some(after.journals[id]) else None)
      && (id in after.journals ==> IsRegistered(after, id, after.journals[id].path))
  {
    if ops != [] {
      var before, op := ops[..|ops| - 1], ops[|ops| - 1];
      JournalsAreTheUnsaved(hash, d, before, id);
      var mid := PerformAll(hash, d, before);
      if op.Saving? {
        SaveKeepsRegistrations(hash, mid, op.request, op.world);
        JournalIfWritten(hash, mid, op.request, op.world);
      }
    }
  }

  // ---- Recovery ----

  datatype Recovery =
    | Recovered(id: DocId, path: Path, markdown: string, diskHash: Hash, conflict: bool, unsaved: bool)
    | NothingOpen
    | CannotRecover

  /** The text of journal `j`, offered with the file's own hash; a conflict if the file moved on. */
  function Offer(hash: Hashing, d: Disk, id: DocId, j: Journal): Recovery
    requires j.path in d.files
  {
    var diskHash := hash(d.files[j.path]);
    Recovered(id, j.path, j.markdown, diskHash, diskHash != j.expected, true)
  }

  /** Recovering from the journal of `id`. */
  function RecoverJournal(hash: Hashing, d: Disk, id: DocId): Recovery
    requires id in d.journals
  {
    var j := d.journals[id];
    if !IsRegistered(d, id, j.path) || j.path !in d.files then CannotRecover else Offer(hash, d, id, j)
  }

  function FirstRecord(documents: seq<Record>, id: DocId): Option<Record> {
    if documents == [] then None
    else if documents[0].id == id then Some(documents[0])
    else FirstRecord(documents[1..], id)
  }

  /** Recovering the active draft: the first journal if there is one, or else the document opened last. */
  ghost function ActiveRecovery(hash: Hashing, d: Disk): Recovery {
    if d.active != Some(d.change) then NothingOpen
    else if d.journals != map[] then RecoverJournal(hash, d, Least(d.journals.Keys))
    else if d.last.None? then NothingOpen
    else
      var record := FirstRecord(d.documents, d.last.value);
      if record.None? || record.value.path !in d.files then CannotRecover
      else
        var text := d.files[record.value.path];
        Recovered(d.last.value, record.value.path, text, hash(text), false, false)
  }

  ghost function Least(ids: set<nat>): (id: nat)
    requires ids != {}
    ensures id in ids && forall other | other in ids :: id <= other
  {
    LeastExists(ids);
    var id :| id in ids && forall other | other in ids :: id <= other;
    id
  }

  lemma {:induction false} LeastOf(ids: set<nat>) returns (least: nat)
    requires ids != {}
    ensures least in ids && forall other | other in ids :: least <= other
    decreases ids
  {
    var id :| id in ids;
    var rest := ids - {id};
    if rest == {} {
      least := id;
    } else {
      var first := LeastOf(rest);
      least := if id < first then id else first;
    }
    forall other | other in ids ensures least <= other {
      assert other == id || other in rest;
    }
  }

  lemma LeastExists(ids: set<nat>)
    requires ids != {}
    ensures exists id :: id in ids && forall other | other in ids :: id <= other
  {
    var least := LeastOf(ids);
  }

  /** `id` is the first document whose last journalled save did not finish. */
  ghost predicate IsFirstUnsaved(hash: Hashing, d: Disk, ops: seq<Operation>, id: DocId) {
    Unsaved(hash, d, ops, id).Some? && forall other: DocId | other < id :: Unsaved(hash, d, ops, other).None?
  }

  lemma LeastIs(ids: set<nat>, id: nat)
    requires id in ids && forall other | other in ids :: id <= other
    ensures Least(ids) == id
  {
  }

  /**
   Whatever happened before, recovering the active draft offers exactly the text of the first document
   whose last save did not finish, and fails only if its file is gone; and if every save finished it
   offers nothing unsaved.
   */
  lemma RecoveryOffersTheUnsaved(hash: Hashing, d: Disk, ops: seq<Operation>, id: DocId)
    requires d.journals == map[] && PerformAll(hash, d, ops).active == Some(PerformAll(hash, d, ops).change)
    ensures var after := PerformAll(hash, d, ops);
      IsFirstUnsaved(hash, d, ops, id) ==>
        var unsaved := Unsaved(hash, d, ops, id).value;
        ActiveRecovery(hash, after) ==
        if unsaved.path !in after.files then CannotRecover
        else
          var diskHash := hash(after.files[unsaved.path]);
          Recovered(id, unsaved.path, unsaved.markdown, diskHash, diskHash != unsaved.expected, true)
    ensures (forall other: DocId :: Unsaved(hash, d, ops, other).None?) ==>
        var recovery := ActiveRecovery(hash, PerformAll(hash, d, ops));
        recovery.Recovered? ==> !recovery.unsaved && !recovery.conflict
  {
    var after := PerformAll(hash, d, ops);
    forall other: DocId
      ensures other in after.journals <==> Unsaved(hash, d, ops, other).Some?
      ensures other in after.journals ==> Unsaved(hash, d, ops, other).value == after.journals[other]
    {
      JournalsAreTheUnsaved(hash, d, ops, other);
    }
    if IsFirstUnsaved(hash, d, ops, id) {
      JournalsAreTheUnsaved(hash, d, ops, id);
      LeastIs(after.journals.Keys, id);
    }
  }

  function SaveOffer(hash: Hashing, d: Disk, offer: Recovery): Disk
    requires offer.Recovered?
  {
    Save(hash, d, Request(d.change, offer.id, offer.path, offer.diskHash, offer.markdown), Undisturbed).disk
  }

  /** Saving a recovered text with the hash it was offered with puts it in the file and settles that document alone. */
  lemma SavingTheOfferSettles(hash: Hashing, d: Disk, id: DocId)
    requires d.active == Some(d.change) && id in d.journals && RecoverJournal(hash, d, id).Recovered?
    ensures var after := SaveOffer(hash, d, RecoverJournal(hash, d, id));
      && after.files == d.files[d.journals[id].path := d.journals[id].markdown]
      && after.journals == d.journals - {id}
      && after.documents == d.documents && after.active == d.active && after.change == d.change
  {
    var offer := RecoverJournal(hash, d, id);
    var again := Request(d.change, id, offer.path, offer.diskHash, offer.markdown);
    UndisturbedSave(hash, d, again);
    JournalIfWritten(hash, d, again, Undisturbed);
    SaveKeepsRegistrations(hash, d, again, Undisturbed);
  }

  lemma {:induction false} FirstRecordIsFirst(documents: seq<Record>, id: DocId)
    ensures match FirstRecord(documents, id)
      case None => forall i | 0 <= i < |documents| :: documents[i].id != id
      case Some(record) => exists i :: 0 <= i < |documents| && documents[i] == record && record.id == id
                                       && forall j | 0 <= j < i :: documents[j].id != id
  {
    if documents != [] && documents[0].id != id {
      FirstRecordIsFirst(documents[1..], id);
      if FirstRecord(documents, id).Some? {
        var record := FirstRecord(documents, id).value;
        var i :| 0 <= i < |documents[1..]| && documents[1..][i] == record
                 && forall j | 0 <= j < i :: documents[1..][j].id != id;
        assert documents[i + 1] == record;
        forall j | 0 <= j < i + 1 ensures documents[j].id != id {
          assert j > 0 ==> documents[j] == documents[1..][j - 1];
        }
      }
    }
  }

  /** `record` is the first registered document with the id of the one opened last. */
  ghost predicate IsLastOpened(d: Disk, record: Record) {
    d.last == Some(record.id)
    && exists i ::
      0 <= i < |d.documents| && d.documents[i] == record && forall j | 0 <= j < i :: d.documents[j].id != record.id
  }

  /**
   Without journals, opening the active draft gives back the document opened last as it is on disk, and
   saving it like that changes nothing. Nothing is open exactly if the draft is not active or nothing was
   opened; and it cannot be opened exactly if the document is not registered or its file is gone.
   */
  lemma ReopeningGivesBackTheFile(hash: Hashing, d: Disk)
    requires d.journals == map[]
    ensures var offer := ActiveRecovery(hash, d);
      && (offer == NothingOpen <==> d.active != Some(d.change) || d.last.None?)
      && (offer == CannotRecover <==>
            d.active == Some(d.change) && d.last.Some?
            && forall record | IsLastOpened(d, record) :: record.path !in d.files)
      && (offer.Recovered? ==>
            && IsLastOpened(d, Record(offer.id, offer.path))
            && offer.path in d.files && offer.markdown == d.files[offer.path] && offer.diskHash == hash(offer.markdown)
            && !offer.conflict && !offer.unsaved
            && SaveOffer(hash, d, offer).files == d.files && SaveOffer(hash, d, offer).journals == d.journals)
  {
    var offer := ActiveRecovery(hash, d);
    if d.last.Some? {
      FirstRecordIsFirst(d.documents, d.last.value);
    }
    if offer.Recovered? {
      var again := Request(d.change, offer.id, offer.path, offer.diskHash, offer.markdown);
      UndisturbedSave(hash, d, again);
      JournalIfWritten(hash, d, again, Undisturbed);
      assert d.files[offer.path := offer.markdown] == d.files;
    }
  }

  /** The journal names a registered document whose file is there. */
  predicate IsRecoverable(d: Disk, id: DocId)
    requires id in d.journals
  {
    IsRegistered(d, id, d.journals[id].path) && d.journals[id].path in d.files
  }

  ghost predicate AllRecoverable(d: Disk) {
    forall id | id in d.journals :: IsRecoverable(d, id)
  }

  /** Recovery gets as far as `id`: every journal before it, and its own, can be recovered. */
  ghost predicate IsReached(d: Disk, id: DocId) {
    id in d.journals && forall other: DocId | other in d.journals && other <= id :: IsRecoverable(d, other)
  }

  /** Recovering and saving, again and again. */
  ghost function Drain(hash: Hashing, d: Disk, times: nat): Disk
    decreases times
  {
    if times == 0 || !ActiveRecovery(hash, d).Recovered? then d
    else Drain(hash, SaveOffer(hash, d, ActiveRecovery(hash, d)), times - 1)
  }

  ghost function DrainAll(hash: Hashing, d: Disk): Disk {
    Drain(hash, d, |d.journals|)
  }

  ghost predicate Holds(d: Disk, path: Path, text: string) {
    path in d.files && d.files[path] == text
  }

  /** One round settles the first journal, if it can be recovered, and leaves the others as recoverable as they were. */
  lemma DrainStep(hash: Hashing, d: Disk) returns (id: DocId, next: Disk)
    requires d.active == Some(d.change) && d.journals != map[] && IsRecoverable(d, Least(d.journals.Keys))
    ensures id == Least(d.journals.Keys) && next.active == Some(next.change)
    ensures next.files == d.files[d.journals[id].path := d.journals[id].markdown]
    ensures next.journals == d.journals - {id} && |next.journals| == |d.journals| - 1
    ensures forall other | other in next.journals :: IsRecoverable(next, other) == IsRecoverable(d, other)
    ensures DrainAll(hash, d) == DrainAll(hash, next)
  {
    id := Least(d.journals.Keys);
    SavingTheOfferSettles(hash, d, id);
    next := SaveOffer(hash, d, RecoverJournal(hash, d, id));
    assert next.journals.Keys == d.journals.Keys - {id};
    assert |next.journals| == |next.journals.Keys| && |d.journals| == |d.journals.Keys|;
  }

  /** A first journal that cannot be recovered stops everything. */
  lemma DrainStops(hash: Hashing, d: Disk)
    requires d.active == Some(d.change) && d.journals != map[] && !IsRecoverable(d, Least(d.journals.Keys))
    ensures DrainAll(hash, d) == d && forall id :: !IsReached(d, id)
  {
    var first := Least(d.journals.Keys);
    forall id ensures !IsReached(d, id) {
      assert id in d.journals ==> first <= id;
    }
  }

  lemma ReachedNext(d: Disk, next: Disk, first: DocId, id: DocId)
    requires d.journals != map[] && first == Least(d.journals.Keys) && IsRecoverable(d, first)
    requires next.journals == d.journals - {first}
    requires forall other | other in next.journals :: IsRecoverable(next, other) == IsRecoverable(d, other)
    ensures id != first ==> (IsReached(next, id) <==> IsReached(d, id))
  {
  }

  lemma {:induction false} DrainAddsNone(hash: Hashing, d: Disk)
    requires d.active == Some(d.change)
    ensures DrainAll(hash, d).journals.Keys <= d.journals.Keys
    decreases |d.journals|
  {
    if d.journals != map[] {
      if IsRecoverable(d, Least(d.journals.Keys)) {
        var first, next := DrainStep(hash, d);
        DrainAddsNone(hash, next);
      } else {
        DrainStops(hash, d);
      }
    }
  }

  /** Recovering and saving as often as there are journals settles exactly the journals that recovery reaches. */
  lemma {:induction false} RecoverySettlesTheReached(hash: Hashing, d: Disk, id: DocId)
    requires d.active == Some(d.change) && id in d.journals
    ensures id !in DrainAll(hash, d).journals <==> IsReached(d, id)
    decreases |d.journals|
  {
    if IsRecoverable(d, Least(d.journals.Keys)) {
      var first, next := DrainStep(hash, d);
      if id == first {
        DrainAddsNone(hash, next);
      } else {
        ReachedNext(d, next, first, id);
        RecoverySettlesTheReached(hash, next, id);
      }
    } else {
      DrainStops(hash, d);
    }
  }

  /** So it settles them all if and only if each of them can be recovered. */
  lemma RecoveryDrains(hash: Hashing, d: Disk)
    requires d.active == Some(d.change)
    ensures DrainAll(hash, d).journals == map[] <==> AllRecoverable(d)
  {
    if AllRecoverable(d) {
      forall id | id in d.journals ensures id !in DrainAll(hash, d).journals {
        RecoverySettlesTheReached(hash, d, id);
      }
      DrainAddsNone(hash, d);
      assert DrainAll(hash, d).journals.Keys == {};
    } else {
      var id :| id in d.journals && !IsRecoverable(d, id);
      RecoverySettlesTheReached(hash, d, id);
    }
  }

  /** No journal that recovery reaches names this file. */
  ghost predicate InNoReached(d: Disk, path: Path) {
    forall id | IsReached(d, id) :: d.journals[id].path != path
  }

  lemma FirstIsReached(d: Disk)
    requires d.journals != map[] && IsRecoverable(d, Least(d.journals.Keys))
    ensures IsReached(d, Least(d.journals.Keys))
  {
    var first := Least(d.journals.Keys);
    forall other: DocId | other in d.journals && other <= first ensures other == first {
      assert first <= other;
    }
  }

  lemma InNoReachedNext(d: Disk, next: Disk, first: DocId, path: Path)
    requires d.journals != map[] && first == Least(d.journals.Keys) && IsRecoverable(d, first)
    requires next.journals == d.journals - {first} && InNoReached(d, path)
    requires forall other | other in next.journals :: IsRecoverable(next, other) == IsRecoverable(d, other)
    ensures d.journals[first].path != path && InNoReached(next, path)
  {
    FirstIsReached(d);
    forall id | IsReached(next, id) ensures next.journals[id].path != path {
      assert id in next.journals && id != first;
      ReachedNext(d, next, first, id);
      assert IsReached(d, id) && next.journals[id] == d.journals[id];
    }
  }

  /** On the way a file that no settled journal names keeps its text. */
  lemma {:induction false} RecoveryKeepsOtherFiles(hash: Hashing, d: Disk, path: Path, text: string)
    requires d.active == Some(d.change) && Holds(d, path, text) && InNoReached(d, path)
    ensures Holds(DrainAll(hash, d), path, text)
    decreases |d.journals|
  {
    if d.journals != map[] {
      if IsRecoverable(d, Least(d.journals.Keys)) {
        var first, next := DrainStep(hash, d);
        InNoReachedNext(d, next, first, path);
        RecoveryKeepsOtherFiles(hash, next, path, text);
      } else {
        DrainStops(hash, d);
      }
    }
  }

  /** Recovery reaches the journal, and no later one that it reaches names the same file. */
  ghost predicate IsLastReached(d: Disk, id: DocId) {
    && IsReached(d, id)
    && forall other: DocId | IsReached(d, other) && other > id :: d.journals[other].path != d.journals[id].path
  }

  lemma LastReachedNext(d: Disk, next: Disk, first: DocId, id: DocId)
    requires d.journals != map[] && first == Least(d.journals.Keys) && IsRecoverable(d, first)
    requires next.journals == d.journals - {first} && IsLastReached(d, id)
    requires forall other | other in next.journals :: IsRecoverable(next, other) == IsRecoverable(d, other)
    ensures if id == first then InNoReached(next, d.journals[id].path) else IsLastReached(next, id)
  {
    forall other: DocId | IsReached(next, other)
      ensures other > first && IsReached(d, other) && next.journals[other] == d.journals[other]
    {
      assert other in next.journals && other != first;
      ReachedNext(d, next, first, other);
    }
    ReachedNext(d, next, first, id);
  }

  /** And the text of every settled journal ends up in its file, unless a later settled one names the same file. */
  lemma {:induction false} RecoveryRestoresTheTexts(hash: Hashing, d: Disk, id: DocId)
    requires d.active == Some(d.change)
    ensures IsLastReached(d, id) ==> Holds(DrainAll(hash, d), d.journals[id].path, d.journals[id].markdown)
    decreases |d.journals|
  {
    if IsLastReached(d, id) {
      var first, next := DrainStep(hash, d);
      LastReachedNext(d, next, first, id);
      if first == id {
        RecoveryKeepsOtherFiles(hash, next, d.journals[id].path, d.journals[id].markdown);
      } else {
        RecoveryRestoresTheTexts(hash, next, id);
      }
    }
  }

  /** A draft that is put aside has nothing open, and taken up again it opens as before. */
  lemma PutAsideAndTakenUp(hash: Hashing, d: Disk)
    requires d.active == Some(d.change)
    ensures var aside := Perform(hash, d, Activating(None));
      && ActiveRecovery(hash, aside) == NothingOpen
      && ActiveRecovery(hash, Perform(hash, aside, Activating(Some(d.change)))) == ActiveRecovery(hash, d)
  {
  }
}
